# Met swords scraper: a verified model

This project models in Dafny the core of `met_swords_full_scrape_sanitized.py`. That script builds an Excel
catalogue of the swords in the Metropolitan Museum of Art's Arms and Armor department. It works in four stages:

- It asks the collection search endpoint for the object IDs. A `limit` and a resume offset (`start_offset`) can
  narrow the list.
- For every ID it gathers three things: the object's API record, what a headless browser shows on the object's page
  (title, image URLs, and the text of four tabs), and a "long description" picked from the detail page's HTML by a
  chain of fallbacks.
- It reconciles these into one record. Image URLs come from the API first and from the page second, capped at eight
  additional images. Each image gets a local file path `<root>/<oid>/<oid>_<n>.<ext>`.
- It appends one spreadsheet row per object under a fixed 43-column header. Every string cell is stripped of the
  control characters Excel refuses. The workbook is saved every `save_every` objects and once more at the end.

The modules follow the script's sections:

| module | what it holds |
|---|---|
| `Text` | the pieces of Python's `str` the script relies on: `split`, `join`, `strip`, `lower`, `str(int)`, word counting |
| `Values` | JSON values as Python sees them, with truthiness, `dict.get` and `str()`, plus the `Result` type carrying the two exceptions that end a run |
| `Excel` | `clean_for_excel` |
| `Panels` | `clean_panel_text` and `scrape_tabs_for_object`, with the browser reduced to a `PageView` |
| `LongDescription` | `fetch_long_description_from_html`, with the parsed HTML reduced to an `HtmlDigest` |
| `Images` | `parse_ext` and the local image paths |
| `Reconcile` | the per-object field and image reconciliation |
| `Sheet` | the header, the row layout and a `Workbook` class whose rows, output file and save history the driver updates in place |
| `Scrape` | the search, the offset handling, the batch loop with its periodic and final saves, and `full_scrape` |

The network and the browser are a `World` value. It says what the API, the object's page and the detail-page HTML
give for each input.

Each loop of the script is a method proved equal to a specification function:

- the tab loop (`ScrapeTabs` against `TabsOf`);
- the fallback chain (`SelectLongDescription` against `LongDescriptionOf`);
- the field loop (`BuildFields` against `FieldsOf`);
- the path loop (`AdditionalLocalPaths` against `AdditionalPathsOf`);
- the row builder (`BuildRow` against `RowOf`);
- the batch loop (`RunBatch`, whose body is `Step` followed by `RecordResult`, and `FullScrape` against `BatchEnded`, which is built from `OkPrefix`, `RunOutcome` and `CheckpointRowCounts`).

Lemmas then state what the script promises about those functions.

Two behaviours of the code shape the model of the batch loop:

- **Failures inside the loop end the run.** Only the tab scrape is wrapped in `try` (lines 415-427). Among the
  values the model carries, three cases raise out of `full_scrape`, so the final save at line 551 is never reached:
  - `list()` on a missing, None or integer `additionalImages` in a non-empty API record (line 444);
  - `parse_ext` on a primary image that is not a string (line 482);
  - `parse_ext` on an additional image URL that is not a string (line 495).

  In the model such an object gives `Err`, and the run stops there with `ObjectFailed`. The output file keeps the
  rows of the last checkpoint. A fourth case, `ws.append` refusing a list-valued cell (line 530), is not modelled;
  see the `Sheet.Workbook.Append` line under "Left out".
- **The checkpoint interval is a parameter.** `save_every` defaults to 25 (line 369), and `processed % save_every`
  raises `ZeroDivisionError` when it is 0 (line 540). The model carries that case as `ZeroSaveInterval`: the first
  row is appended, nothing is saved, and the run ends.

## Model

| member | source | states |
|---|---|---|
| Text.JoinSplit | met_swords_full_scrape_sanitized.py:190-195 | joining the pieces of `s.split(c)` with `c` gives `s` back |
| Text.SplitJoin | met_swords_full_scrape_sanitized.py:190-195 | splitting a `c`-join of at least one piece, none containing `c`, gives the pieces back |
| Text.Split | met_swords_full_scrape_sanitized.py:304 | `split` gives at least one piece and no piece contains the separator |
| Text.LastPieceFollowsLastSeparator | met_swords_full_scrape_sanitized.py:304 | `s.split(c)[-1]` is the suffix of `s` after its last `c` (all of `s` when there is none) |
| Text.TrimStart | met_swords_full_scrape_sanitized.py:190 | `lstrip` drops exactly a leading run of whitespace |
| Text.TrimEnd | met_swords_full_scrape_sanitized.py:190 | `rstrip` drops exactly a trailing run of whitespace |
| Text.Trim | met_swords_full_scrape_sanitized.py:190 | the result of `strip` neither starts nor ends with whitespace and holds only characters of the input; which slice of the input it is, is stated in TrimKeepsCore |
| Text.TrimKeepsCore | met_swords_full_scrape_sanitized.py:190 | `strip` removes exactly the leading and the trailing whitespace runs: the result is a slice of the input with only whitespace before and after it |
| Text.TrimIdempotent | met_swords_full_scrape_sanitized.py:190-195 | stripping twice is stripping once |
| Text.NatToStringRoundTrip | met_swords_full_scrape_sanitized.py:496 | `str(n)` of a non-negative integer is all digits and reads back as `n` |
| Text.NatToStringInjective | met_swords_full_scrape_sanitized.py:496 | different numbers have different decimal forms |
| Text.NatToString | met_swords_full_scrape_sanitized.py:496 | defined by its body (`str(n)` for `n >= 0`); its promises are stated in NatToStringRoundTrip and NatToStringInjective |
| Text.IntToString | met_swords_full_scrape_sanitized.py:476 | defined by its body: `str(i)` of an integer, a `-` before the digits of `-i` when `i` is negative; it gives the object ID in image file names and the ID in the object page URL (line 223) |
| Text.Lower | met_swords_full_scrape_sanitized.py:304 | defined by its body: `.lower()`, each character mapped on its own (ASCII capitals to small letters, everything else unchanged); its contract states that the length is kept |
| Text.Join | met_swords_full_scrape_sanitized.py:195 | defined by its body: `sep.join(ls)`, also used for the `"\n\n"` join of the long description at line 164; its promises are stated in JoinSplit and SplitJoin |
| Text.WordsFrom | met_swords_full_scrape_sanitized.py:140 | defined by its body: words counted from a point in the text, given whether that point is inside a word; its promises are stated in WordCountSplitsAtSpace and WordCountOfRuns |
| Text.WordCount | met_swords_full_scrape_sanitized.py:140 | defined by its body: `len(t.split())`, the number of maximal runs of non-whitespace, which decides the "more than 30 words" test of lines 139-141; its promises are stated in WordCountSplitsAtSpace and WordCountOfRuns |
| Text.WordCountSplitsAtSpace | met_swords_full_scrape_sanitized.py:140 | a whitespace character separates words: the count of `a + c + b` is the count of `a` plus the count of `b` |
| Text.WordCountOfRuns | met_swords_full_scrape_sanitized.py:140 | a non-empty run of non-whitespace is exactly one word, and text made only of whitespace has none |
| Values.Truthy | met_swords_full_scrape_sanitized.py:448 | defined by its body: Python truthiness of a JSON value (an empty string, zero, `None` and an empty list are false), as used by the `or` and `if` tests at lines 103, 432, 448-462 and 481 |
| Values.Get | met_swords_full_scrape_sanitized.py:440-473 | defined by its body: `d.get(key, default)`, the stored value when the key is present and the default otherwise |
| Values.PyStr | met_swords_full_scrape_sanitized.py:476 | defined by its body: Python `str()` of a JSON value; a list is rendered as an approximate `repr` (quoted, not escaped); it gives the object ID in ImageFileName |
| Excel.CleanText | met_swords_full_scrape_sanitized.py:69-75 | the cleaned string holds no character in 0x00-0x08, 0x0B-0x0C or 0x0E-0x1F and is never longer |
| Excel.CleanForExcel | met_swords_full_scrape_sanitized.py:72-76 | a non-string passes through unchanged; a string comes back as a string free of those characters |
| Excel.CleanKeepsLegalInOrder | met_swords_full_scrape_sanitized.py:69-75 | the result is a subsequence of the input and keeps every legal character as many times as the input has it: only illegal characters are removed, and order is kept |
| Excel.CleanLegalUnchanged | met_swords_full_scrape_sanitized.py:69-75 | a string without illegal characters is unchanged |
| Excel.CleanIdempotent | met_swords_full_scrape_sanitized.py:72-76 | cleaning a cell twice is cleaning it once |
| Excel.CleanConcat | met_swords_full_scrape_sanitized.py:69-75 | cleaning distributes over concatenation |
| Excel.BellRemoved | met_swords_full_scrape_sanitized.py:69-75 | a BEL (0x07) between two texts is removed and both neighbours stay |
| Panels.KeepLines | met_swords_full_scrape_sanitized.py:191-194 | a line is kept iff it is an input line that is non-empty and is neither a fixed label nor a tab name; kept lines keep their order, and every occurrence of a kept line survives (same count as in the input) |
| Panels.KeepLine | met_swords_full_scrape_sanitized.py:191-194 | defined by its body: non-empty, not a fixed label, not a tab name; KeepLines and PanelLines state how it filters |
| Panels.PanelLines | met_swords_full_scrape_sanitized.py:190-194 | the kept lines are the stripped lines of the text that pass the filter, in order and each as many times as it occurs; each is stripped and holds no line break |
| Panels.JoinedLinesRoundTrip | met_swords_full_scrape_sanitized.py:195 | for non-empty, stripped, single-line pieces, the newline join is non-empty, unchanged by `strip`, and splits back into the pieces |
| Panels.JoinedLinesTrimmed | met_swords_full_scrape_sanitized.py:195 | a join of non-empty pieces whose outer ends are not whitespace is unchanged by `strip` |
| Panels.CleanPanelTextLines | met_swords_full_scrape_sanitized.py:187-195 | the cleaned panel is "" iff no line survives (the empty text included); otherwise splitting it at line breaks gives exactly the kept lines |
| Panels.CleanPanelText | met_swords_full_scrape_sanitized.py:187-195 | defined by its body; its promises are stated in CleanPanelTextLines |
| Panels.ScrapeTabs | met_swords_full_scrape_sanitized.py:222-279 | the tab loop and duplicate removal give `TabsOf`: on a navigation failure, the empty placeholder with the page URL; otherwise title, images, each tab's cleaned text ("" for a missing tab), then duplicate removal |
| Panels.Dedup | met_swords_full_scrape_sanitized.py:273-277 | defined by its body; its promises are stated in TabsOfPanels |
| Panels.PanelOf | met_swords_full_scrape_sanitized.py:250-271 | defined by its body: a clicked tab's cleaned text, else ""; its promises are stated in ScrapeTabs and TabsOfPanels |
| Panels.ObjectPageUrl | met_swords_full_scrape_sanitized.py:223 | defined by its body: the object page URL; ScrapeTabs and ObjectUrlIsFetchUrl state where it ends up |
| Panels.TabsOf | met_swords_full_scrape_sanitized.py:222-279 | defined by its body; its promises are stated in ScrapeTabs and TabsOfPanels |
| Panels.TabsOfPanels | met_swords_full_scrape_sanitized.py:262-277 | Signatures is cleared to "" when its cleaned tab text equals Overview's and is the tab's own text otherwise; likewise References against Provenance; Overview and Provenance are their tabs' texts; every panel is clean |
| LongDescription.NonEmptyTexts | met_swords_full_scrape_sanitized.py:162 | a paragraph text is kept iff it is non-empty; the kept texts are in document order and each occurs as often as in the input, so `texts[:3]` is the first three non-empty paragraphs |
| LongDescription.ParagraphsText | met_swords_full_scrape_sanitized.py:159-164 | defined by its body: the first three of NonEmptyTexts joined by a blank line; its promises are stated in NonEmptyTexts and FallbackOrder |
| LongDescription.SelectLongDescription | met_swords_full_scrape_sanitized.py:113-166 | the loops and fallbacks give `LongDescriptionOf` of the parsed page |
| LongDescription.LongDescriptionOf | met_swords_full_scrape_sanitized.py:113-166 | defined by its body; its promises are stated in ReadMoreWins, LongestWins and FallbackOrder |
| LongDescription.FetchedDescription | met_swords_full_scrape_sanitized.py:102-111 | defined by its body: "" for a falsy URL, a URL that is not a string (the request raises and is caught), or a failed or non-200 request, else `LongDescriptionOf` of the parsed page; DescriptionNeedsFetchedPage states it for the pipeline |
| LongDescription.ReadMoreTextIsFirst | met_swords_full_scrape_sanitized.py:117-131 | the first step gives "" iff no span is preferred (non-empty text under a read-more wrapper); otherwise it gives the text of the first preferred span |
| LongDescription.ReadMoreText | met_swords_full_scrape_sanitized.py:117-131 | defined by its body; its promises are stated in ReadMoreTextIsFirst and ReadMoreWins |
| LongDescription.LongestStepKeepsLongest | met_swords_full_scrape_sanitized.py:137-143 | one iteration of the longest-span loop keeps `best, best_len` describing the first-found longest span of more than 30 words |
| LongDescription.LongestSpanIsLongest | met_swords_full_scrape_sanitized.py:133-145 | after the loop, `best` is "" iff no span has more than 30 words; otherwise it is a span with the most words, the earliest among ties |
| LongDescription.LongestStep | met_swords_full_scrape_sanitized.py:137-143 | defined by its body; its promise is stated in LongestStepKeepsLongest |
| LongDescription.LongestSpan | met_swords_full_scrape_sanitized.py:133-145 | defined by its body; its promises are stated in LongestSpanIsLongest and LongestWins |
| LongDescription.ReadMoreWins | met_swords_full_scrape_sanitized.py:117-131 | the first preferred span decides the description, whatever follows |
| LongDescription.LongestWins | met_swords_full_scrape_sanitized.py:133-145 | with no preferred span and some span of more than 30 words, the description is the longest such span |
| LongDescription.FallbackOrder | met_swords_full_scrape_sanitized.py:147-166 | with no span qualifying: the stripped meta description if non-empty, else the stripped Open Graph description, else the first three non-empty paragraphs joined by a blank line |
| LongDescription.MetaDescriptionExample | met_swords_full_scrape_sanitized.py:147-151 | a page with no marked spans and the meta description "A fine blade." yields that text |
| Images.ParseExt | met_swords_full_scrape_sanitized.py:303-305 | the extension is always one of jpg, jpeg, png, gif, tif, tiff, bmp |
| Images.ParseExtReadsLastDotSuffix | met_swords_full_scrape_sanitized.py:303-305 | the query-free part is the URL up to its first `?` (all of it when there is none); the extension is the lower-cased text after that part's last `.` when that is allowed, and "jpg" otherwise |
| Images.QueryIgnored | met_swords_full_scrape_sanitized.py:304 | whatever follows the first `?` does not change the extension |
| Images.WithoutQuery | met_swords_full_scrape_sanitized.py:304 | defined by its body; its promises are stated in ParseExtReadsLastDotSuffix and QueryIgnored |
| Images.AfterLastDot | met_swords_full_scrape_sanitized.py:304 | defined by its body; its promises are stated in ParseExtReadsLastDotSuffix |
| Images.ImagePathShape | met_swords_full_scrape_sanitized.py:483-497 | the local path ends with `<oid>_<n>.<ext>`, and is `<root>/<oid>/<oid>_<n>.<ext>` for a plain root and object folder |
| Images.PathJoin | met_swords_full_scrape_sanitized.py:483 | defined by its body (POSIX `os.path.join` of two parts); its promises are stated in ImagePathShape |
| Images.ImageFileName | met_swords_full_scrape_sanitized.py:496 | defined by its body; its promises are stated in FirstDotAfterDigits and ImageFileNameInjective |
| Images.ImagePath | met_swords_full_scrape_sanitized.py:483-497 | defined by its body; its promises are stated in ImagePathShape and DistinctImagePaths |
| Images.FirstDotAfterDigits | met_swords_full_scrape_sanitized.py:496 | in `<digits>.<ext>` the first `.` follows the digits |
| Images.DigitsThenDot | met_swords_full_scrape_sanitized.py:496 | `<digits>.<ext>` determines both the digits and the extension |
| Images.ImageFileNameInjective | met_swords_full_scrape_sanitized.py:483-496 | the file name determines the image's number and extension |
| Images.DistinctImagePaths | met_swords_full_scrape_sanitized.py:480-502 | images with different numbers of one object never share a local path |
| Images.PrimaryLocalPathShape | met_swords_full_scrape_sanitized.py:480-489 | the primary path is "" iff the primary image is falsy, and otherwise ends with `<oid>_1.<ext>` for the URL's parsed extension |
| Images.PrimaryLocalPath | met_swords_full_scrape_sanitized.py:480-489 | defined by its body; its promises are stated in PrimaryLocalPathShape |
| Images.PathsUpTo | met_swords_full_scrape_sanitized.py:492-500 | after `n` iterations the path list has `n` entries |
| Images.PathsUpToAt | met_swords_full_scrape_sanitized.py:494-499 | position `k` of the path list holds the path of image number `k + 2` |
| Images.AdditionalLocalPaths | met_swords_full_scrape_sanitized.py:491-502 | the loop gives `AdditionalPathsOf`: the paths when every URL is a string, else the `parse_ext` error |
| Images.AdditionalPathsOf | met_swords_full_scrape_sanitized.py:491-502 | defined by its body; its promises are stated in AdditionalLocalPaths, AdditionalPathsShape and LocalPathsDistinct |
| Images.AdditionalPathsShape | met_swords_full_scrape_sanitized.py:491-502 | there is one path per additional URL, and the i-th ends with `<oid>_<i+2>.<ext>` for that URL's extension |
| Images.LocalPathsDistinct | met_swords_full_scrape_sanitized.py:475-502 | the additional paths are pairwise different and none equals a non-empty primary path |
| Reconcile.StrValues | met_swords_full_scrape_sanitized.py:446-449 | one string cell per page image URL, in order: cell `i` is the `i`-th URL |
| Reconcile.HtmlUrl | met_swords_full_scrape_sanitized.py:430-434 | defined by its body; its promises are stated in ObjectUrlIsFetchUrl |
| Reconcile.ImageUrlsOf | met_swords_full_scrape_sanitized.py:440-450 | defined by its body; its promises are stated in ImageUrlsFailure and ImageUrlsPrecedence |
| Reconcile.AsList | met_swords_full_scrape_sanitized.py:443-444 | defined by its body: `list()` of a list is itself and fails on None or an integer; its promise is stated in ImageUrlsFailure |
| Reconcile.ApiAdditional | met_swords_full_scrape_sanitized.py:441-444 | defined by its body; its promise is stated in ImageUrlsFailure |
| Reconcile.ApiPrimary | met_swords_full_scrape_sanitized.py:440 | defined by its body; its promise is stated in ImageUrlsPrecedence |
| Reconcile.AdditionalPool | met_swords_full_scrape_sanitized.py:448-450 | defined by its body; its promise is stated in ImageUrlsPrecedence |
| Reconcile.ImageUrlsFailure | met_swords_full_scrape_sanitized.py:440-444 | image reconciliation fails iff the API record is non-empty and its `additionalImages` is missing, None or an integer; the error is "not iterable" |
| Reconcile.ImageUrlsPrecedence | met_swords_full_scrape_sanitized.py:440-450 | primary image: the API's when truthy, else the first page image, else ""; additional images: the first `min(8, len)` of the API list when non-empty, else of the page images after the first |
| Reconcile.PagePrimaryNotRepeated | met_swords_full_scrape_sanitized.py:446-450 | when both come from a page list without repeats, the primary image is not among the additional ones |
| Reconcile.TwentyPageImagesCapped | met_swords_full_scrape_sanitized.py:446-450 | twenty page images and an empty API record leave exactly eight additional images |
| Reconcile.FieldsOf | met_swords_full_scrape_sanitized.py:456-473 | the record has an entry for exactly the 24 catalogue columns |
| Reconcile.FieldValue | met_swords_full_scrape_sanitized.py:456-473 | defined by its body; its promises are stated in EmptyApiDefaults, ApiFieldsPrecedence and PageFieldsFromPage |
| Reconcile.PanelText | met_swords_full_scrape_sanitized.py:465-471 | defined by its body: the page's text for each of the four panel columns; its promise is stated in PageFieldsFromPage |
| Reconcile.BuildFields | met_swords_full_scrape_sanitized.py:456-473 | the field loop gives `FieldsOf` |
| Reconcile.AllColumnsListed | met_swords_full_scrape_sanitized.py:42-67 | every column of the model is one of the catalogue columns |
| Reconcile.ObjectUrlIsFetchUrl | met_swords_full_scrape_sanitized.py:430-462 | the `objectURL` column always holds the URL the long description was fetched from |
| Reconcile.PageFieldsFromPage | met_swords_full_scrape_sanitized.py:463-471 | the long-description column and the four panel columns come from the fetch and the page, whatever the API says |
| Reconcile.EmptyApiDefaults | met_swords_full_scrape_sanitized.py:456-473 | with an empty API record: `objectID` is the search ID, the title is the page title, `objectURL` is the page URL, and every API column is "" |
| Reconcile.ApiFieldsPrecedence | met_swords_full_scrape_sanitized.py:456-473 | with a non-empty API record: `objectID` is the API's when present, else the search ID; the title is the API's when truthy, else the page's; every API column is the API value under its name, else "" |
| Sheet.AdditionalHeaders | met_swords_full_scrape_sanitized.py:328-329 | there are eight additional-image headers per group |
| Sheet.Headers | met_swords_full_scrape_sanitized.py:327-337 | defined by its body; its promises are stated in AdditionalHeaders, AdditionalHeadersDistinct and RowMatchesHeaders |
| Sheet.AdditionalHeadersDistinct | met_swords_full_scrape_sanitized.py:328-329 | the eight headers of a group are pairwise different |
| Sheet.Padded | met_swords_full_scrape_sanitized.py:519-524 | each padded group has exactly eight cells |
| Sheet.RawRowLayout | met_swords_full_scrape_sanitized.py:505-524 | the uncleaned row has 43 cells: placeholder, catalogue fields in order, primary URL and path, eight URLs and eight paths padded with "" |
| Sheet.RowMatchesHeaders | met_swords_full_scrape_sanitized.py:505-527 | the row is as wide as the header, and each cell is the cleaned record value under the header that names it |
| Sheet.RowOf | met_swords_full_scrape_sanitized.py:505-527 | defined by its body; its promises are stated in BuildRow, RowMatchesHeaders and RowCellsLegal |
| Sheet.RawRow | met_swords_full_scrape_sanitized.py:505-524 | defined by its body; its promises are stated in RawRowLayout |
| Sheet.FieldOr | met_swords_full_scrape_sanitized.py:511-512 | defined by its body (`record.get(field, "")`); its promise is stated in RawRowLayout |
| Sheet.RowCellsLegal | met_swords_full_scrape_sanitized.py:526-527 | no string cell of a row holds an Excel-illegal character, and non-string cells are the record's values unchanged |
| Sheet.BuildRow | met_swords_full_scrape_sanitized.py:505-527 | the appends and the cleaning pass give `RowOf` |
| Sheet.Workbook.constructor | met_swords_full_scrape_sanitized.py:394-396 | a new workbook has the given sheet title, no rows, no file and no saves |
| Sheet.Workbook.Append | met_swords_full_scrape_sanitized.py:530 | appending adds the row at the end and leaves the file and the save history alone |
| Sheet.Workbook.Save | met_swords_full_scrape_sanitized.py:539-551 | saving makes the file hold the whole sheet and records the row count |
| Sheet.Workbook.WriteHeaders | met_swords_full_scrape_sanitized.py:327-339 | the header row is appended |
| Scrape.LimitKeepsPrefix | met_swords_full_scrape_sanitized.py:92-95 | `all_ids[:limit]` is a prefix of the IDs: `limit` of them, or all but `-limit` of them when negative |
| Scrape.SearchIds | met_swords_full_scrape_sanitized.py:92-95 | defined by its body; its promises are stated in LimitKeepsPrefix |
| Scrape.SliceTo | met_swords_full_scrape_sanitized.py:94 | defined by its body; its promises are stated in LimitKeepsPrefix |
| Scrape.ResumeSkipsPrefix | met_swords_full_scrape_sanitized.py:373-386 | after clamping the offset, the skipped IDs followed by the IDs scraped are exactly the search result; a negative offset skips nothing and one past the end scrapes nothing |
| Scrape.ClampOffset | met_swords_full_scrape_sanitized.py:381-384 | defined by its body; its promises are stated in ResumeSkipsPrefix |
| Scrape.ObjectsToScrape | met_swords_full_scrape_sanitized.py:381-386 | defined by its body; its promises are stated in ResumeSkipsPrefix and ResumeMatchesFullRun |
| Scrape.ResumeMatchesFullRun | met_swords_full_scrape_sanitized.py:373-386 | for any processing that depends only on the ID (`ObjectResults` is `MapIds` of `ObjectRow`), when the first `k` objects succeed, the first run's `k` rows followed by the rows of the run resumed at offset `k` are the rows of a single full run; this is about rows, not the file (see Left out) |
| Scrape.AssembledRecordProperties | met_swords_full_scrape_sanitized.py:429-527 | a record carries the description and the URL it was fetched from, at most eight additional images each with its own path, and a primary path iff there is a primary image; no two paths are alike and the row is as wide as the header |
| Scrape.FetchObject | met_swords_full_scrape_sanitized.py:412-435 | the API fetch, tab scrape and description fetch give `Fetch` |
| Scrape.Fetch | met_swords_full_scrape_sanitized.py:412-435 | defined by its body; its promises are stated in FetchObject, DescriptionNeedsFetchedPage and AssembledRecordProperties |
| Scrape.DescriptionNeedsFetchedPage | met_swords_full_scrape_sanitized.py:428-435 | a non-empty description was read from a detail page fetched from a non-empty string URL |
| Scrape.AssembleRecord | met_swords_full_scrape_sanitized.py:437-502 | reconciliation and path building give `Assemble`, including its errors |
| Scrape.Assemble | met_swords_full_scrape_sanitized.py:437-502 | defined by its body; its promises are stated in AssembleRecord and AssembledRecordProperties |
| Scrape.ObjectRecord | met_swords_full_scrape_sanitized.py:412-502 | defined by its body: `Assemble` of `Fetch`; ProcessObject states it |
| Scrape.ObjectRow | met_swords_full_scrape_sanitized.py:412-527 | defined by its body: the row of the record, or its error; its promises are stated in ProcessObject and Step |
| Scrape.ProcessObject | met_swords_full_scrape_sanitized.py:412-527 | one loop body up to the append gives `ObjectRow` |
| Scrape.Step | met_swords_full_scrape_sanitized.py:407-527 | processing the i-th ID gives the i-th result |
| Scrape.ObjectResultsOf | met_swords_full_scrape_sanitized.py:407-527 | `ObjectResults` gives each ID's result in order, and it is the only sequence of results that does |
| Scrape.ObjectResults | met_swords_full_scrape_sanitized.py:407-527 | one result per ID; ObjectResultsOf states that it gives each ID's result in order |
| Scrape.OkPrefixStopsAtFirstError | met_swords_full_scrape_sanitized.py:407-545 | the rows appended are the values of the leading successes, and the first result after them is a failure |
| Scrape.OkPrefix | met_swords_full_scrape_sanitized.py:407-531 | defined by its body; its promises are stated in OkPrefixStopsAtFirstError and OkPrefixAppend |
| Scrape.OkPrefixAppend | met_swords_full_scrape_sanitized.py:407-545 | when every object of a first batch succeeds, the rows of the two batches together are those of the first followed by those of the second |
| Scrape.MapIds | met_swords_full_scrape_sanitized.py:407 | one result per ID |
| Scrape.MapIdsSplit | met_swords_full_scrape_sanitized.py:386-407 | per-ID results of a split list are the results of the two parts, concatenated |
| Scrape.SavePointsMembers | met_swords_full_scrape_sanitized.py:537-542 | checkpoints are taken exactly at the positive multiples of the interval up to `n`, in increasing order |
| Scrape.SavePoints | met_swords_full_scrape_sanitized.py:537-542 | defined by its body; its promises are stated in SavePointsMembers and LastCheckpoint |
| Scrape.LastCheckpoint | met_swords_full_scrape_sanitized.py:537-542 | with a positive interval there is a checkpoint iff `n` reaches the interval, and the last one is the largest multiple not above `n` |
| Scrape.IncreasingLastIsMax | met_swords_full_scrape_sanitized.py:537-542 | the last checkpoint of an increasing sequence is the largest |
| Scrape.CheckpointRowCountsAtSavePoints | met_swords_full_scrape_sanitized.py:530-542 | at each checkpoint the sheet holds the header plus the objects processed so far |
| Scrape.CheckpointRowCounts | met_swords_full_scrape_sanitized.py:537-542 | defined by its body; its promise is stated in CheckpointRowCountsAtSavePoints |
| Scrape.AllSucceedWritesEveryRow | met_swords_full_scrape_sanitized.py:407-551 | when every object succeeds and the interval is positive (or there are no IDs), the run completes with one row per ID, in ID order |
| Scrape.PeriodicSave | met_swords_full_scrape_sanitized.py:539-543 | the file is saved iff `processed` is a multiple of a non-zero interval; a zero interval reports the error and saves nothing |
| Scrape.OkPrefixAt | met_swords_full_scrape_sanitized.py:407-531 | past `i` leading successes, the `i`-th result is a success iff the appended rows go beyond `i`, and then it is the `i`-th row |
| Scrape.EndedByFailure | met_swords_full_scrape_sanitized.py:407-545 | a batch that stops at a failing object after appending and checkpointing the leading successes ends with the rows, outcome and saves `BatchEnded` describes |
| Scrape.EndedByZeroInterval | met_swords_full_scrape_sanitized.py:537-543 | with an interval of 0 the batch ends after the first row with no save, as `BatchEnded` describes |
| Scrape.EndedCompleted | met_swords_full_scrape_sanitized.py:407-551 | a batch whose every object succeeded ends with every row, the checkpoints and the final save, as `BatchEnded` describes |
| Scrape.RecordResult | met_swords_full_scrape_sanitized.py:530-543 | after one object's result: a failure ends the batch as `BatchEnded` says; a success is appended and checkpointed, keeping rows equal to the leading successes so far and saves equal to `CheckpointRowCounts`; an interval of 0 ends the batch after that row |
| Scrape.RunBatch | met_swords_full_scrape_sanitized.py:407-551 | `BatchEnded`: the sheet gains the rows of the leading successes (one row with a zero interval); the outcome is `RunOutcome`; the saves are the checkpoints plus a final save iff the run completed |
| Scrape.RunOutcome | met_swords_full_scrape_sanitized.py:407-551 | defined by its body; its promises are stated in RunBatch, FullScrape and AllSucceedWritesEveryRow |
| Scrape.RowsWritten | met_swords_full_scrape_sanitized.py:407-543 | defined by its body: the leading successes, or one row with an interval of 0; its promises are stated in AllSucceedWritesEveryRow and RunBatch |
| Scrape.FullScrape | met_swords_full_scrape_sanitized.py:367-552 | a failed search gives an empty, unsaved workbook. Otherwise `results` is what processing each ID of the clamped, limited ID list gives (by `ObjectResultsOf`, exactly `ObjectResults`); the sheet is titled "Met Swords" and holds the header and the rows of the leading successes, with outcome and saves as in `BatchEnded`. In both cases the file holds the rows of the last save |

## Left out

- The network, Playwright and BeautifulSoup. They are reduced to what they report: the `World` (API record, page view, parsed detail page per input), `PageView` and `HtmlDigest`. The JavaScript of `get_artwork_details_section_text`, `get_page_title` and `get_page_images` (lines 173-219) is not modelled; their results are inputs. The `World` answers the same input the same way every time.
- HTTP and JSON errors of the search are one `SearchError`. A search answer that is not a JSON object, and an `objectIDs` that is not a list of integers, are not modelled.
- `fetch_api_data` is reduced to its result: the decoded record, or `{}` when any step fails. A JSON answer that is not an object is not modelled.
- JSON values are strings, integers, None and lists. Floats, booleans and nested objects are not modelled. `PyStr` approximates `repr` of a list: strings are quoted but not escaped.
- `embed_image` (lines 307-325), the thumbnail embedding at 532-534, `row_idx`, column widths and letters (341-360) and the returned `primary_thumb_col` are not modelled. The thumbnail cell stays the "" placeholder.
- The file system is not modelled: `os.makedirs`, path existence and image downloads. Neither are the absolute paths `primary_local_abs` and `add_local_abs`, which only feed `embed_image`. `IMAGE_ROOT_DIR` is the `root` parameter, and `os.path.join` is the POSIX one.
- `Scrape.ResumeMatchesFullRun`: the lemma is about rows, not about the output file. A resumed run builds a fresh workbook (line 394) and overwrites `output_xlsx` (lines 542 and 551), so its file holds only its own rows; the first run's rows survive only in a file the resumed run does not overwrite. A run that dies has on disk only the rows up to its last checkpoint (`LastCheckpoint`): with `save_every=25`, dying after 90 objects leaves 75 rows, and resuming at offset 90 never writes rows 76-90. The two files together hold a full run's rows only when resuming starts at that checkpoint.
- `Sheet.Workbook.Append`: openpyxl refuses a list-valued cell, such as an API column whose value is a list (`"culture": ["x"]`, copied at lines 472-473); the model appends any value. The workbook's file is the sheet's rows, not the XLSX encoding.
- `time.sleep`, the progress `print`s, `browser.close()` and the entry point with its environment variables (lines 559-579) are not modelled.
- Whitespace is ASCII only (`str.isspace`, `str.split()`). `lower()` folds only ASCII letters. `splitlines()` breaks only at `\n`.
