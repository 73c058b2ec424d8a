/** The driver: the search step of `fetch_object_ids_from_search`
    (met_swords_full_scrape_sanitized.py:83-95), the offset handling and the
    batch loop of `full_scrape` (:367-552), with its periodic and final saves.
    The network and the browser are a `World`: what the object API, the
    object's page and the detail-page HTML give for each input. */
module Scrape {
  import opened Text
  import opened Values
  import opened Panels
  import opened LongDescription
  import opened Images
  import opened Reconcile
  import opened Sheet

  /** The answer of the search endpoint: an HTTP or decoding error (raised out
      of the run), or the `objectIDs` entry (None when missing or null). */
  datatype SearchResponse = SearchError | SearchOk(objectIDs: Option<seq<int>>)

  /** Everything fetched from outside, per input: the API record of an object
      (the empty map when the fetch fails), what the browser shows on the
      object's page, and the parsed detail page behind a URL (None when the
      request fails or does not answer 200). */
  datatype World = World(
    api: int -> ApiRecord,
    page: int -> PageView,
    html: Value -> Option<HtmlDigest>)

  datatype Outcome =
    | Completed
    | SearchFailed
    | ObjectFailed(objectId: int, error: ScrapeError)
    | ZeroSaveInterval   // `processed % save_every` with `save_every == 0`

  const SheetTitle: string := "Met Swords"

  /** Python's `xs[:stop]`: a negative stop counts from the end. */
  function SliceTo<T>(xs: seq<T>, stop: int): seq<T> {
    if stop >= 0 then (if stop <= |xs| then xs[..stop] else xs)
    else if -stop <= |xs| then xs[..|xs| + stop]
    else []
  }

  /** `fetch_object_ids_from_search(limit)` after a successful request. */
  function SearchIds(objectIDs: Option<seq<int>>, limit: Option<int>): seq<int> {
    var all := if objectIDs.Some? then objectIDs.value else [];
    if limit.Some? then SliceTo(all, limit.value) else all
  }

  /** `limit` keeps a prefix of the search result: its first `limit` IDs, or all
      but the last `-limit` when negative. */
  lemma LimitKeepsPrefix(ids: seq<int>, limit: int)
    ensures var r := SearchIds(Some(ids), Some(limit));
      && |r| <= |ids| && r == ids[..|r|]
      && (limit >= 0 ==> |r| == (if limit < |ids| then limit else |ids|))
      && (limit < 0 ==> |r| == (if |ids| + limit > 0 then |ids| + limit else 0))
  {
  }

  /** `start_offset` after the two corrections of :381-384. */
  function ClampOffset(startOffset: int, total: nat): nat {
    if startOffset < 0 then 0
    else if startOffset > total then total
    else startOffset
  }

  /** `all_ids[start_offset:]`. */
  function ObjectsToScrape(allIds: seq<int>, startOffset: int): seq<int> {
    allIds[ClampOffset(startOffset, |allIds|)..]
  }

  /** A run started at an offset scrapes exactly the IDs after the first
      `offset` ones: nothing is skipped and nothing repeated. A negative offset
      starts at the beginning; one past the end scrapes nothing. */
  lemma ResumeSkipsPrefix(allIds: seq<int>, startOffset: int)
    ensures var k := ClampOffset(startOffset, |allIds|);
      && k <= |allIds|
      && allIds[..k] + ObjectsToScrape(allIds, startOffset) == allIds
      && (0 <= startOffset <= |allIds| ==> |ObjectsToScrape(allIds, startOffset)| == |allIds| - startOffset)
      && (startOffset <= 0 ==> ObjectsToScrape(allIds, startOffset) == allIds)
      && (startOffset >= |allIds| ==> ObjectsToScrape(allIds, startOffset) == [])
  {
    var k := ClampOffset(startOffset, |allIds|);
    assert allIds[..k] + allIds[k..] == allIds;
  }

  /** What is fetched for one object: its API record, the tab data of its page
      and the long description read from the URL chosen at :430-435. */
  datatype Fetched = Fetched(api: ApiRecord, tab: PageData, longDesc: string)

  function Fetch(world: World, objectId: int): Fetched {
    var api := world.api(objectId);
    var tab := TabsOf(objectId, world.page(objectId));
    var url := HtmlUrl(api, tab);
    Fetched(api, tab, FetchedDescription(url, world.html(url)))
  }

  /** The record built from what was fetched (:437-502). */
  function Assemble(root: string, objectId: int, f: Fetched): Result<Record> {
    var images :- ImageUrlsOf(f.api, f.tab.pageImageUrls);
    var fields := FieldsOf(objectId, f.api, f.tab, f.longDesc);
    AllColumnsListed(ObjectID);
    var oid := PyStr(fields[ObjectID]);
    var primaryLocal :- PrimaryLocalPath(root, oid, images.primary);
    var additionalLocal :- AdditionalPathsOf(root, oid, images.additional);
    Ok(Record(fields, images.primary, images.additional, primaryLocal, additionalLocal))
  }

  /** The record `full_scrape` assembles for one object ID (:412-502). */
  function ObjectRecord(world: World, root: string, objectId: int): Result<Record> {
    Assemble(root, objectId, Fetch(world, objectId))
  }

  /** The row appended for one object ID, or the exception that ends the run. */
  function ObjectRow(world: World, root: string, objectId: int): Result<seq<Value>> {
    var rec :- ObjectRecord(world, root, objectId);
    Ok(RowOf(rec))
  }

  /** A record carries the description fetched with it and the URL it was
      fetched from, at most eight additional images each with its own local
      path, a primary path exactly when there is a primary image, and no two
      image paths alike; its row is as wide as the header. */
  lemma AssembledRecordProperties(root: string, objectId: int, f: Fetched)
    requires Assemble(root, objectId, f).Ok?
    ensures var rec := Assemble(root, objectId, f).value;
      && rec.fields[ObjectURL] == HtmlUrl(f.api, f.tab)
      && rec.fields[LongDesc] == Str(f.longDesc)
      && |rec.additionalImages| <= MaxAdditionalImages
      && |rec.additionalLocalPaths| == |rec.additionalImages|
      && (rec.primaryLocalPath == "" <==> !Truthy(rec.primaryImage))
      && (forall i, j :: 0 <= i < j < |rec.additionalLocalPaths| ==>
            rec.additionalLocalPaths[i] != rec.additionalLocalPaths[j])
      && (Truthy(rec.primaryImage) ==> rec.primaryLocalPath !in rec.additionalLocalPaths)
      && |RowOf(rec)| == |Headers()|
  {
    var rec := Assemble(root, objectId, f).value;
    ObjectUrlIsFetchUrl(objectId, f.api, f.tab, f.longDesc);
    PageFieldsFromPage(objectId, f.api, f.tab, f.longDesc);
    ImageUrlsPrecedence(f.api, f.tab.pageImageUrls);
    var oid := PyStr(rec.fields[ObjectID]);
    PrimaryLocalPathShape(root, oid, rec.primaryImage);
    AdditionalPathsShape(root, oid, rec.additionalImages);
    LocalPathsDistinct(root, oid, rec.primaryImage, rec.additionalImages);
    RowMatchesHeaders(rec);
  }

  /** A description is only ever read from a detail page that was fetched
      from a non-empty string URL. */
  lemma DescriptionNeedsFetchedPage(world: World, objectId: int)
    ensures var f := Fetch(world, objectId); var url := HtmlUrl(f.api, f.tab);
      f.longDesc != "" ==> url.Str? && url.s != "" && world.html(url).Some?
  {
  }

  /** The fetching half of the loop body: the API record, the tab scrape and
      the description chain. */
  method FetchObject(world: World, objectId: int) returns (f: Fetched)
    ensures f == Fetch(world, objectId)
  {
    var api := world.api(objectId);
    var tab := ScrapeTabs(objectId, world.page(objectId));
    var url := HtmlUrl(api, tab);
    var longDesc := "";
    if Truthy(url) && url.Str? {
      var page := world.html(url);
      if page.Some? {
        longDesc := SelectLongDescription(page.value);
      }
    }
    f := Fetched(api, tab, longDesc);
  }

  /** The assembling half: image and field reconciliation and the local paths. */
  method AssembleRecord(root: string, objectId: int, f: Fetched) returns (r: Result<Record>)
    ensures r == Assemble(root, objectId, f)
  {
    var images := ImageUrlsOf(f.api, f.tab.pageImageUrls);
    if images.Err? {
      return Err(images.error);
    }
    var fields := BuildFields(objectId, f.api, f.tab, f.longDesc);
    AllColumnsListed(ObjectID);
    var oid := PyStr(fields[ObjectID]);
    var primaryLocal := PrimaryLocalPath(root, oid, images.value.primary);
    if primaryLocal.Err? {
      return Err(primaryLocal.error);
    }
    var additionalLocal := AdditionalLocalPaths(root, oid, images.value.additional);
    if additionalLocal.Err? {
      return Err(additionalLocal.error);
    }
    r := Ok(Record(fields, images.value.primary, images.value.additional,
                   primaryLocal.value, additionalLocal.value));
  }

  /** One object as the loop body handles it, up to the row to append. */
  method ProcessObject(world: World, root: string, objectId: int) returns (r: Result<seq<Value>>)
    ensures r == ObjectRow(world, root, objectId)
  {
    var f := FetchObject(world, objectId);
    var rec := AssembleRecord(root, objectId, f);
    if rec.Err? {
      return Err(rec.error);
    }
    var row := BuildRow(rec.value);
    r := Ok(row);
  }

  /** One result per ID. */
  function MapIds<T>(f: int -> T, ids: seq<int>): (r: seq<T>)
    ensures |r| == |ids|
  {
    seq(|ids|, k requires 0 <= k < |ids| => f(ids[k]))
  }

  lemma MapIdsSplit<T>(f: int -> T, ids: seq<int>, k: nat)
    requires k <= |ids|
    ensures MapIds(f, ids) == MapIds(f, ids[..k]) + MapIds(f, ids[k..])
  {
  }

  /** What processing each ID gives, in order. */
  function ObjectResults(world: World, root: string, ids: seq<int>): (r: seq<Result<seq<Value>>>)
    ensures |r| == |ids|
  {
    MapIds(id => ObjectRow(world, root, id), ids)
  }

  /** `results` holds what processing each of `ids` gives. */
  predicate ResultsOf(world: World, root: string, ids: seq<int>, results: seq<Result<seq<Value>>>) {
    && |results| == |ids|
    && forall k {:trigger ObjectRow(world, root, ids[k])} :: 0 <= k < |ids| ==>
         results[k] == ObjectRow(world, root, ids[k])
  }

  /** `ObjectResults` is the one sequence of results for `ids`. */
  lemma ObjectResultsOf(world: World, root: string, ids: seq<int>, results: seq<Result<seq<Value>>>)
    ensures ResultsOf(world, root, ids, ObjectResults(world, root, ids))
    ensures ResultsOf(world, root, ids, results) ==> results == ObjectResults(world, root, ids)
  {
  }

  lemma ResultsExist(world: World, root: string, ids: seq<int>)
    ensures exists results :: ResultsOf(world, root, ids, results)
  {
    ObjectResultsOf(world, root, ids, []);
  }

  /** Processing the `i`-th object gives the `i`-th of `results`. The results are
      a ghost parameter tied to the pipeline by ResultsOf, so that callers never
      mention ObjectResults and its unfolding stays out of their proofs. */
  method Step(world: World, root: string, objectIds: seq<int>, i: nat, ghost results: seq<Result<seq<Value>>>)
    returns (r: Result<seq<Value>>)
    requires i < |objectIds| && ResultsOf(world, root, objectIds, results)
    ensures r == results[i]
  {
    r := ProcessObject(world, root, objectIds[i]);
  }

  /** The values of the results before the first failure. */
  function OkPrefix<T>(results: seq<Result<T>>): seq<T> {
    if results == [] || results[0].Err? then []
    else [results[0].value] + OkPrefix(results[1..])
  }

  /** `OkPrefix` holds the values of the leading successes and stops exactly at
      the first failure. */
  lemma {:induction false} OkPrefixStopsAtFirstError<T>(results: seq<Result<T>>)
    ensures var oks := OkPrefix(results);
      && |oks| <= |results|
      && (forall k :: 0 <= k < |oks| ==> results[k] == Ok(oks[k]))
      && (|oks| < |results| ==> results[|oks|].Err?)
  {
    if results != [] && results[0].Ok? {
      OkPrefixStopsAtFirstError(results[1..]);
      var rest := OkPrefix(results[1..]);
      assert forall k :: 1 <= k < |rest| + 1 ==> results[k] == results[1..][k - 1];
    }
  }

  /** When every result of `a` succeeds, the successes of `a + b` are those of
      `a` followed by those of `b`. */
  lemma {:induction false} OkPrefixAppend<T>(a: seq<Result<T>>, b: seq<Result<T>>)
    requires |OkPrefix(a)| == |a|
    ensures OkPrefix(a + b) == OkPrefix(a) + OkPrefix(b)
  {
    if a == [] {
      assert a + b == b;
    } else {
      var ab := a + b;
      assert a[0].Ok?;
      assert OkPrefix(a) == [a[0].value] + OkPrefix(a[1..]);
      assert ab[0] == a[0] && ab[1..] == a[1..] + b;
      assert OkPrefix(ab) == [a[0].value] + OkPrefix(a[1..] + b);
      OkPrefixAppend(a[1..], b);
    }
  }

  /** When the first `k` objects all succeed, the first run's `k` rows followed
      by the rows of a run resumed at offset `k` are the rows a single run over
      the whole search result would produce. This holds for any processing that
      depends only on the ID, and so for `ObjectResults`, which is `MapIds` of
      `ObjectRow`. It is a statement about rows, not about the file: the
      resumed run starts a fresh workbook and overwrites the output, and the
      first run's file holds only the rows up to its last checkpoint
      (`LastCheckpoint`). */
  lemma ResumeMatchesFullRun<T>(f: int -> Result<T>, allIds: seq<int>, k: nat)
    requires k <= |allIds|
    requires |OkPrefix(MapIds(f, allIds[..k]))| == k
    ensures OkPrefix(MapIds(f, allIds)) ==
      OkPrefix(MapIds(f, allIds[..k])) + OkPrefix(MapIds(f, ObjectsToScrape(allIds, k)))
  {
    MapIdsSplit(f, allIds, k);
    OkPrefixAppend(MapIds(f, allIds[..k]), MapIds(f, allIds[k..]));
  }

  /** The values of `processed` at which a checkpoint is saved in a run of `n`
      objects. */
  function SavePoints(n: nat, every: int): seq<nat> {
    if n == 0 then []
    else SavePoints(n - 1, every) + (if every != 0 && n % every == 0 then [n] else [])
  }

  /** Checkpoints are taken exactly at the multiples of the interval, in
      increasing order. */
  lemma {:induction false} SavePointsMembers(n: nat, every: int)
    ensures forall k :: k in SavePoints(n, every) <==> 1 <= k <= n && every != 0 && k % every == 0
    ensures forall i, j :: 0 <= i < j < |SavePoints(n, every)| ==> SavePoints(n, every)[i] < SavePoints(n, every)[j]
  {
    if n > 0 {
      SavePointsMembers(n - 1, every);
      var prev := SavePoints(n - 1, every);
      forall i | 0 <= i < |prev|
        ensures prev[i] < n
      {
        assert prev[i] in prev;
      }
    }
  }

  /** With a positive interval, a run of `n` objects has a checkpoint exactly
      when `n` reaches the interval, and the last one is the largest multiple
      of the interval not above `n`: a run that stops early loses at most the
      rows after it. */
  lemma LastCheckpoint(n: nat, every: int)
    requires every > 0
    ensures SavePoints(n, every) == [] <==> n < every
    ensures SavePoints(n, every) != [] ==>
      var last := Last(SavePoints(n, every));
      && 1 <= last <= n && last % every == 0
      && forall k :: last < k <= n ==> k % every != 0
  {
    SavePointsMembers(n, every);
    var sp := SavePoints(n, every);
    assert forall k :: 0 < k < every ==> k % every == k;
    if n >= every {
      assert every % every == 0;
      assert every in sp;
    }
    if sp != [] {
      assert sp[0] in sp;
      assert Last(sp) in sp;
      IncreasingLastIsMax(sp);
    }
  }

  /** The last element of a strictly increasing sequence is its largest. */
  lemma IncreasingLastIsMax(xs: seq<nat>)
    requires xs != []
    requires forall i, j :: 0 <= i < j < |xs| ==> xs[i] < xs[j]
    ensures forall x :: x in xs ==> x <= Last(xs)
  {
    forall x | x in xs
      ensures x <= Last(xs)
    {
      var i :| 0 <= i < |xs| && xs[i] == x;
      if i < |xs| - 1 {
        assert xs[i] < xs[|xs| - 1];
      }
    }
  }

  /** The sheet's row count at each checkpoint of a run of `n` objects: the
      header plus the objects processed so far. */
  function CheckpointRowCounts(n: nat, every: int): seq<nat> {
    if n == 0 then []
    else CheckpointRowCounts(n - 1, every) + (if every != 0 && n % every == 0 then [n + 1] else [])
  }

  /** Each checkpoint's row count is its `processed` value plus the header. */
  lemma {:induction false} CheckpointRowCountsAtSavePoints(n: nat, every: int)
    ensures |CheckpointRowCounts(n, every)| == |SavePoints(n, every)|
    ensures forall k :: 0 <= k < |SavePoints(n, every)| ==>
      CheckpointRowCounts(n, every)[k] == SavePoints(n, every)[k] + 1
  {
    if n > 0 {
      CheckpointRowCountsAtSavePoints(n - 1, every);
    }
  }

  /** How a batch over `ids` ends, given what processing each ID gives: with
      an interval of 0 the first appended row raises; otherwise the first
      failing object ends it; else it completes. */
  function RunOutcome(ids: seq<int>, results: seq<Result<seq<Value>>>, saveEvery: int): Outcome
    requires |results| == |ids|
  {
    var n := |OkPrefix(results)|;
    OkPrefixStopsAtFirstError(results);
    if saveEvery == 0 && n >= 1 then ZeroSaveInterval
    else if n < |ids| then ObjectFailed(ids[n], results[n].error)
    else Completed
  }

  /** Number of objects appended to the sheet before the batch ends. */
  function RowsWritten(results: seq<Result<seq<Value>>>, saveEvery: int): nat {
    var n := |OkPrefix(results)|;
    if saveEvery == 0 && n >= 1 then 1 else n
  }

  /** When every object succeeds and the interval is positive, the batch
      completes with one row per ID, in the order of the IDs. An empty batch
      (an offset at or past the end of the search result) completes with no
      rows, whatever the interval. */
  lemma {:induction false} AllSucceedWritesEveryRow(ids: seq<int>, results: seq<Result<seq<Value>>>, saveEvery: int)
    requires |results| == |ids|
    requires saveEvery != 0 || ids == []
    requires forall k :: 0 <= k < |results| ==> results[k].Ok?
    ensures RunOutcome(ids, results, saveEvery) == Completed
    ensures RowsWritten(results, saveEvery) == |ids|
    ensures |OkPrefix(results)| == |ids|
    ensures forall k :: 0 <= k < |ids| ==> OkPrefix(results)[k] == results[k].value
  {
    OkPrefixStopsAtFirstError(results);
  }

  /** The state a batch over `ids` leaves the sheet in, given what processing
      each ID gives and the rows the sheet held before: the rows of the leading
      successes are appended (just one with an interval of 0), the outcome is
      `RunOutcome`, and the saves are the checkpoints plus the final save
      exactly when the batch completed. */
  predicate BatchEnded(before: seq<seq<Value>>, rows: seq<seq<Value>>, saves: seq<nat>, outcome: Outcome,
                       ids: seq<int>, results: seq<Result<seq<Value>>>, saveEvery: int)
  {
    var done := RowsWritten(results, saveEvery);
    && |results| == |ids|
    && outcome == RunOutcome(ids, results, saveEvery)
    && rows == before + OkPrefix(results)[..done]
    && saves == CheckpointRowCounts(done, saveEvery) + (if outcome.Completed? then [1 + done] else [])
  }

  /** Past `i` leading successes, the next result is either the next success,
      whose value `OkPrefix` holds at `i`, or the failure that ends it. */
  lemma OkPrefixAt<T>(results: seq<Result<T>>, i: nat)
    requires i < |results| && i <= |OkPrefix(results)|
    ensures results[i].Ok? <==> i < |OkPrefix(results)|
    ensures results[i].Ok? ==> OkPrefix(results)[i] == results[i].value
  {
    OkPrefixStopsAtFirstError(results);
  }

  /** A batch that stops at the failing object `i`, after the `i` leading
      successes were appended and checkpointed, ended as BatchEnded says. */
  lemma EndedByFailure(before: seq<seq<Value>>, ids: seq<int>, results: seq<Result<seq<Value>>>,
                       saveEvery: int, i: nat)
    requires |results| == |ids| && i < |ids| && results[i].Err?
    requires i <= |OkPrefix(results)| && (saveEvery != 0 || i == 0)
    ensures BatchEnded(before, before + OkPrefix(results)[..i], CheckpointRowCounts(i, saveEvery),
                       ObjectFailed(ids[i], results[i].error), ids, results, saveEvery)
  {
    OkPrefixStopsAtFirstError(results);
  }

  /** A batch whose interval is 0 stops after appending the first row and saves
      nothing. */
  lemma EndedByZeroInterval(before: seq<seq<Value>>, ids: seq<int>, results: seq<Result<seq<Value>>>)
    requires |results| == |ids| && 1 <= |OkPrefix(results)|
    ensures BatchEnded(before, before + OkPrefix(results)[..1], [], ZeroSaveInterval, ids, results, 0)
  {
  }

  /** A batch whose every object succeeded ends with all rows and the final save. */
  lemma EndedCompleted(before: seq<seq<Value>>, ids: seq<int>, results: seq<Result<seq<Value>>>, saveEvery: int)
    requires |results| == |ids| && |OkPrefix(results)| == |ids| && (saveEvery != 0 || ids == [])
    ensures BatchEnded(before, before + OkPrefix(results),
                       CheckpointRowCounts(|ids|, saveEvery) + [1 + |ids|], Completed, ids, results, saveEvery)
  {
    assert OkPrefix(results)[..|ids|] == OkPrefix(results);
  }

  /** The periodic save after an object's row is appended: the file is written
      when `processed` is a multiple of the interval. An interval of 0 raises
      `ZeroDivisionError`, reported as `false`, and nothing is saved. */
  method PeriodicSave(wb: Workbook, processed: nat, saveEvery: int) returns (ok: bool)
    requires wb.Valid()
    modifies wb
    ensures wb.Valid() && ok == (saveEvery != 0)
    ensures wb.title == old(wb.title) && wb.rows == old(wb.rows)
    ensures wb.saves == old(wb.saves) + (if ok && processed % saveEvery == 0 then [|wb.rows|] else [])
  {
    if saveEvery == 0 {
      return false;
    }
    if processed % saveEvery == 0 {
      wb.Save();
    }
    return true;
  }

  /** The rest of one pass of the loop body of :407-545, once the `i`-th object
      was processed into `r`: append its row, count it and take the periodic
      save. `stop` is the outcome when the pass ends the batch, by a failing
      object or by an interval of 0. */
  method RecordResult(wb: Workbook, objectIds: seq<int>, i: nat, r: Result<seq<Value>>, saveEvery: int,
                      ghost before: seq<seq<Value>>, ghost results: seq<Result<seq<Value>>>)
    returns (stop: Option<Outcome>)
    requires |results| == |objectIds| && i < |objectIds| && r == results[i]
    requires i <= |OkPrefix(results)| && (saveEvery != 0 || i == 0)
    requires wb.Valid() && |before| == 1 && wb.rows == before + OkPrefix(results)[..i]
    requires wb.saves == CheckpointRowCounts(i, saveEvery)
    modifies wb
    ensures wb.Valid() && wb.title == old(wb.title)
    ensures stop.None? ==>
      && i < |OkPrefix(results)| && saveEvery != 0
      && wb.rows == before + OkPrefix(results)[..i + 1]
      && wb.saves == CheckpointRowCounts(i + 1, saveEvery)
    ensures stop.Some? ==> BatchEnded(before, wb.rows, wb.saves, stop.value, objectIds, results, saveEvery)
  {
    OkPrefixAt(results, i);
    if r.Err? {
      EndedByFailure(before, objectIds, results, saveEvery, i);
      return Some(ObjectFailed(objectIds[i], r.error));
    }
    assert OkPrefix(results)[..i + 1] == OkPrefix(results)[..i] + [r.value];
    wb.Append(r.value);
    var processed := i + 1;
    var saved := PeriodicSave(wb, processed, saveEvery);
    if !saved {
      EndedByZeroInterval(before, objectIds, results);
      return Some(ZeroSaveInterval);
    }
    stop := None;
  }

  /** The loop of :407-545 over the objects to scrape, then the final save when
      it was not ended by an exception. `results` names what processing each
      object gives. */
  method RunBatch(wb: Workbook, objectIds: seq<int>, saveEvery: int, world: World, root: string,
                  ghost results: seq<Result<seq<Value>>>)
    returns (outcome: Outcome)
    requires wb.Valid() && |wb.rows| == 1 && wb.saves == []
    requires ResultsOf(world, root, objectIds, results)
    modifies wb
    ensures wb.Valid() && wb.title == old(wb.title)
    ensures BatchEnded(old(wb.rows), wb.rows, wb.saves, outcome, objectIds, results, saveEvery)
  {
    ghost var before := wb.rows;
    for i := 0 to |objectIds|
      invariant i <= |OkPrefix(results)| && (saveEvery != 0 || i == 0)
      invariant wb.Valid() && wb.title == old(wb.title)
      invariant wb.rows == before + OkPrefix(results)[..i]
      invariant wb.saves == CheckpointRowCounts(i, saveEvery)
    {
      var r := Step(world, root, objectIds, i, results);
      var stop := RecordResult(wb, objectIds, i, r, saveEvery, before, results);
      if stop.Some? {
        return stop.value;
      }
    }
    OkPrefixStopsAtFirstError(results);
    EndedCompleted(before, objectIds, results, saveEvery);
    wb.Save();
    outcome := Completed;
  }

  /** `full_scrape(output_xlsx, save_every, limit, start_offset)`. The returned
      workbook's `file` is what this run last wrote to `output_xlsx`, whether
      the run ends normally or by an exception: the header and the rows up to
      the last save. It is `None` when this run saved nothing, and then
      `output_xlsx` is left as it was before the run. */
  method FullScrape(search: SearchResponse, limit: Option<int>, startOffset: int, saveEvery: int,
                    world: World, root: string)
    returns (wb: Workbook, outcome: Outcome, ghost results: seq<Result<seq<Value>>>)
    ensures fresh(wb) && wb.Valid()
    ensures wb.file == (if wb.saves == [] then None else Some(wb.rows[..Last(wb.saves)]))
    ensures search.SearchError? ==> outcome == SearchFailed && wb.rows == [] && wb.file == None
    ensures search.SearchOk? ==>
      var ids := ObjectsToScrape(SearchIds(search.objectIDs, limit), startOffset);
      && wb.title == SheetTitle
      && ResultsOf(world, root, ids, results)
      && BatchEnded([StrValues(Headers())], wb.rows, wb.saves, outcome, ids, results, saveEvery)
  {
    wb := new Workbook(SheetTitle);
    results := [];
    if search.SearchError? {
      return wb, SearchFailed, results;
    }
    var allIds := SearchIds(search.objectIDs, limit);
    var offset := startOffset;
    if offset < 0 {
      offset := 0;
    }
    if offset > |allIds| {
      offset := |allIds|;
    }
    var objectIds := allIds[offset..];
    assert objectIds == ObjectsToScrape(allIds, startOffset);
    wb.WriteHeaders();
    // The per-object results are named through ResultsOf rather than written as
    // ObjectResults(...): that term would unfold the whole per-object pipeline
    // into this method's proof; ObjectResultsOf says the two are the same.
    ResultsExist(world, root, objectIds);
    results :| ResultsOf(world, root, objectIds, results);
    outcome := RunBatch(wb, objectIds, saveEvery, world, root, results);
  }
}
