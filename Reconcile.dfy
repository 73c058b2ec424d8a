/** Field reconciliation inside `full_scrape` (met_swords_full_scrape_sanitized.py:429-473):
    which URL the long description is fetched from, which image URLs the record
    keeps, and where each output field comes from. */
module Reconcile {
  import opened Values
  import opened Panels

  const MaxAdditionalImages: nat := 8

  /** The catalogue columns (`NON_IMAGE_FIELDS`). */
  datatype Column =
    | ObjectID | ObjectName | Title | ObjectBeginDate | ObjectEndDate | ObjectDate
    | Culture | Period | Dynasty | Reign | ArtistDisplayName | ArtistDisplayBio
    | Medium | Dimensions | Classification | Department | CreditLine | Repository
    | ObjectURL | LongDesc | ArtworkOverviewText
    | SignaturesInscriptionsMarkingsText | ProvenanceText | ReferencesText

  /** The catalogue columns in output order. */
  const NonImageFields: seq<Column> := [
    ObjectID, ObjectName, Title, ObjectBeginDate, ObjectEndDate, ObjectDate,
    Culture, Period, Dynasty, Reign, ArtistDisplayName, ArtistDisplayBio,
    Medium, Dimensions, Classification, Department, CreditLine, Repository,
    ObjectURL, LongDesc, ArtworkOverviewText,
    SignaturesInscriptionsMarkingsText, ProvenanceText, ReferencesText
  ]

  /** The column's key in the API record and its header in the sheet. */
  function ColumnName(c: Column): string {
    match c
    case ObjectID => "objectID"
    case ObjectName => "objectName"
    case Title => "title"
    case ObjectBeginDate => "objectBeginDate"
    case ObjectEndDate => "objectEndDate"
    case ObjectDate => "objectDate"
    case Culture => "culture"
    case Period => "period"
    case Dynasty => "dynasty"
    case Reign => "reign"
    case ArtistDisplayName => "artistDisplayName"
    case ArtistDisplayBio => "artistDisplayBio"
    case Medium => "medium"
    case Dimensions => "dimensions"
    case Classification => "classification"
    case Department => "department"
    case CreditLine => "creditLine"
    case Repository => "repository"
    case ObjectURL => "objectURL"
    case LongDesc => "longDescription"
    case ArtworkOverviewText => "artworkOverviewText"
    case SignaturesInscriptionsMarkingsText => "signaturesInscriptionsMarkingsText"
    case ProvenanceText => "provenanceText"
    case ReferencesText => "referencesText"
  }

  /** The four columns filled from the page's tab panels. */
  predicate IsPanelColumn(c: Column) {
    c.ArtworkOverviewText? || c.SignaturesInscriptionsMarkingsText? || c.ProvenanceText? || c.ReferencesText?
  }

  /** Columns copied from the API record as they are. */
  predicate IsApiColumn(c: Column) {
    !IsPanelColumn(c) && !c.ObjectID? && !c.Title? && !c.ObjectURL? && !c.LongDesc?
  }

  /** `object_url_html`: the API's `objectURL` when the record is non-empty and
      that value is truthy, else the page URL that was scraped. */
  function HtmlUrl(api: ApiRecord, tab: PageData): Value {
    if api != map[] && Truthy(Get(api, "objectURL", Null)) then api["objectURL"]
    else Str(tab.pageUrl)
  }

  /** `list(v)` for a value that is not already a list: a string becomes its
      characters; None and integers are not iterable. */
  function AsList(v: Value): Result<seq<Value>> {
    match v
    case List(xs) => Ok(xs)
    case Str(s) => Ok(seq(|s|, i requires 0 <= i < |s| => Str([s[i]])))
    case _ => Err(NotIterable)
  }

  /** `api_additional` after the list conversion of :441-444. */
  function ApiAdditional(api: ApiRecord): Result<seq<Value>> {
    if api == map[] then Ok([]) else AsList(Get(api, "additionalImages", Null))
  }

  /** `api_primary`. */
  function ApiPrimary(api: ApiRecord): Value {
    if api != map[] then Get(api, "primaryImage", Str("")) else Str("")
  }

  function StrValues(urls: seq<string>): (r: seq<Value>)
    ensures |r| == |urls|
    ensures forall i :: 0 <= i < |r| ==> r[i] == Str(urls[i])
  {
    seq(|urls|, i requires 0 <= i < |urls| => Str(urls[i]))
  }

  datatype ImageUrls = ImageUrls(primary: Value, additional: seq<Value>)

  /** The candidates for the additional images before the cap: the API list if
      it is non-empty, else the page images after the first. */
  function AdditionalPool(apiAdditional: seq<Value>, pageImages: seq<string>): seq<Value> {
    if apiAdditional != [] then apiAdditional
    else if pageImages == [] then []
    else StrValues(pageImages[1..])
  }

  /** `primary_image` and `additional_images` (:440-450). */
  function ImageUrlsOf(api: ApiRecord, pageImages: seq<string>): Result<ImageUrls> {
    var apiPrimary := ApiPrimary(api);
    var apiAdditional :- ApiAdditional(api);
    var primary := if Truthy(apiPrimary) then apiPrimary
                   else if pageImages != [] then Str(pageImages[0]) else Str("");
    var pool := AdditionalPool(apiAdditional, pageImages);
    Ok(ImageUrls(primary, if |pool| <= MaxAdditionalImages then pool else pool[..MaxAdditionalImages]))
  }

  /** Image reconciliation fails exactly when the API record is non-empty and its
      `additionalImages` is missing, None or an integer: `list()` raises. */
  lemma ImageUrlsFailure(api: ApiRecord, pageImages: seq<string>)
    ensures ImageUrlsOf(api, pageImages).Err? <==>
      api != map[] && (Get(api, "additionalImages", Null).Null? || Get(api, "additionalImages", Null).Int?)
    ensures ImageUrlsOf(api, pageImages).Err? ==> ImageUrlsOf(api, pageImages).error == NotIterable
  {
  }

  /** The primary image is the API's when truthy, else the first page image,
      else ""; the additional images are the first (at most) 8 of the API list
      when it is non-empty, else of the page images after the first. */
  lemma ImageUrlsPrecedence(api: ApiRecord, pageImages: seq<string>)
    requires ImageUrlsOf(api, pageImages).Ok?
    ensures var urls := ImageUrlsOf(api, pageImages).value;
      && (Truthy(ApiPrimary(api)) ==> urls.primary == ApiPrimary(api))
      && (!Truthy(ApiPrimary(api)) && pageImages != [] ==> urls.primary == Str(pageImages[0]))
      && (!Truthy(ApiPrimary(api)) && pageImages == [] ==> urls.primary == Str(""))
      && var pool := AdditionalPool(ApiAdditional(api).value, pageImages);
         && |urls.additional| <= MaxAdditionalImages
         && |urls.additional| == (if |pool| < MaxAdditionalImages then |pool| else MaxAdditionalImages)
         && urls.additional == pool[..|urls.additional|]
  {
  }

  /** When both the primary and the additional images come from the page, and
      the page's image list has no repeats (the browser deduplicates it), the
      primary image is not among the additional ones. */
  lemma PagePrimaryNotRepeated(api: ApiRecord, pageImages: seq<string>)
    requires forall i, j :: 0 <= i < j < |pageImages| ==> pageImages[i] != pageImages[j]
    requires ApiAdditional(api) == Ok([])
    requires !Truthy(ApiPrimary(api)) && pageImages != []
    ensures ImageUrlsOf(api, pageImages).Ok?
    ensures ImageUrlsOf(api, pageImages).value.primary !in ImageUrlsOf(api, pageImages).value.additional
  {
    var urls := ImageUrlsOf(api, pageImages).value;
    var pool := StrValues(pageImages[1..]);
    forall k | 0 <= k < |urls.additional|
      ensures urls.additional[k] != Str(pageImages[0])
    {
      assert urls.additional[k] == pool[k] == Str(pageImages[k + 1]);
    }
  }

  /** Twenty page images and an empty API record leave exactly eight
      additional images. */
  lemma TwentyPageImagesCapped(pageImages: seq<string>)
    requires |pageImages| == 20
    ensures ImageUrlsOf(map[], pageImages).Ok?
    ensures |ImageUrlsOf(map[], pageImages).value.additional| == MaxAdditionalImages
  {
  }

  /** `tab_data.get(field, "")` for one of the four panel columns. */
  function PanelText(tab: PageData, c: Column): string
    requires IsPanelColumn(c)
  {
    match c
    case ArtworkOverviewText => tab.overviewText
    case SignaturesInscriptionsMarkingsText => tab.signaturesText
    case ProvenanceText => tab.provenanceText
    case ReferencesText => tab.referencesText
  }

  /** The value stored for one catalogue column (:456-473). */
  function FieldValue(c: Column, objectId: int, api: ApiRecord, tab: PageData, longDesc: string): Value {
    match c
    case ObjectID => Get(api, "objectID", Int(objectId))
    case Title =>
      var t := Get(api, "title", Str("")); if Truthy(t) then t else Str(tab.pageTitle)
    case ObjectURL =>
      var u := Get(api, "objectURL", Str("")); if Truthy(u) then u else HtmlUrl(api, tab)
    case LongDesc => Str(longDesc)
    case _ =>
      if IsPanelColumn(c) then Str(PanelText(tab, c))
      else if api != map[] then Get(api, ColumnName(c), Str(""))
      else Str("")
  }

  /** The non-image part of `record`: one entry per catalogue column. */
  function FieldsOf(objectId: int, api: ApiRecord, tab: PageData, longDesc: string): (m: map<Column, Value>)
    ensures forall c :: c in m <==> c in NonImageFields
  {
    map c | c in NonImageFields :: FieldValue(c, objectId, api, tab, longDesc)
  }

  /** The loop of :456-473 filling the catalogue columns of `record`. */
  method BuildFields(objectId: int, api: ApiRecord, tab: PageData, longDesc: string)
    returns (fields: map<Column, Value>)
    ensures fields == FieldsOf(objectId, api, tab, longDesc)
  {
    fields := map[];
    for j := 0 to |NonImageFields|
      invariant forall c :: c in fields <==> c in NonImageFields[..j]
      invariant forall c :: c in fields ==> fields[c] == FieldValue(c, objectId, api, tab, longDesc)
    {
      var c := NonImageFields[j];
      fields := fields[c := FieldValue(c, objectId, api, tab, longDesc)];
    }
    assert NonImageFields[..|NonImageFields|] == NonImageFields;
  }

  /** Every column is a catalogue column. */
  lemma AllColumnsListed(c: Column)
    ensures c in NonImageFields
  {
  }

  /** The `objectURL` column always holds the URL the long description was
      fetched from. */
  lemma ObjectUrlIsFetchUrl(objectId: int, api: ApiRecord, tab: PageData, longDesc: string)
    ensures FieldsOf(objectId, api, tab, longDesc)[ObjectURL] == HtmlUrl(api, tab)
  {
    var u := Get(api, "objectURL", Str(""));
    if Truthy(u) {
      assert api != map[] && Get(api, "objectURL", Null) == u;
    }
  }

  /** The four panel columns hold the page's cleaned panel texts and the long
      description column the fetched description, whatever the API says. */
  lemma PageFieldsFromPage(objectId: int, api: ApiRecord, tab: PageData, longDesc: string)
    ensures var m := FieldsOf(objectId, api, tab, longDesc);
      && m[LongDesc] == Str(longDesc)
      && m[ArtworkOverviewText] == Str(tab.overviewText)
      && m[SignaturesInscriptionsMarkingsText] == Str(tab.signaturesText)
      && m[ProvenanceText] == Str(tab.provenanceText)
      && m[ReferencesText] == Str(tab.referencesText)
  {
  }

  /** With an empty API record (a failed fetch) the row still gets the search ID,
      the page title and the page URL, and every API column is "". */
  lemma EmptyApiDefaults(objectId: int, tab: PageData, longDesc: string)
    ensures var m := FieldsOf(objectId, map[], tab, longDesc);
      && m[ObjectID] == Int(objectId)
      && m[Title] == Str(tab.pageTitle)
      && m[ObjectURL] == Str(tab.pageUrl)
      && (forall c :: IsApiColumn(c) ==> m[c] == Str(""))
  {
    forall c | IsApiColumn(c) { AllColumnsListed(c); }
  }

  /** For a non-empty API record: `objectID` is the API's when present, else the
      search ID; the title is the API's when truthy, else the page's; every API
      column is the API's value under the column's name, "" when absent. */
  lemma ApiFieldsPrecedence(objectId: int, api: ApiRecord, tab: PageData, longDesc: string)
    requires api != map[]
    ensures var m := FieldsOf(objectId, api, tab, longDesc);
      && ("objectID" in api ==> m[ObjectID] == api["objectID"])
      && ("objectID" !in api ==> m[ObjectID] == Int(objectId))
      && ("title" in api && Truthy(api["title"]) ==> m[Title] == api["title"])
      && (("title" !in api || !Truthy(api["title"])) ==> m[Title] == Str(tab.pageTitle))
      && (forall c :: IsApiColumn(c) ==>
            m[c] == (if ColumnName(c) in api then api[ColumnName(c)] else Str("")))
  {
    forall c | IsApiColumn(c) { AllColumnsListed(c); }
  }
}
