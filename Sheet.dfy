/** The spreadsheet side of the scraper: the header row of `write_headers`
    (met_swords_full_scrape_sanitized.py:327-360), the row assembled for one
    object (:505-527) and the workbook that rows are appended to and that is
    saved to the output file. */
module Sheet {
  import opened Text
  import opened Values
  import opened Excel
  import opened Reconcile

  /** `f"additionalImage_{i+1}_{suffix}"` for the eight additional slots. */
  function AdditionalHeaders(suffix: string): (h: seq<string>)
    ensures |h| == MaxAdditionalImages
  {
    seq(MaxAdditionalImages, i requires 0 <= i < MaxAdditionalImages =>
      "additionalImage_" + NatToString(i + 1) + "_" + suffix)
  }

  /** The header row. */
  function Headers(): seq<string> {
    ["primaryImageThumbnail"]
    + seq(|NonImageFields|, j requires 0 <= j < |NonImageFields| => ColumnName(NonImageFields[j]))
    + ["primaryImageURL", "primaryImageLocalPath"]
    + AdditionalHeaders("URL")
    + AdditionalHeaders("LocalPath")
  }

  /** The eight URL headers, and likewise the eight path headers, are pairwise
      different. */
  lemma AdditionalHeadersDistinct(suffix: string, i: nat, j: nat)
    requires i < j < MaxAdditionalImages
    ensures AdditionalHeaders(suffix)[i] != AdditionalHeaders(suffix)[j]
  {
    var p := "additionalImage_";
    assert NatToString(i + 1) == [DigitChar(i + 1)] && NatToString(j + 1) == [DigitChar(j + 1)];
    assert AdditionalHeaders(suffix)[i][|p|] == DigitChar(i + 1);
    assert AdditionalHeaders(suffix)[j][|p|] == DigitChar(j + 1);
  }

  /** The `record` dict once all of its entries are set. */
  datatype Record = Record(
    fields: map<Column, Value>,
    primaryImage: Value,
    additionalImages: seq<Value>,
    primaryLocalPath: string,
    additionalLocalPaths: seq<string>)

  /** `record.get(field, "")`. */
  function FieldOr(rec: Record, c: Column): Value {
    if c in rec.fields then rec.fields[c] else Str("")
  }

  /** `xs[i] if i < len(xs) else ""` for the eight slots. */
  function Padded(xs: seq<Value>): (r: seq<Value>)
    ensures |r| == MaxAdditionalImages
  {
    seq(MaxAdditionalImages, i requires 0 <= i < MaxAdditionalImages =>
      if i < |xs| then xs[i] else Str(""))
  }

  /** The row before cleaning. */
  function RawRow(rec: Record): seq<Value> {
    [Str("")]
    + seq(|NonImageFields|, j requires 0 <= j < |NonImageFields| => FieldOr(rec, NonImageFields[j]))
    + [rec.primaryImage, Str(rec.primaryLocalPath)]
    + Padded(rec.additionalImages)
    + Padded(StrValues(rec.additionalLocalPaths))
  }

  /** The row that is appended to the sheet: every cell cleaned for Excel. */
  function RowOf(rec: Record): seq<Value> {
    var raw := RawRow(rec);
    seq(|raw|, i requires 0 <= i < |raw| => CleanForExcel(raw[i]))
  }

  /** Column positions of the row. */
  const FirstFieldColumn: nat := 1
  const PrimaryUrlColumn: nat := 25
  const PrimaryPathColumn: nat := 26
  const FirstUrlColumn: nat := 27
  const FirstPathColumn: nat := 35
  const RowWidth: nat := 43

  lemma RawRowLayout(rec: Record)
    ensures var raw := RawRow(rec);
      && |raw| == RowWidth
      && raw[0] == Str("")
      && (forall j :: 0 <= j < |NonImageFields| ==> raw[FirstFieldColumn + j] == FieldOr(rec, NonImageFields[j]))
      && raw[PrimaryUrlColumn] == rec.primaryImage
      && raw[PrimaryPathColumn] == Str(rec.primaryLocalPath)
      && (forall i :: 0 <= i < MaxAdditionalImages ==>
            raw[FirstUrlColumn + i] == (if i < |rec.additionalImages| then rec.additionalImages[i] else Str("")))
      && (forall i :: 0 <= i < MaxAdditionalImages ==>
            raw[FirstPathColumn + i] ==
              (if i < |rec.additionalLocalPaths| then Str(rec.additionalLocalPaths[i]) else Str("")))
  {
  }

  /** Each cell of a row sits under the header that names it: the thumbnail
      placeholder, the 24 catalogue columns, the primary URL and path, then the
      eight additional URLs and the eight additional paths, "" in unused slots;
      every cell is the cleaned value of the record entry. */
  lemma RowMatchesHeaders(rec: Record)
    ensures var row := RowOf(rec); var h := Headers();
      && |row| == |h| == RowWidth
      && h[0] == "primaryImageThumbnail" && row[0] == Str("")
      && (forall j :: 0 <= j < |NonImageFields| ==>
            h[FirstFieldColumn + j] == ColumnName(NonImageFields[j])
            && row[FirstFieldColumn + j] == CleanForExcel(FieldOr(rec, NonImageFields[j])))
      && h[PrimaryUrlColumn] == "primaryImageURL" && row[PrimaryUrlColumn] == CleanForExcel(rec.primaryImage)
      && h[PrimaryPathColumn] == "primaryImageLocalPath"
      && row[PrimaryPathColumn] == Str(CleanText(rec.primaryLocalPath))
      && (forall i :: 0 <= i < MaxAdditionalImages ==>
            h[FirstUrlColumn + i] == "additionalImage_" + NatToString(i + 1) + "_URL"
            && row[FirstUrlColumn + i] ==
                 (if i < |rec.additionalImages| then CleanForExcel(rec.additionalImages[i]) else Str("")))
      && (forall i :: 0 <= i < MaxAdditionalImages ==>
            h[FirstPathColumn + i] == "additionalImage_" + NatToString(i + 1) + "_LocalPath"
            && row[FirstPathColumn + i] ==
                 (if i < |rec.additionalLocalPaths| then Str(CleanText(rec.additionalLocalPaths[i])) else Str("")))
  {
    RawRowLayout(rec);
    var h := Headers();
    assert forall i :: 0 <= i < MaxAdditionalImages ==> h[FirstUrlColumn + i] == AdditionalHeaders("URL")[i];
    assert forall i :: 0 <= i < MaxAdditionalImages ==> h[FirstPathColumn + i] == AdditionalHeaders("LocalPath")[i];
  }

  /** No string cell of a row holds a character Excel refuses, and every other
      cell is the record's value unchanged. */
  lemma RowCellsLegal(rec: Record)
    ensures forall i :: 0 <= i < |RowOf(rec)| ==>
      (RowOf(rec)[i].Str? ==> IsLegalText(RowOf(rec)[i].s))
      && (!RawRow(rec)[i].Str? ==> RowOf(rec)[i] == RawRow(rec)[i])
  {
  }

  /** Building the row as the source does: the placeholder, the catalogue
      columns, the primary image, the two padded groups, then the cleaning
      pass. */
  method BuildRow(rec: Record) returns (row: seq<Value>)
    ensures row == RowOf(rec)
  {
    ghost var target := RawRow(rec);
    RawRowLayout(rec);
    var raw: seq<Value> := [Str("")];
    for j := 0 to |NonImageFields|
      invariant raw == target[..FirstFieldColumn + j]
    {
      var c := NonImageFields[j];
      var v := if c in rec.fields then rec.fields[c] else Str("");
      raw := raw + [v];
    }
    raw := raw + [rec.primaryImage, Str(rec.primaryLocalPath)];
    assert raw == target[..FirstUrlColumn];
    for i := 0 to MaxAdditionalImages
      invariant raw == target[..FirstUrlColumn + i]
    {
      raw := raw + [if i < |rec.additionalImages| then rec.additionalImages[i] else Str("")];
    }
    for i := 0 to MaxAdditionalImages
      invariant raw == target[..FirstPathColumn + i]
    {
      raw := raw + [if i < |rec.additionalLocalPaths| then Str(rec.additionalLocalPaths[i]) else Str("")];
    }
    assert raw == target;
    row := [];
    for i := 0 to |raw|
      invariant |row| == i
      invariant forall k :: 0 <= k < i ==> row[k] == CleanForExcel(raw[k])
    {
      row := row + [CleanForExcel(raw[i])];
    }
  }

  function Last(xs: seq<nat>): nat
    requires xs != []
  {
    xs[|xs| - 1]
  }

  /** The workbook's single sheet and the output file. `file` is what the last
      save wrote (None before the first save); `saves` records how many rows
      the sheet held at each save. */
  class Workbook {
    var title: string
    var rows: seq<seq<Value>>
    var file: Option<seq<seq<Value>>>
    var saves: seq<nat>

    /** The file holds exactly the rows the sheet had at the last save. */
    predicate Valid()
      reads this
    {
      && (file.None? <==> saves == [])
      && (file.Some? ==> Last(saves) <= |rows| && file.value == rows[..Last(saves)])
    }

    /** `Workbook()` with its active sheet renamed. */
    constructor (sheetTitle: string)
      ensures Valid()
      ensures title == sheetTitle && rows == [] && file == None && saves == []
    {
      title := sheetTitle;
      rows := [];
      file := None;
      saves := [];
    }

    /** `ws.append(row)`. */
    method Append(row: seq<Value>)
      requires Valid()
      modifies this
      ensures Valid()
      ensures rows == old(rows) + [row]
      ensures title == old(title) && file == old(file) && saves == old(saves)
    {
      rows := rows + [row];
    }

    /** `wb.save(path)`: the file now holds the whole sheet. */
    method Save()
      requires Valid()
      modifies this
      ensures Valid()
      ensures file == Some(rows) && saves == old(saves) + [|rows|]
      ensures title == old(title) && rows == old(rows)
    {
      file := Some(rows);
      saves := saves + [|rows|];
    }

    /** The header part of `write_headers`: the header row is appended. */
    method WriteHeaders()
      requires Valid()
      modifies this
      ensures Valid()
      ensures rows == old(rows) + [StrValues(Headers())]
      ensures title == old(title) && file == old(file) && saves == old(saves)
    {
      Append(StrValues(Headers()));
    }
  }
}
