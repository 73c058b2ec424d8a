/** The tab panels of an object's page: `clean_panel_text`
    (met_swords_full_scrape_sanitized.py:187-195) and the tab loop and duplicate
    removal of `scrape_tabs_for_object` (:222-279). The browser is abstracted to
    what it reports: the page title, the discovered image URLs and, per tab
    label, the raw section text shown after clicking it. */
module Panels {
  import opened Text

  const TabNames: seq<string> := [
    "Overview",
    "Signatures, Inscriptions, and Markings",
    "Provenance",
    "References"
  ]

  /** Headings of the details container that never count as content. */
  const FixedLabels: seq<string> := ["Artwork Details", "Object Information"]

  /** A trimmed line survives when it is non-empty and is no label or tab name. */
  predicate KeepLine(l: string) {
    l != "" && l !in FixedLabels && l !in TabNames
  }

  function TrimAll(ls: seq<string>): (r: seq<string>)
    ensures |r| == |ls|
  {
    seq(|ls|, i requires 0 <= i < |ls| => Trim(ls[i]))
  }

  /** The list comprehension that filters the trimmed lines. */
  function KeepLines(ls: seq<string>): (r: seq<string>)
    ensures forall l :: l in r <==> l in ls && KeepLine(l)
    ensures IsSubsequence(r, ls)
    ensures forall l :: KeepLine(l) ==> multiset(r)[l] == multiset(ls)[l]
  {
    if ls == [] then []
    else
      var rest := KeepLines(ls[1..]);
      assert forall l :: l in ls <==> l == ls[0] || l in ls[1..];
      assert ls == [ls[0]] + ls[1..];
      if KeepLine(ls[0]) then
        assert ([ls[0]] + rest)[1..] == rest;
        [ls[0]] + rest
      else
        assert rest != [] ==> rest[0] in rest && rest[0] != ls[0];
        rest
  }

  /** The lines `clean_panel_text` keeps, in their original order. Line breaks
      are `\n` only. */
  function PanelLines(raw: string): (r: seq<string>)
    ensures forall l :: l in r ==> KeepLine(l) && Trim(l) == l && '\n' !in l
    ensures forall l :: l in r <==> l in TrimAll(Split(raw, '\n')) && KeepLine(l)
    ensures IsSubsequence(r, TrimAll(Split(raw, '\n')))
    ensures forall l :: KeepLine(l) ==> multiset(r)[l] == multiset(TrimAll(Split(raw, '\n')))[l]
  {
    var pieces := Split(raw, '\n');
    var trimmed := TrimAll(pieces);
    forall l | l in trimmed
      ensures Trim(l) == l && '\n' !in l
    {
      var i :| 0 <= i < |trimmed| && trimmed[i] == l;
      TrimIdempotent(pieces[i]);
      assert pieces[i] in pieces;
    }
    KeepLines(trimmed)
  }

  /** `clean_panel_text(raw)`. */
  function CleanPanelText(raw: string): string {
    if raw == "" then "" else Trim(Join(PanelLines(raw), "\n"))
  }

  /** A cleaned panel is empty or made of kept, trimmed lines. */
  predicate IsCleanPanel(p: string) {
    p == "" || forall l :: l in Split(p, '\n') ==> KeepLine(l) && Trim(l) == l
  }

  /** Joining kept, trimmed, single-line pieces with line breaks gives a text
      that `strip()` leaves alone and that splits back into the same pieces. */
  lemma JoinedLinesRoundTrip(kept: seq<string>)
    requires |kept| >= 1
    requires forall l :: l in kept ==> l != "" && Trim(l) == l && '\n' !in l
    ensures Join(kept, "\n") != ""
    ensures Trim(Join(kept, "\n")) == Join(kept, "\n")
    ensures Split(Join(kept, "\n"), '\n') == kept
  {
    forall i | 0 <= i < |kept|
      ensures kept[i] != ""
    {
      assert kept[i] in kept;
    }
    var first, last := kept[0], kept[|kept| - 1];
    assert first in kept && last in kept;
    assert !IsSpace(first[0]) && !IsSpace(last[|last| - 1]);
    JoinedLinesTrimmed(kept);
    SplitJoin(kept, '\n');
  }

  /** A join of non-empty pieces whose outer ends are not whitespace is left
      alone by `strip()`. */
  lemma JoinedLinesTrimmed(kept: seq<string>)
    requires |kept| >= 1
    requires forall i :: 0 <= i < |kept| ==> kept[i] != ""
    requires !IsSpace(kept[0][0]) && !IsSpace(kept[|kept| - 1][|kept[|kept| - 1]| - 1])
    ensures Join(kept, "\n") != ""
    ensures Trim(Join(kept, "\n")) == Join(kept, "\n")
  {
    JoinEnds(kept, "\n");
    TrimUnchanged(Join(kept, "\n"));
  }

  /** The final `strip()` of `clean_panel_text` changes nothing, and splitting the
      result at line breaks gives back exactly the kept lines; the result is empty
      exactly when no line survives. */
  lemma CleanPanelTextLines(raw: string)
    ensures CleanPanelText(raw) == "" <==> PanelLines(raw) == []
    ensures CleanPanelText(raw) != "" ==> Split(CleanPanelText(raw), '\n') == PanelLines(raw)
    ensures IsCleanPanel(CleanPanelText(raw))
  {
    var kept := PanelLines(raw);
    if raw == "" {
      assert Split(raw, '\n') == [""];
      assert TrimAll([""]) == [""];
      assert kept == [];
    } else if kept == [] {
      assert Join(kept, "\n") == "";
    } else {
      JoinedLinesRoundTrip(kept);
    }
  }

  /** What the browser reports for an object's page. `NavigationFailed` covers a
      failed `page.goto` and any exception caught around the whole tab scrape:
      both give the same empty placeholder. `tabs` maps a tab label to the raw
      text of the details section after that tab was clicked; a tab is absent
      when the page has no such tab or clicking it failed. */
  datatype PageView =
    | NavigationFailed
    | Rendered(title: string, images: seq<string>, tabs: map<string, string>)

  /** The `tab_data` dict. */
  datatype PageData = PageData(
    pageTitle: string,
    pageImageUrls: seq<string>,
    overviewText: string,
    signaturesText: string,
    provenanceText: string,
    referencesText: string,
    pageUrl: string)

  function ObjectPageUrl(objectId: int): string {
    "https://www.metmuseum.org/art/collection/search/" + IntToString(objectId)
  }

  /** The cleaned text of one tab, or "" when the tab was not clicked. */
  function PanelOf(tabs: map<string, string>, tab: string): string {
    if tab in tabs then CleanPanelText(tabs[tab]) else ""
  }

  /** Duplicate-tab removal: Signatures repeating Overview, or References
      repeating Provenance, is cleared. */
  function Dedup(d: PageData): PageData {
    d.(signaturesText := if d.signaturesText == d.overviewText then "" else d.signaturesText,
       referencesText := if d.referencesText == d.provenanceText then "" else d.referencesText)
  }

  /** The page data `scrape_tabs_for_object` returns. */
  function TabsOf(objectId: int, view: PageView): PageData {
    var url := ObjectPageUrl(objectId);
    match view
    case NavigationFailed => PageData("", [], "", "", "", "", url)
    case Rendered(title, images, tabs) =>
      Dedup(PageData(title, images,
        PanelOf(tabs, TabNames[0]), PanelOf(tabs, TabNames[1]),
        PanelOf(tabs, TabNames[2]), PanelOf(tabs, TabNames[3]), url))
  }

  /** `scrape_tabs_for_object`: one pass over the tab labels filling the four
      texts, then the duplicate removal. */
  method ScrapeTabs(objectId: int, view: PageView) returns (data: PageData)
    ensures data == TabsOf(objectId, view)
  {
    var url := ObjectPageUrl(objectId);
    if view.NavigationFailed? {
      return PageData("", [], "", "", "", "", url);
    }
    var overview, signatures, provenance, references := "", "", "", "";
    for i := 0 to |TabNames|
      invariant overview == if i > 0 then PanelOf(view.tabs, TabNames[0]) else ""
      invariant signatures == if i > 1 then PanelOf(view.tabs, TabNames[1]) else ""
      invariant provenance == if i > 2 then PanelOf(view.tabs, TabNames[2]) else ""
      invariant references == if i > 3 then PanelOf(view.tabs, TabNames[3]) else ""
    {
      var tab := TabNames[i];
      if tab in view.tabs {
        var cleaned := CleanPanelText(view.tabs[tab]);
        if tab == "Overview" {
          overview := cleaned;
        } else if tab == "Signatures, Inscriptions, and Markings" {
          signatures := cleaned;
        } else if tab == "Provenance" {
          provenance := cleaned;
        } else if tab == "References" {
          references := cleaned;
        }
      }
    }
    if signatures == overview {
      signatures := "";
    }
    if references == provenance {
      references := "";
    }
    data := PageData(view.title, view.images, overview, signatures, provenance, references, url);
  }

  /** After duplicate removal: Signatures is cleared exactly when its cleaned
      text equals Overview's and is otherwise the tab's own text; References
      likewise against Provenance; Overview and Provenance are the tabs' own
      cleaned texts; every panel is clean. */
  lemma TabsOfPanels(objectId: int, view: PageView)
    requires view.Rendered?
    ensures var d := TabsOf(objectId, view);
      && (d.signaturesText == "" || d.signaturesText != d.overviewText)
      && (d.referencesText == "" || d.referencesText != d.provenanceText)
      && d.overviewText == PanelOf(view.tabs, "Overview")
      && d.provenanceText == PanelOf(view.tabs, "Provenance")
      && (PanelOf(view.tabs, TabNames[1]) != d.overviewText ==> d.signaturesText == PanelOf(view.tabs, TabNames[1]))
      && (PanelOf(view.tabs, TabNames[1]) == d.overviewText ==> d.signaturesText == "")
      && (PanelOf(view.tabs, "References") != d.provenanceText ==> d.referencesText == PanelOf(view.tabs, "References"))
      && (PanelOf(view.tabs, "References") == d.provenanceText ==> d.referencesText == "")
      && IsCleanPanel(d.overviewText) && IsCleanPanel(d.signaturesText)
      && IsCleanPanel(d.provenanceText) && IsCleanPanel(d.referencesText)
  {
    forall tab | tab in view.tabs
      ensures IsCleanPanel(PanelOf(view.tabs, tab))
    {
      CleanPanelTextLines(view.tabs[tab]);
    }
    assert IsCleanPanel("") by { assert Split("", '\n') == [""]; }
  }
}
