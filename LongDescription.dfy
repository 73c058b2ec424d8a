/** The long-description chain of `fetch_long_description_from_html`
    (met_swords_full_scrape_sanitized.py:102-166), over what the HTML parser
    extracts from the object's detail page. */
module LongDescription {
  import opened Text
  import opened Values

  /** One `span[data-sentry-component="LegacyOrMarkdownParser"]`: its text as
      `get_text(" ", strip=True)` gives it, and whether one of its six nearest
      ancestors carries a class containing `read-more-wrapper`. */
  datatype Span = Span(text: string, underReadMore: bool)

  /** The parsed page: the marked spans in document order, the `content` of the
      `description` and `og:description` meta tags ("" when the tag or the
      attribute is missing), and the text of every `<p>` in document order. */
  datatype HtmlDigest = HtmlDigest(
    spans: seq<Span>,
    metaDescription: string,
    ogDescription: string,
    paragraphs: seq<string>)

  /** Minimum word count, exclusive, for the longest-span fallback. */
  const MinLongSpanWords: nat := 30

  /** Paragraphs joined by the last fallback. */
  const MaxParagraphs: nat := 3

  predicate Preferred(sp: Span) {
    sp.underReadMore && sp.text != ""
  }

  /** The first preferred span's text, or "". */
  function ReadMoreText(spans: seq<Span>): string {
    if spans == [] then ""
    else if Preferred(spans[0]) then spans[0].text
    else ReadMoreText(spans[1..])
  }

  /** `best, best_len` after looking at one more span. */
  function LongestStep(best: (string, nat), sp: Span): (string, nat) {
    var t := sp.text;
    if t != "" then
      var wc := WordCount(t);
      if wc > best.1 && wc > MinLongSpanWords then (t, wc) else best
    else best
  }

  /** `best, best_len` after the fallback loop has seen all of `spans`. */
  function LongestSpan(spans: seq<Span>): (string, nat) {
    if spans == [] then ("", 0)
    else LongestStep(LongestSpan(spans[..|spans| - 1]), spans[|spans| - 1])
  }

  /** `[t for t in texts if t]`. */
  function NonEmptyTexts(ps: seq<string>): (r: seq<string>)
    ensures forall t :: t in r <==> t in ps && t != ""
    ensures IsSubsequence(r, ps)
    ensures forall t :: t != "" ==> multiset(r)[t] == multiset(ps)[t]
  {
    if ps == [] then []
    else
      var rest := NonEmptyTexts(ps[1..]);
      assert ps == [ps[0]] + ps[1..];
      if ps[0] != "" then
        assert ([ps[0]] + rest)[1..] == rest;
        [ps[0]] + rest
      else
        assert rest != [] ==> rest[0] in rest && rest[0] != ps[0];
        rest
  }

  /** The first three non-empty paragraphs, separated by a blank line. */
  function ParagraphsText(ps: seq<string>): string {
    var texts := NonEmptyTexts(ps);
    Join(texts[..if |texts| < MaxParagraphs then |texts| else MaxParagraphs], "\n\n")
  }

  /** The text the chain selects from a parsed page. */
  function LongDescriptionOf(d: HtmlDigest): string {
    var readMore := ReadMoreText(d.spans);
    if readMore != "" then readMore
    else
      var longest := LongestSpan(d.spans).0;
      if longest != "" then longest
      else if d.metaDescription != "" && Trim(d.metaDescription) != "" then Trim(d.metaDescription)
      else if d.ogDescription != "" && Trim(d.ogDescription) != "" then Trim(d.ogDescription)
      else ParagraphsText(d.paragraphs)
  }

  /** `fetch_long_description_from_html(url)`: a falsy URL, a failed request or a
      non-200 answer (`page == None`) gives "". So does a URL that is not a
      string: `requests.get` turns it into text with no scheme and raises, and
      the `except` returns "". */
  function FetchedDescription(url: Value, page: Option<HtmlDigest>): string {
    if !Truthy(url) || !url.Str? then ""
    else match page
      case None => ""
      case Some(d) => LongDescriptionOf(d)
  }

  /** The chain as the source runs it: a search loop for a preferred span, the
      longest-span loop, then the meta, Open Graph and paragraph fallbacks. */
  method SelectLongDescription(d: HtmlDigest) returns (text: string)
    ensures text == LongDescriptionOf(d)
  {
    var spans := d.spans;
    var longText := "";
    var i := 0;
    while i < |spans| && longText == ""
      invariant 0 <= i <= |spans|
      invariant longText == "" ==> ReadMoreText(spans) == ReadMoreText(spans[i..])
      invariant longText != "" ==> longText == ReadMoreText(spans)
    {
      assert spans[i..][1..] == spans[i + 1..];
      if spans[i].underReadMore && spans[i].text != "" {
        longText := spans[i].text;
      }
      i := i + 1;
    }

    if longText == "" {
      var best, bestLen := "", 0;
      for j := 0 to |spans|
        invariant (best, bestLen) == LongestSpan(spans[..j])
      {
        assert spans[..j + 1][..j] == spans[..j];
        var t := spans[j].text;
        if t != "" {
          var wc := WordCount(t);
          if wc > bestLen && wc > MinLongSpanWords {
            best, bestLen := t, wc;
          }
        }
      }
      assert spans[..|spans|] == spans;
      if best != "" {
        longText := best;
      }
    }

    if longText == "" && d.metaDescription != "" {
      longText := Trim(d.metaDescription);
    }
    if longText == "" && d.ogDescription != "" {
      longText := Trim(d.ogDescription);
    }
    if longText == "" {
      var texts := NonEmptyTexts(d.paragraphs);
      if texts != [] {
        longText := ParagraphsText(d.paragraphs);
      }
    }
    text := longText;
  }

  /** The first preferred span wins; with none, the first step yields "". */
  lemma {:induction false} ReadMoreTextIsFirst(spans: seq<Span>)
    ensures ReadMoreText(spans) == "" <==> forall k :: 0 <= k < |spans| ==> !Preferred(spans[k])
    ensures ReadMoreText(spans) != "" ==>
      exists k :: 0 <= k < |spans| && Preferred(spans[k]) && spans[k].text == ReadMoreText(spans)
        && forall j :: 0 <= j < k ==> !Preferred(spans[j])
  {
    if spans != [] && !Preferred(spans[0]) {
      ReadMoreTextIsFirst(spans[1..]);
      if ReadMoreText(spans) != "" {
        var k :| 0 <= k < |spans[1..]| && Preferred(spans[1..][k]) && spans[1..][k].text == ReadMoreText(spans)
          && forall j :: 0 <= j < k ==> !Preferred(spans[1..][j]);
        assert forall j :: 0 <= j < k + 1 ==> !Preferred(spans[j]) by {
          forall j | 0 <= j < k + 1 ensures !Preferred(spans[j]) {
            if j > 0 { assert spans[j] == spans[1..][j - 1]; }
          }
        }
        assert spans[k + 1] == spans[1..][k];
      } else {
        forall k | 0 <= k < |spans| ensures !Preferred(spans[k]) {
          if k > 0 { assert spans[k] == spans[1..][k - 1]; }
        }
      }
    }
  }

  /** `best, best_len` describe the longest span of `spans` over 30 words, the
      earliest among equals, or ("", 0) when there is none. */
  ghost predicate IsLongest(spans: seq<Span>, best: string, n: nat) {
    && (best == "" <==> forall k :: 0 <= k < |spans| ==> WordCount(spans[k].text) <= MinLongSpanWords)
    && (best == "" ==> n == 0)
    && (best != "" ==>
          && n == WordCount(best) && n > MinLongSpanWords
          && (forall j :: 0 <= j < |spans| ==> WordCount(spans[j].text) <= n)
          && exists k :: 0 <= k < |spans| && spans[k].text == best
               && forall j :: 0 <= j < k ==> WordCount(spans[j].text) < n)
  }

  lemma LongestStepKeepsLongest(front: seq<Span>, last: Span, best: string, n: nat)
    requires IsLongest(front, best, n)
    ensures IsLongest(front + [last], LongestStep((best, n), last).0, LongestStep((best, n), last).1)
  {
    var spans := front + [last];
    var m := |front|;
    assert forall j :: 0 <= j < m ==> spans[j] == front[j];
    assert spans[m] == last;
    assert WordCount("") == 0;
    var (b, n') := LongestStep((best, n), last);
    if b != best || n' != n {
      assert b == last.text && n' == WordCount(last.text) && n' > MinLongSpanWords;
      assert forall j :: 0 <= j < m ==> WordCount(spans[j].text) < n';
      assert spans[m].text == b;
    } else if best != "" {
      var k :| 0 <= k < m && front[k].text == best
        && forall j :: 0 <= j < k ==> WordCount(front[j].text) < n;
      assert spans[k].text == best;
    }
  }

  /** The longest-span fallback finds a span of more than 30 words exactly when
      one exists; it then returns one with the most words, the earliest such. */
  lemma {:induction false} LongestSpanIsLongest(spans: seq<Span>)
    ensures IsLongest(spans, LongestSpan(spans).0, LongestSpan(spans).1)
  {
    if spans != [] {
      var front := spans[..|spans| - 1];
      LongestSpanIsLongest(front);
      LongestStepKeepsLongest(front, spans[|spans| - 1], LongestSpan(front).0, LongestSpan(front).1);
      assert front + [spans[|spans| - 1]] == spans;
    }
  }

  /** A preferred span decides the description, whatever follows it. */
  lemma ReadMoreWins(d: HtmlDigest, k: nat)
    requires k < |d.spans| && Preferred(d.spans[k])
    requires forall j :: 0 <= j < k ==> !Preferred(d.spans[j])
    ensures LongDescriptionOf(d) == d.spans[k].text
  {
    ReadMoreTextIsFirst(d.spans);
    var r := ReadMoreText(d.spans);
    assert r != "";
    var k' :| 0 <= k' < |d.spans| && Preferred(d.spans[k']) && d.spans[k'].text == r
      && forall j :: 0 <= j < k' ==> !Preferred(d.spans[j]);
    assert k' == k;
  }

  /** With no preferred span but some span over 30 words, the description is
      the text of the earliest span with the most words. */
  lemma LongestWins(d: HtmlDigest)
    requires forall k :: 0 <= k < |d.spans| ==> !Preferred(d.spans[k])
    requires exists k :: 0 <= k < |d.spans| && WordCount(d.spans[k].text) > MinLongSpanWords
    ensures var r := LongDescriptionOf(d);
      exists k :: 0 <= k < |d.spans| && d.spans[k].text == r && WordCount(r) > MinLongSpanWords
        && (forall j :: 0 <= j < |d.spans| ==> WordCount(d.spans[j].text) <= WordCount(r))
        && (forall j :: 0 <= j < k ==> WordCount(d.spans[j].text) < WordCount(r))
  {
    ReadMoreTextIsFirst(d.spans);
    LongestSpanIsLongest(d.spans);
  }

  /** With no span qualifying, the meta description, the Open Graph description
      and the paragraphs are tried in this order, each only if the previous one
      is empty after stripping. */
  lemma FallbackOrder(d: HtmlDigest)
    requires forall k :: 0 <= k < |d.spans| ==>
      !Preferred(d.spans[k]) && WordCount(d.spans[k].text) <= MinLongSpanWords
    ensures Trim(d.metaDescription) != "" ==> LongDescriptionOf(d) == Trim(d.metaDescription)
    ensures Trim(d.metaDescription) == "" && Trim(d.ogDescription) != "" ==>
      LongDescriptionOf(d) == Trim(d.ogDescription)
    ensures Trim(d.metaDescription) == "" && Trim(d.ogDescription) == "" ==>
      LongDescriptionOf(d) == ParagraphsText(d.paragraphs)
  {
    ReadMoreTextIsFirst(d.spans);
    LongestSpanIsLongest(d.spans);
  }

  /** A page with no marked spans and a meta description "A fine blade." yields
      exactly that text. */
  lemma MetaDescriptionExample(og: string, ps: seq<string>)
    ensures LongDescriptionOf(HtmlDigest([], "A fine blade.", og, ps)) == "A fine blade."
  {
    TrimUnchanged("A fine blade.");
  }
}
