/** The cell sanitiser `clean_for_excel` (met_swords_full_scrape_sanitized.py:69-76).
    The spreadsheet format stores cells as XML, and the `Char` production of
    section 2.2 of XML 1.0 admits no C0 control character other than tab, line
    feed and carriage return; the sanitiser deletes exactly the others. */
module Excel {
  import opened Text
  import opened Values

  /** 0x00-0x08, 0x0B-0x0C and 0x0E-0x1F. */
  predicate IsIllegal(c: char) {
    (0 <= c as int <= 0x08) || (0x0B <= c as int <= 0x0C) || (0x0E <= c as int <= 0x1F)
  }

  predicate IsLegalText(s: string) {
    forall i :: 0 <= i < |s| ==> !IsIllegal(s[i])
  }

  /** `ILLEGAL_CHARS_RE.sub("", s)`. */
  function CleanText(s: string): (r: string)
    ensures IsLegalText(r)
    ensures |r| <= |s|
  {
    if s == [] then []
    else (if IsIllegal(s[0]) then [] else [s[0]]) + CleanText(s[1..])
  }

  /** `clean_for_excel(v)`: strings are cleaned, every other value passes through. */
  function CleanForExcel(v: Value): (r: Value)
    ensures !v.Str? ==> r == v
    ensures v.Str? ==> r.Str? && IsLegalText(r.s)
  {
    if v.Str? then Str(CleanText(v.s)) else v
  }

  /** Nothing but illegal characters is removed, and what remains keeps its
      order: the result is a subsequence of the input holding every legal
      character as often as the input does. */
  lemma {:induction false} CleanKeepsLegalInOrder(s: string)
    ensures IsSubsequence(CleanText(s), s)
    ensures forall c :: !IsIllegal(c) ==> multiset(CleanText(s))[c] == multiset(s)[c]
  {
    if s != [] {
      var rest := CleanText(s[1..]);
      CleanKeepsLegalInOrder(s[1..]);
      assert s == [s[0]] + s[1..];
      if IsIllegal(s[0]) {
        assert CleanText(s) == rest;
        if rest != [] {
          assert !IsIllegal(rest[0]);
          assert rest[0] != s[0];
        }
      } else {
        assert CleanText(s) == [s[0]] + rest;
        assert ([s[0]] + rest)[1..] == rest;
      }
    }
  }

  /** A text without illegal characters is its own cleaning. */
  lemma {:induction false} CleanLegalUnchanged(s: string)
    requires IsLegalText(s)
    ensures CleanText(s) == s
  {
    if s != [] {
      CleanLegalUnchanged(s[1..]);
      assert [s[0]] + s[1..] == s;
    }
  }

  /** Cleaning twice is cleaning once. */
  lemma CleanIdempotent(v: Value)
    ensures CleanForExcel(CleanForExcel(v)) == CleanForExcel(v)
  {
    if v.Str? {
      CleanLegalUnchanged(CleanText(v.s));
    }
  }

  /** Cleaning distributes over concatenation. */
  lemma {:induction false} CleanConcat(a: string, b: string)
    ensures CleanText(a + b) == CleanText(a) + CleanText(b)
  {
    if a == [] {
      assert a + b == b;
    } else {
      assert (a + b)[1..] == a[1..] + b;
      CleanConcat(a[1..], b);
    }
  }

  /** A BEL (0x07) inside a field is removed and its neighbours stay. */
  lemma BellRemoved(a: string, b: string)
    ensures CleanText(a + [7 as char] + b) == CleanText(a) + CleanText(b)
  {
    CleanConcat(a + [7 as char], b);
    CleanConcat(a, [7 as char]);
  }
}
