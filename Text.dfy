/** String operations of Python's `str` that the scraper relies on: `split` on a
    separator, `join`, `strip`, `lower`, `split()` for word counting and `str()`
    of an integer. Whitespace and case are the ASCII subset of Python's rules. */
module Text {

  /** Python's `str.isspace` restricted to ASCII: space, \t, \n, \v, \f, \r and
      the four separators 0x1C-0x1F (which Python also treats as whitespace). */
  predicate IsSpace(c: char) {
    c == ' ' || (9 <= c as int <= 13) || (0x1C <= c as int <= 0x1F)
  }

  /** `s.split(c)`: the pieces between occurrences of `c`, always at least one. */
  function Split(s: string, c: char): (r: seq<string>)
    ensures |r| >= 1
    ensures forall p :: p in r ==> c !in p
  {
    if s == [] then [""]
    else
      var rest := Split(s[1..], c);
      if s[0] == c then [""] + rest
      else [[s[0]] + rest[0]] + rest[1..]
  }

  /** `sep.join(ls)`. */
  function Join(ls: seq<string>, sep: string): string {
    if |ls| == 0 then ""
    else if |ls| == 1 then ls[0]
    else ls[0] + sep + Join(ls[1..], sep)
  }

  /** Joining the pieces of a split with the same separator gives the text back. */
  lemma {:induction false} JoinSplit(s: string, c: char)
    ensures Join(Split(s, c), [c]) == s
  {
    if s != [] {
      var rest := Split(s[1..], c);
      JoinSplit(s[1..], c);
      if s[0] == c {
        assert Split(s, c) == [""] + rest;
        assert ([""] + rest)[1..] == rest;
      } else {
        var r := Split(s, c);
        assert r == [[s[0]] + rest[0]] + rest[1..];
        if |rest| == 1 {
          assert s == [s[0]] + s[1..];
        } else {
          assert r[1..] == rest[1..];
          assert Join(rest, [c]) == rest[0] + [c] + Join(rest[1..], [c]);
          assert s == [s[0]] + s[1..];
        }
      }
    }
  }

  lemma {:induction false} SplitNoSeparator(s: string, c: char)
    requires c !in s
    ensures Split(s, c) == [s]
  {
    if s != [] {
      SplitNoSeparator(s[1..], c);
      assert [s[0]] + s[1..] == s;
    }
  }

  lemma {:induction false} SplitAfterFirst(a: string, b: string, c: char)
    requires c !in a
    ensures Split(a + [c] + b, c) == [a] + Split(b, c)
  {
    var s := a + [c] + b;
    if a == [] {
      assert s[1..] == b;
    } else {
      assert s[1..] == a[1..] + [c] + b;
      SplitAfterFirst(a[1..], b, c);
      assert [a[0]] + a[1..] == a;
    }
  }

  /** Splitting a join of separator-free pieces gives the pieces back. */
  lemma {:induction false} SplitJoin(ls: seq<string>, c: char)
    requires |ls| >= 1
    requires forall p :: p in ls ==> c !in p
    ensures Split(Join(ls, [c]), c) == ls
  {
    if |ls| == 1 {
      SplitNoSeparator(ls[0], c);
    } else {
      assert ls[0] in ls;
      assert forall p :: p in ls[1..] ==> p in ls;
      SplitJoin(ls[1..], c);
      SplitAfterFirst(ls[0], Join(ls[1..], [c]), c);
      assert [ls[0]] + ls[1..] == ls;
    }
  }

  lemma {:induction false} JoinLast(ls: seq<string>, sep: string)
    requires |ls| >= 2
    ensures Join(ls, sep) == Join(ls[..|ls| - 1], sep) + sep + ls[|ls| - 1]
  {
    if |ls| > 2 {
      JoinLast(ls[1..], sep);
      assert ls[1..][..|ls| - 2] == ls[..|ls| - 1][1..];
    }
  }

  /** A join of non-empty pieces starts with the first piece's first character
      and ends with the last piece's last character. */
  lemma {:induction false} JoinEnds(ls: seq<string>, sep: string)
    requires |ls| >= 1
    requires forall i :: 0 <= i < |ls| ==> ls[i] != ""
    ensures var j := Join(ls, sep); var z := ls[|ls| - 1];
      |j| >= 1 && j[0] == ls[0][0] && j[|j| - 1] == z[|z| - 1]
  {
    if |ls| > 1 {
      JoinEnds(ls[1..], sep);
    }
  }

  /** `s.split(c)[-1]` is the text after the last `c`: a suffix of `s` holding no
      `c`, which is all of `s` when `c` does not occur and otherwise follows a `c`. */
  lemma LastPieceFollowsLastSeparator(s: string, c: char)
    ensures var e := Split(s, c)[|Split(s, c)| - 1];
      && c !in e
      && |e| <= |s| && s[|s| - |e|..] == e
      && (c !in s ==> e == s)
      && (c in s ==> |e| < |s| && s[|s| - |e| - 1] == c)
  {
    var ls := Split(s, c);
    var e := ls[|ls| - 1];
    assert e in ls;
    JoinSplit(s, c);
    if |ls| == 1 {
      assert s == e;
    } else {
      JoinLast(ls, [c]);
      var front := Join(ls[..|ls| - 1], [c]);
      assert s == front + [c] + e;
      assert s[|s| - |e| - 1] == c;
      assert s[|s| - |e|..] == e;
    }
  }

  /** `s.lstrip()`: drop leading whitespace. */
  function TrimStart(s: string): (r: string)
    ensures |r| <= |s| && r == s[|s| - |r|..]
    ensures r == [] || !IsSpace(r[0])
    ensures forall i :: 0 <= i < |s| - |r| ==> IsSpace(s[i])
  {
    if s != [] && IsSpace(s[0]) then TrimStart(s[1..]) else s
  }

  /** `s.rstrip()`: drop trailing whitespace. */
  function TrimEnd(s: string): (r: string)
    ensures |r| <= |s| && r == s[..|r|]
    ensures r == [] || !IsSpace(r[|r| - 1])
    ensures forall i :: |r| <= i < |s| ==> IsSpace(s[i])
  {
    if s != [] && IsSpace(s[|s| - 1]) then TrimEnd(s[..|s| - 1]) else s
  }

  /** `r` is `s[k..k + |r|]` and everything of `s` outside that slice is
      whitespace. */
  predicate IsCoreOf(r: string, s: string, k: int) {
    && 0 <= k <= |s| - |r| && r == s[k..k + |r|]
    && (forall i :: 0 <= i < k ==> IsSpace(s[i]))
    && (forall i :: k + |r| <= i < |s| ==> IsSpace(s[i]))
  }

  /** `s.strip()`: the result neither starts nor ends with whitespace and holds
      only characters of `s`; TrimKeepsCore says which slice of `s` it is. */
  function Trim(s: string): (r: string)
    ensures r == [] || (!IsSpace(r[0]) && !IsSpace(r[|r| - 1]))
    ensures forall ch :: ch in r ==> ch in s
  {
    var t := TrimStart(s);
    var r := TrimEnd(t);
    assert forall ch :: ch in r ==> ch in t;
    assert forall ch :: ch in t ==> ch in s;
    r
  }

  /** `strip()` removes exactly the leading and the trailing whitespace runs:
      its result is a slice of `s` with only whitespace on either side. */
  lemma TrimKeepsCore(s: string)
    ensures exists k :: IsCoreOf(Trim(s), s, k)
  {
    var t := TrimStart(s);
    var r := TrimEnd(t);
    CoreOfStrippedParts(s, t, r);
    assert Trim(s) == r;
  }

  /** Dropping a leading whitespace run and then a trailing one leaves a core. */
  lemma CoreOfStrippedParts(s: string, t: string, r: string)
    requires |t| <= |s| && t == s[|s| - |t|..] && forall i :: 0 <= i < |s| - |t| ==> IsSpace(s[i])
    requires |r| <= |t| && r == t[..|r|] && forall j :: |r| <= j < |t| ==> IsSpace(t[j])
    ensures IsCoreOf(r, s, |s| - |t|)
  {
    var k := |s| - |t|;
    forall i | k + |r| <= i < |s|
      ensures IsSpace(s[i])
    {
      assert s[i] == t[i - k];
    }
  }

  /** A text that already starts and ends with non-whitespace is left alone. */
  lemma TrimUnchanged(s: string)
    requires s == [] || (!IsSpace(s[0]) && !IsSpace(s[|s| - 1]))
    ensures Trim(s) == s
  {
  }

  lemma TrimIdempotent(s: string)
    ensures Trim(Trim(s)) == Trim(s)
  {
    TrimUnchanged(Trim(s));
  }

  function LowerChar(c: char): char {
    if 'A' <= c <= 'Z' then (c as int + 32) as char else c
  }

  /** `s.lower()` on ASCII letters. */
  function Lower(s: string): (r: string)
    ensures |r| == |s|
  {
    seq(|s|, i requires 0 <= i < |s| => LowerChar(s[i]))
  }

  function DigitChar(d: nat): char
    requires d < 10
  {
    ('0' as int + d) as char
  }

  /** `str(n)` for a non-negative integer. */
  function NatToString(n: nat): (r: string)
    ensures |r| >= 1
  {
    if n < 10 then [DigitChar(n)] else NatToString(n / 10) + [DigitChar(n % 10)]
  }

  predicate IsDigits(s: string) {
    forall i :: 0 <= i < |s| ==> '0' <= s[i] <= '9'
  }

  /** `int(s)` for a text of decimal digits. */
  function DecimalValue(s: string): nat
    requires IsDigits(s)
  {
    if s == [] then 0
    else 10 * DecimalValue(s[..|s| - 1]) + (s[|s| - 1] as int - '0' as int)
  }

  /** `str(n)` holds only digits and reads back as `n`: `int(str(n)) == n`. */
  lemma {:induction false} NatToStringRoundTrip(n: nat)
    ensures IsDigits(NatToString(n))
    ensures DecimalValue(NatToString(n)) == n
  {
    if n >= 10 {
      NatToStringRoundTrip(n / 10);
      var s := NatToString(n);
      assert s[..|s| - 1] == NatToString(n / 10);
    }
  }

  /** Different numbers have different decimal forms. */
  lemma NatToStringInjective(n: nat, m: nat)
    requires NatToString(n) == NatToString(m)
    ensures n == m
  {
    NatToStringRoundTrip(n);
    NatToStringRoundTrip(m);
  }

  /** `str(i)` for any integer. */
  function IntToString(i: int): string {
    if i < 0 then "-" + NatToString(-i) else NatToString(i)
  }

  /** Number of words after a word boundary, `inWord` telling whether the text
      before `s` ended inside a word. */
  function WordsFrom(s: string, inWord: bool): nat {
    if s == [] then 0
    else if IsSpace(s[0]) then WordsFrom(s[1..], false)
    else (if inWord then 0 else 1) + WordsFrom(s[1..], true)
  }

  /** `len(s.split())`: the number of maximal runs of non-whitespace. */
  function WordCount(s: string): nat {
    WordsFrom(s, false)
  }

  /** A whitespace character separates words: the words on either side of it
      are counted apart and never merged. */
  lemma WordCountSplitsAtSpace(a: string, c: char, b: string)
    requires IsSpace(c)
    ensures WordCount(a + [c] + b) == WordCount(a) + WordCount(b)
  {
    WordsFromSplitsAtSpace(a, c, b, false);
  }

  lemma {:induction false} WordsFromSplitsAtSpace(a: string, c: char, b: string, inWord: bool)
    requires IsSpace(c)
    ensures WordsFrom(a + [c] + b, inWord) == WordsFrom(a, inWord) + WordsFrom(b, false)
  {
    if a == [] {
      assert a + [c] + b == [c] + b;
    } else {
      assert (a + [c] + b)[1..] == a[1..] + [c] + b;
      WordsFromSplitsAtSpace(a[1..], c, b, !IsSpace(a[0]));
    }
  }

  /** A non-empty run of non-whitespace characters is one word, and text made
      only of whitespace holds none. */
  lemma {:induction false} WordCountOfRuns(w: string, blank: string)
    requires w != [] && forall i :: 0 <= i < |w| ==> !IsSpace(w[i])
    requires forall i :: 0 <= i < |blank| ==> IsSpace(blank[i])
    ensures WordCount(w) == 1 && WordCount(blank) == 0
  {
    InsideWordAddsNothing(w[1..]);
    NoWordsInBlank(blank);
  }

  lemma {:induction false} InsideWordAddsNothing(w: string)
    requires forall i :: 0 <= i < |w| ==> !IsSpace(w[i])
    ensures WordsFrom(w, true) == 0
  {
    if w != [] {
      InsideWordAddsNothing(w[1..]);
    }
  }

  lemma {:induction false} NoWordsInBlank(blank: string)
    requires forall i :: 0 <= i < |blank| ==> IsSpace(blank[i])
    ensures WordsFrom(blank, false) == 0
  {
    if blank != [] {
      NoWordsInBlank(blank[1..]);
    }
  }

  /** `a` can be obtained from `b` by deleting characters. */
  predicate IsSubsequence<T(==)>(a: seq<T>, b: seq<T>)
    decreases |b|
  {
    if a == [] then true
    else if b == [] then false
    else if a[0] == b[0] then IsSubsequence(a[1..], b[1..])
    else IsSubsequence(a, b[1..])
  }
}
