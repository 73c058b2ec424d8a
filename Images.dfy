/** Image file names: `parse_ext` (met_swords_full_scrape_sanitized.py:303-305)
    and the local paths `full_scrape` derives for the primary and additional
    images (:476-502). Paths are joined the way POSIX `os.path.join` does. */
module Images {
  import opened Text
  import opened Values

  const AllowedExtensions: set<string> := {"jpg", "jpeg", "png", "gif", "tif", "tiff", "bmp"}
  const DefaultExtension: string := "jpg"

  /** `url.split("?")[0]`: the URL without its query. */
  function WithoutQuery(url: string): string {
    Split(url, '?')[0]
  }

  /** `p.split(".")[-1]`. */
  function AfterLastDot(p: string): string {
    var pieces := Split(p, '.');
    pieces[|pieces| - 1]
  }

  /** `parse_ext(url)`. */
  function ParseExt(url: string): (r: string)
    ensures r in AllowedExtensions
  {
    var ext := Lower(AfterLastDot(WithoutQuery(url)));
    if ext in AllowedExtensions then ext else DefaultExtension
  }

  /** The extension is read from the text after the last `.` of the URL's part
      before the first `?` (all of the URL when it has none): a suffix with no
      `.`, preceded by a `.` when there is one. It is returned lower-cased when allowed, and `jpg` otherwise. */
  lemma ParseExtReadsLastDotSuffix(url: string)
    ensures var p := WithoutQuery(url); var e := AfterLastDot(p);
      && '?' !in p && |p| <= |url| && p == url[..|p|]
      && ('?' !in url ==> p == url)
      && ('?' in url ==> |p| < |url| && url[|p|] == '?')
      && '.' !in e && |e| <= |p| && p[|p| - |e|..] == e
      && ('.' in p ==> |e| < |p| && p[|p| - |e| - 1] == '.')
      && ('.' !in p ==> e == p)
      && ParseExt(url) == (if Lower(e) in AllowedExtensions then Lower(e) else DefaultExtension)
  {
    var pieces := Split(url, '?');
    var p := pieces[0];
    assert p in pieces;
    JoinSplit(url, '?');
    if |pieces| > 1 {
      assert Join(pieces, "?") == p + "?" + Join(pieces[1..], "?");
      assert url[|p|] == '?';
    }
    if '?' !in url {
      SplitNoSeparator(url, '?');
    }
    LastPieceFollowsLastSeparator(p, '.');
  }

  /** Whatever follows the first `?` has no effect on the extension. */
  lemma QueryIgnored(a: string, b: string)
    requires '?' !in a
    ensures ParseExt(a + "?" + b) == ParseExt(a)
  {
    SplitAfterFirst(a, b, '?');
    SplitNoSeparator(a, '?');
  }

  /** POSIX `os.path.join(a, b)`: an absolute `b` replaces `a`; otherwise a `/`
      is inserted unless `a` is empty or already ends with one. */
  function PathJoin(a: string, b: string): string {
    if |b| > 0 && b[0] == '/' then b
    else if a == "" || a[|a| - 1] == '/' then a + b
    else a + "/" + b
  }

  /** `f"{oid}_{n}.{ext}"`. */
  function ImageFileName(oid: string, n: nat, ext: string): string {
    oid + "_" + NatToString(n) + "." + ext
  }

  /** `os.path.join(IMAGE_ROOT_DIR, oid, f"{oid}_{n}.{ext}")`. */
  function ImagePath(root: string, oid: string, n: nat, ext: string): string {
    PathJoin(PathJoin(root, oid), ImageFileName(oid, n, ext))
  }

  /** The path always ends with the file name, and for a plain root directory
      and an object folder name without `/` it is `<root>/<oid>/<oid>_<n>.<ext>`. */
  lemma ImagePathShape(root: string, oid: string, n: nat, ext: string)
    ensures var path := ImagePath(root, oid, n, ext); var name := ImageFileName(oid, n, ext);
      |name| <= |path| && path[|path| - |name|..] == name
    ensures root != "" && root[|root| - 1] != '/' && oid != "" && '/' !in oid ==>
      ImagePath(root, oid, n, ext) == root + "/" + oid + "/" + ImageFileName(oid, n, ext)
  {
    var name := ImageFileName(oid, n, ext);
    var path := ImagePath(root, oid, n, ext);
    var folder := PathJoin(root, oid);
    if |name| > 0 && name[0] == '/' {
      assert path == name;
    } else if folder == "" || folder[|folder| - 1] == '/' {
      assert path == folder + name;
    } else {
      assert path == folder + "/" + name;
    }
    if root != "" && root[|root| - 1] != '/' && oid != "" && '/' !in oid {
      assert oid[0] != '/' && oid[|oid| - 1] != '/';
      assert folder == root + "/" + oid;
      assert name[0] == oid[0];
    }
  }

  /** In `d + "." + e` with `d` all digits, the first `.` sits at index `|d|`. */
  lemma FirstDotAfterDigits(d: string, e: string)
    requires IsDigits(d)
    ensures (d + "." + e)[|d|] == '.'
    ensures forall i :: 0 <= i < |d| ==> (d + "." + e)[i] != '.'
  {
    forall i | 0 <= i < |d|
      ensures (d + "." + e)[i] != '.'
    {
      assert (d + "." + e)[i] == d[i];
    }
  }

  /** A run of digits followed by a `.` is found again from the joined text. */
  lemma DigitsThenDot(d1: string, e1: string, d2: string, e2: string)
    requires IsDigits(d1) && IsDigits(d2)
    requires d1 + "." + e1 == d2 + "." + e2
    ensures d1 == d2 && e1 == e2
  {
    var t := d1 + "." + e1;
    FirstDotAfterDigits(d1, e1);
    FirstDotAfterDigits(d2, e2);
    assert |d1| == |d2|;
    assert d1 == t[..|d1|] == d2;
    assert e1 == t[|d1| + 1..] == e2;
  }

  /** The file name determines the image's position and extension. */
  lemma ImageFileNameInjective(oid: string, n1: nat, e1: string, n2: nat, e2: string)
    requires ImageFileName(oid, n1, e1) == ImageFileName(oid, n2, e2)
    ensures n1 == n2 && e1 == e2
  {
    var d1, d2 := NatToString(n1), NatToString(n2);
    var k := |oid| + 1;
    assert ImageFileName(oid, n1, e1)[k..] == d1 + "." + e1;
    assert ImageFileName(oid, n2, e2)[k..] == d2 + "." + e2;
    NatToStringRoundTrip(n1);
    NatToStringRoundTrip(n2);
    DigitsThenDot(d1, e1, d2, e2);
    NatToStringInjective(n1, n2);
  }

  /** Images at different positions of one object never share a local file. */
  lemma DistinctImagePaths(root: string, oid: string, n1: nat, e1: string, n2: nat, e2: string)
    requires n1 != n2
    ensures ImagePath(root, oid, n1, e1) != ImagePath(root, oid, n2, e2)
  {
    var folder := PathJoin(root, oid);
    var a, b := ImageFileName(oid, n1, e1), ImageFileName(oid, n2, e2);
    assert a[0] == b[0] by {
      if oid == "" { assert a[0] == '_' == b[0]; } else { assert a[0] == oid[0] == b[0]; }
    }
    if ImagePath(root, oid, n1, e1) == ImagePath(root, oid, n2, e2) {
      var p := ImagePath(root, oid, n1, e1);
      if a[0] == '/' {
        assert a == p == b;
      } else if folder == "" || folder[|folder| - 1] == '/' {
        assert a == p[|folder|..] == b;
      } else {
        assert a == p[|folder| + 1..] == b;
      }
      ImageFileNameInjective(oid, n1, e1, n2, e2);
    }
  }

  /** `primary_local`: "" when there is no primary image, the path of image 1
      otherwise; a truthy primary that is not a string fails in `parse_ext`. */
  function PrimaryLocalPath(root: string, oid: string, primary: Value): Result<string> {
    if !Truthy(primary) then Ok("")
    else if primary.Str? then Ok(ImagePath(root, oid, 1, ParseExt(primary.s)))
    else Err(NotAString)
  }

  /** The primary path is "" exactly when there is no primary image, and
      otherwise ends with `<oid>_1.<parse_ext(url)>`. */
  lemma PrimaryLocalPathShape(root: string, oid: string, primary: Value)
    requires PrimaryLocalPath(root, oid, primary).Ok?
    ensures var path := PrimaryLocalPath(root, oid, primary).value;
      && (path == "" <==> !Truthy(primary))
      && (Truthy(primary) ==>
            var name := ImageFileName(oid, 1, ParseExt(primary.s));
            |name| <= |path| && path[|path| - |name|..] == name)
  {
    if Truthy(primary) {
      ImagePathShape(root, oid, 1, ParseExt(primary.s));
    }
  }

  predicate AllStrings(urls: seq<Value>) {
    forall i :: 0 <= i < |urls| ==> urls[i].Str?
  }

  /** `add_local_paths` after the first `n` additional images: image `k`
      (0-based) is saved under number `k + 2`. */
  function PathsUpTo(root: string, oid: string, urls: seq<Value>, n: nat): (r: seq<string>)
    requires n <= |urls| && forall j :: 0 <= j < n ==> urls[j].Str?
    ensures |r| == n
  {
    if n == 0 then []
    else PathsUpTo(root, oid, urls, n - 1) + [ImagePath(root, oid, n + 1, ParseExt(urls[n - 1].s))]
  }

  /** `add_local_paths`, or the exception of `parse_ext` when some URL is not a
      string. */
  function AdditionalPathsOf(root: string, oid: string, urls: seq<Value>): Result<seq<string>> {
    if AllStrings(urls) then Ok(PathsUpTo(root, oid, urls, |urls|)) else Err(NotAString)
  }

  /** Position `k` of the list holds the path of image number `k + 2`. */
  lemma {:induction false} PathsUpToAt(root: string, oid: string, urls: seq<Value>, n: nat, k: nat)
    requires n <= |urls| && forall j :: 0 <= j < n ==> urls[j].Str?
    requires k < n
    ensures PathsUpTo(root, oid, urls, n)[k] == ImagePath(root, oid, k + 2, ParseExt(urls[k].s))
  {
    if k < n - 1 {
      PathsUpToAt(root, oid, urls, n - 1, k);
    }
  }

  /** The loop building `add_local_paths`; it stops with the exception of
      `parse_ext` at the first URL that is not a string. */
  method AdditionalLocalPaths(root: string, oid: string, urls: seq<Value>) returns (r: Result<seq<string>>)
    ensures r == AdditionalPathsOf(root, oid, urls)
  {
    var paths := [];
    for i := 0 to |urls|
      invariant forall k :: 0 <= k < i ==> urls[k].Str?
      invariant paths == PathsUpTo(root, oid, urls, i)
    {
      if !urls[i].Str? {
        assert !AllStrings(urls);
        return Err(NotAString);
      }
      var ext := ParseExt(urls[i].s);
      paths := paths + [ImagePath(root, oid, i + 2, ext)];
    }
    r := Ok(paths);
  }

  /** One path per additional URL, the i-th ending with `<oid>_<i+2>.<ext>`. */
  lemma AdditionalPathsShape(root: string, oid: string, urls: seq<Value>)
    requires AdditionalPathsOf(root, oid, urls).Ok?
    ensures var paths := AdditionalPathsOf(root, oid, urls).value;
      && |paths| == |urls|
      && forall i :: 0 <= i < |urls| ==>
           var name := ImageFileName(oid, i + 2, ParseExt(urls[i].s));
           |name| <= |paths[i]| && paths[i][|paths[i]| - |name|..] == name
  {
    forall i | 0 <= i < |urls|
      ensures var name := ImageFileName(oid, i + 2, ParseExt(urls[i].s));
        var p := AdditionalPathsOf(root, oid, urls).value[i];
        |name| <= |p| && p[|p| - |name|..] == name
    {
      PathsUpToAt(root, oid, urls, |urls|, i);
      ImagePathShape(root, oid, i + 2, ParseExt(urls[i].s));
    }
  }

  /** The local files of one object are pairwise different: no additional
      image overwrites another or the primary image. */
  lemma LocalPathsDistinct(root: string, oid: string, primary: Value, urls: seq<Value>)
    requires PrimaryLocalPath(root, oid, primary).Ok?
    requires AdditionalPathsOf(root, oid, urls).Ok?
    ensures var p := PrimaryLocalPath(root, oid, primary).value;
      var ps := AdditionalPathsOf(root, oid, urls).value;
      && (forall i, j :: 0 <= i < j < |ps| ==> ps[i] != ps[j])
      && (Truthy(primary) ==> p !in ps)
  {
    var ps := AdditionalPathsOf(root, oid, urls).value;
    forall i, j | 0 <= i < j < |ps|
      ensures ps[i] != ps[j]
    {
      PathsUpToAt(root, oid, urls, |urls|, i);
      PathsUpToAt(root, oid, urls, |urls|, j);
      DistinctImagePaths(root, oid, i + 2, ParseExt(urls[i].s), j + 2, ParseExt(urls[j].s));
    }
    if Truthy(primary) {
      forall i | 0 <= i < |ps|
        ensures ps[i] != PrimaryLocalPath(root, oid, primary).value
      {
        PathsUpToAt(root, oid, urls, |urls|, i);
        DistinctImagePaths(root, oid, 1, ParseExt(primary.s), i + 2, ParseExt(urls[i].s));
      }
    }
  }
}
