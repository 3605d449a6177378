/**
 The pure string parts of Python's `posixpath` and `str.split` that the
 request guard relies on: joining, base names and splitting on `/`.
 */
module PosixPath {
  import opened Text

  /** `posixpath.join(a, b)`. */
  function JoinOne(a: string, b: string): string {
    if StartsWith(b, "/") then b
    else if |a| == 0 || a[|a| - 1] == '/' then a + b
    else a + "/" + b
  }

  /** `posixpath.join(base, *parts)`. */
  function JoinAll(base: string, parts: seq<string>): string
    decreases |parts|
  {
    if |parts| == 0 then base else JoinAll(JoinOne(base, parts[0]), parts[1..])
  }

  /** The index of the last `/` of `p`, or -1 when there is none. */
  function LastSlash(p: string): (i: int)
    ensures -1 <= i < |p|
    ensures i >= 0 ==> p[i] == '/'
    ensures forall j :: i < j < |p| ==> p[j] != '/'
    decreases |p|
  {
    if |p| == 0 then -1
    else if p[|p| - 1] == '/' then |p| - 1
    else LastSlash(p[..|p| - 1])
  }

  /** `posixpath.basename(p)`: what follows the last `/`. */
  function Basename(p: string): (r: string)
    ensures '/' !in r && EndsWith(p, r)
    ensures r == p || p[|p| - |r| - 1] == '/'
  {
    var r := p[LastSlash(p) + 1..];
    assert forall j :: 0 <= j < |r| ==> r[j] == p[LastSlash(p) + 1 + j];
    r
  }

  /** `s.split("/")`: always at least one piece, none holding a `/`. */
  function Split(s: string): (r: seq<string>)
    ensures |r| >= 1
    ensures forall k :: 0 <= k < |r| ==> '/' !in r[k]
    decreases |s|
  {
    if |s| == 0 then [""]
    else
      var rest := Split(s[1..]);
      if s[0] == '/' then [""] + rest else [[s[0]] + rest[0]] + rest[1..]
  }

  /** `[p for p in parts if p]`. */
  function NonEmpty(parts: seq<string>): (r: seq<string>)
    ensures forall p :: p in r <==> p in parts && p != []
    ensures forall p :: multiset(r)[p] == if p == [] then 0 else multiset(parts)[p]
    decreases |parts|
  {
    if |parts| == 0 then []
    else
      assert parts == [parts[0]] + parts[1..];
      if parts[0] == [] then NonEmpty(parts[1..])
      else [parts[0]] + NonEmpty(parts[1..])
  }

  /** The filter works piece by piece, so it keeps the order of the pieces. */
  lemma {:induction false} NonEmptyAppend(a: seq<string>, b: seq<string>)
    ensures NonEmpty(a + b) == NonEmpty(a) + NonEmpty(b)
    decreases |a|
  {
    if |a| > 0 {
      assert (a + b)[1..] == a[1..] + b;
      NonEmptyAppend(a[1..], b);
    } else {
      assert a + b == b;
    }
  }

  predicate Segment(p: string) {
    p != [] && '/' !in p
  }

  /** Splitting and re-joining with `/` gives the string back. */
  lemma {:induction false} SplitJoinRoundTrip(s: string)
    ensures Join("/", Split(s)) == s
    decreases |s|
  {
    if |s| > 0 {
      SplitJoinRoundTrip(s[1..]);
      var rest := Split(s[1..]);
      if s[0] == '/' {
        assert Join("/", [""] + rest) == "" + "/" + Join("/", rest);
      } else if |rest| == 1 {
        assert s == [s[0]] + s[1..];
      } else {
        var r := [[s[0]] + rest[0]] + rest[1..];
        assert r[1..] == rest[1..];
        assert s == [s[0]] + s[1..];
      }
    }
  }

  /** Joining slash-free, non-empty parts onto a root that does not end in `/`. */
  lemma {:induction false} JoinUnderBase(base: string, parts: seq<string>)
    requires |base| > 0 && base[|base| - 1] != '/'
    requires forall k :: 0 <= k < |parts| ==> Segment(parts[k])
    ensures |parts| > 0 ==> JoinAll(base, parts) == base + "/" + Join("/", parts)
    ensures |parts| == 0 ==> JoinAll(base, parts) == base
    decreases |parts|
  {
    if |parts| > 0 {
      var p := parts[0];
      assert p[0] != '/';
      var next := base + "/" + p;
      assert next[|next| - 1] == p[|p| - 1];
      assert JoinOne(base, p) == next;
      JoinUnderBase(next, parts[1..]);
      if |parts| > 1 {
        assert Join("/", parts) == p + "/" + Join("/", parts[1..]);
      }
    }
  }

  /** The base name of `dir + "/" + name` is `name` when `name` holds no `/`. */
  lemma {:induction false} BasenameOfChild(dir: string, name: string)
    requires '/' !in name
    ensures Basename(dir + "/" + name) == name
    decreases |name|
  {
    var p := dir + "/" + name;
    if |name| > 0 {
      var q := name[..|name| - 1];
      assert p[..|p| - 1] == dir + "/" + q;
      assert forall i :: 0 <= i < |q| ==> q[i] == name[i];
      BasenameOfChild(dir, q);
      assert name == q + [name[|name| - 1]];
    }
  }
}
