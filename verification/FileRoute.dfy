/**
 The decision taken by the `fichier_galerie` route before an image is sent:
 normalise the requested relative path, then refuse it in a fixed order.
 `realpath` and `isfile` are parameters: `canon` maps a path to its resolved
 form (applied to the scan root and to the requested path alike) and
 `isFile` says whether a regular file lives there.
 */
module FileRoute {
  import opened Text
  import opened PathGuard
  import opened PosixPath
  import opened Classifier

  /** `abort(403)`, `abort(404)`, or `send_file(path)`. */
  datatype Response = Forbidden | NotFound | Send(path: string)

  /** `s.replace("\\", "/")`. */
  function ToSlashes(s: string): (r: string)
    ensures |r| == |s|
    ensures forall i :: 0 <= i < |s| ==> r[i] == (if s[i] == '\\' then '/' else s[i])
  {
    seq(|s|, i requires 0 <= i < |s| => if s[i] == '\\' then '/' else s[i])
  }

  /** `lstrip("/")`: the longest suffix not starting with `/`, only slashes dropped. */
  function StripLeadingSlashes(s: string): (r: string)
    ensures |r| <= |s| && r == s[|s| - |r|..]
    ensures forall i :: 0 <= i < |s| - |r| ==> s[i] == '/'
    ensures |r| > 0 ==> r[0] != '/'
    decreases |s|
  {
    if |s| > 0 && s[0] == '/' then StripLeadingSlashes(s[1..]) else s
  }

  /** `rstrip("/")`: the longest prefix not ending in `/`, only slashes dropped. */
  function StripTrailingSlashes(s: string): (r: string)
    ensures |r| <= |s| && r == s[..|r|]
    ensures forall i :: |r| <= i < |s| ==> s[i] == '/'
    ensures |r| > 0 ==> r[|r| - 1] != '/'
    decreases |s|
  {
    if |s| > 0 && s[|s| - 1] == '/' then StripTrailingSlashes(s[..|s| - 1]) else s
  }

  /** `chemin_relatif.replace("\\", "/").strip("/")`. */
  function Normalize(rel: string): (r: string)
    ensures '\\' !in r
    ensures |r| > 0 ==> r[0] != '/' && r[|r| - 1] != '/'
    ensures |r| <= |rel|
    ensures Contains(r, "..") <==> Contains(rel, "..")
    ensures IsWindow(ToSlashes(rel), r)
  {
    var t := ToSlashes(rel);
    var l := StripLeadingSlashes(t);
    var r := StripTrailingSlashes(l);
    assert |r| > 0 ==> r[0] == l[0] && r[0] != '/' && r[|r| - 1] != '/';
    StripBothIsWindow(t);
    WindowHasNoBackslash(t, r);
    ToSlashesKeepsDotDot(rel);
    StripLeadingKeepsDotDot(t);
    StripTrailingKeepsDotDot(l);
    r
  }

  /** A request already free of backslashes and outer slashes is left as it is. */
  lemma NormalFixed(s: string)
    requires '\\' !in s
    requires |s| > 0 ==> s[0] != '/' && s[|s| - 1] != '/'
    ensures Normalize(s) == s
  {
    assert ToSlashes(s) == s;
    assert StripLeadingSlashes(s) == s;
    assert StripTrailingSlashes(s) == s;
  }

  /** Normalising twice is normalising once. */
  lemma NormalizeIdempotent(rel: string)
    ensures Normalize(Normalize(rel)) == Normalize(rel)
  {
    NormalFixed(Normalize(rel));
  }

  /** A plain request is left as it is. */
  lemma NormalizePlain()
    ensures Normalize("a/b.jpg") == "a/b.jpg"
  {
    NormalFixed("a/b.jpg");
  }

  /** Backslashes become `/` and the outer slashes go; nothing else changes. */
  lemma NormalizeBackslashes()
    ensures Normalize("/a\\b.jpg/") == "a/b.jpg"
  {
    BackslashesTurned();
    OuterSlashesStripped();
  }

  lemma BackslashesTurned()
    ensures ToSlashes("/a\\b.jpg/") == "/a/b.jpg/"
  {
  }

  lemma OuterSlashesStripped()
    ensures StripTrailingSlashes(StripLeadingSlashes("/a/b.jpg/")) == "a/b.jpg"
  {
    assert "/a/b.jpg/"[1..] == "a/b.jpg/";
    assert "a/b.jpg/"[..7] == "a/b.jpg";
  }

  /** `r` is `t[i..i + |r|]`, with nothing but `/` on either side of it. */
  predicate WindowAt(t: string, r: string, i: nat) {
    && i + |r| <= |t| && r == t[i..i + |r|]
    && (forall j :: 0 <= j < i ==> t[j] == '/')
    && (forall j :: i + |r| <= j < |t| ==> t[j] == '/')
  }

  /** `r` is a stretch of `t` with nothing but `/` on either side of it. */
  ghost predicate IsWindow(t: string, r: string) {
    exists i: nat :: WindowAt(t, r, i)
  }

  lemma WindowHasNoBackslash(t: string, r: string)
    requires '\\' !in t && IsWindow(t, r)
    ensures '\\' !in r
  {
    var i: nat :| WindowAt(t, r, i);
    forall k | 0 <= k < |r|
      ensures r[k] != '\\'
    {
      assert r[k] == t[i + k];
    }
  }

  /** Stripping `/` at both ends leaves a window of `t` with only `/` outside it. */
  lemma StripBothIsWindow(t: string)
    ensures IsWindow(t, StripTrailingSlashes(StripLeadingSlashes(t)))
  {
    var l := StripLeadingSlashes(t);
    Window(t, l, StripTrailingSlashes(l));
  }

  lemma Window(t: string, l: string, r: string)
    requires |l| <= |t| && l == t[|t| - |l|..] && forall j :: 0 <= j < |t| - |l| ==> t[j] == '/'
    requires |r| <= |l| && r == l[..|r|] && forall j :: |r| <= j < |l| ==> l[j] == '/'
    ensures IsWindow(t, r)
  {
    var i := |t| - |l|;
    assert r == t[i..i + |r|];
    forall j | i + |r| <= j < |t|
      ensures t[j] == '/'
    {
      assert t[j] == l[j - i];
    }
    assert WindowAt(t, r, i);
  }

  /** The non-empty pieces of the normalised request. */
  function RequestParts(rel: string): seq<string> {
    NonEmpty(Split(Normalize(rel)))
  }

  /** `os.path.join(RACINE_SCAN, *parties)`. */
  function RequestPath(root: string, rel: string): string {
    JoinAll(root, RequestParts(rel))
  }

  /**
   The route's checks in source order: a `..` anywhere, escape from the root,
   a missing file (404), a name outside the image allow-list (403).
   */
  function ServeFile(root: string, rel: string, canon: string -> string, isFile: string -> bool): (r: Response)
    ensures Contains(rel, "..") ==> r == Forbidden
    ensures r.Send? <==>
      && !Contains(rel, "..")
      && IsAllowed(root, RequestPath(root, rel), canon)
      && isFile(RequestPath(root, rel))
      && IsImageFile(Basename(RequestPath(root, rel)))
    ensures r.Send? ==> r.path == RequestPath(root, rel)
    ensures r == NotFound <==>
      && !Contains(rel, "..")
      && IsAllowed(root, RequestPath(root, rel), canon)
      && !isFile(RequestPath(root, rel))
  {
    var norm := Normalize(rel);
    if Contains(norm, "..") then Forbidden
    else
      var path := JoinAll(root, NonEmpty(Split(norm)));
      if !IsAllowed(root, path, canon) then Forbidden
      else if !isFile(path) then NotFound
      else if !IsImageFile(Basename(path)) then Forbidden
      else Send(path)
  }

  // `..` survives normalisation, and normalisation creates none.

  lemma StartsWithDotDot(s: string)
    ensures StartsWith(s, "..") <==> |s| >= 2 && s[0] == '.' && s[1] == '.'
  {
    if |s| >= 2 && s[0] == '.' && s[1] == '.' {
      assert s[..2] == "..";
    }
  }

  lemma {:induction false} ToSlashesKeepsDotDot(s: string)
    ensures Contains(ToSlashes(s), "..") <==> Contains(s, "..")
    decreases |s|
  {
    var t := ToSlashes(s);
    StartsWithDotDot(s);
    StartsWithDotDot(t);
    if |s| > 0 {
      assert t[1..] == ToSlashes(s[1..]);
      ToSlashesKeepsDotDot(s[1..]);
    }
  }

  lemma {:induction false} StripLeadingKeepsDotDot(s: string)
    ensures Contains(StripLeadingSlashes(s), "..") <==> Contains(s, "..")
    decreases |s|
  {
    if |s| > 0 && s[0] == '/' {
      StartsWithDotDot(s);
      StripLeadingKeepsDotDot(s[1..]);
    }
  }

  /** Dropping a last character other than `.` keeps every `..`. */
  lemma {:induction false} DropLastKeepsDotDot(s: string)
    requires |s| > 0 && s[|s| - 1] != '.'
    ensures Contains(s[..|s| - 1], "..") <==> Contains(s, "..")
    decreases |s|
  {
    var t := s[..|s| - 1];
    StartsWithDotDot(s);
    StartsWithDotDot(t);
    if |s| > 1 {
      assert t[1..] == s[1..][..|s[1..]| - 1];
      DropLastKeepsDotDot(s[1..]);
    }
  }

  lemma {:induction false} StripTrailingKeepsDotDot(s: string)
    ensures Contains(StripTrailingSlashes(s), "..") <==> Contains(s, "..")
    decreases |s|
  {
    if |s| > 0 && s[|s| - 1] == '/' {
      DropLastKeepsDotDot(s);
      StripTrailingKeepsDotDot(s[..|s| - 1]);
    }
  }

  // Consequences for callers.

  /** A traversal attempt is refused before any file-system question is asked. */
  lemma TraversalRefused(root: string, canon: string -> string, isFile: string -> bool)
    ensures ServeFile(root, "../../etc/passwd", canon, isFile) == Forbidden
    ensures ServeFile(root, "a\\..\\b.jpg", canon, isFile) == Forbidden
  {
    StartsWithDotDot("../../etc/passwd");
    assert Contains("a\\..\\b.jpg"[1..], "..") by {
      StartsWithDotDot("a\\..\\b.jpg"[2..]);
    }
  }

  /** The check is on the substring, so a file name with `..` inside is refused too. */
  lemma DotDotInsideNameRefused(root: string, canon: string -> string, isFile: string -> bool)
    ensures ServeFile(root, "a..b.jpg", canon, isFile) == Forbidden
  {
    StartsWithDotDot("a..b.jpg"[1..]);
  }

  /** The pieces the request is split into are path segments. */
  lemma RequestPartsAreSegments(rel: string)
    ensures forall k :: 0 <= k < |RequestParts(rel)| ==> Segment(RequestParts(rel)[k])
  {
    var pieces := Split(Normalize(rel));
    var parts := NonEmpty(pieces);
    forall k | 0 <= k < |parts|
      ensures Segment(parts[k])
    {
      PieceIsSegment(pieces, parts[k]);
    }
  }

  lemma PieceIsSegment(pieces: seq<string>, p: string)
    requires forall k :: 0 <= k < |pieces| ==> '/' !in pieces[k]
    requires p in NonEmpty(pieces)
    ensures Segment(p)
  {
    var j :| 0 <= j < |pieces| && pieces[j] == p;
  }

  /**
   Without symbolic links (`canon` is the identity) and with a root that is
   a non-empty path not ending in `/`, the containment check never fires: a
   request that passes the `..` test is refused only for a non-image name.
   */
  lemma NoEscapeWithoutLinks(root: string, rel: string, isFile: string -> bool)
    requires |root| > 0 && root[|root| - 1] != '/'
    requires !Contains(rel, "..")
    ensures IsAllowed(root, RequestPath(root, rel), p => p)
    ensures ServeFile(root, rel, p => p, isFile) == Forbidden
      ==> isFile(RequestPath(root, rel)) && !IsImageFile(Basename(RequestPath(root, rel)))
  {
    RequestAllowedWithoutLinks(root, rel);
  }

  lemma RequestAllowedWithoutLinks(root: string, rel: string)
    requires |root| > 0 && root[|root| - 1] != '/'
    ensures IsWithinRoot(root, RequestPath(root, rel))
  {
    var parts := RequestParts(rel);
    RequestPartsAreSegments(rel);
    JoinUnderBase(root, parts);
    if |parts| > 0 {
      DescendantIsWithin(root, Join("/", parts));
    }
  }

  /** The file sent is named by the last piece of the request. */
  lemma SentFileIsLastPiece(root: string, rel: string, canon: string -> string, isFile: string -> bool)
    requires |root| > 0 && root[|root| - 1] != '/'
    requires |RequestParts(rel)| > 0
    requires ServeFile(root, rel, canon, isFile).Send?
    ensures Basename(ServeFile(root, rel, canon, isFile).path) == RequestParts(rel)[|RequestParts(rel)| - 1]
    ensures IsImageFile(RequestParts(rel)[|RequestParts(rel)| - 1])
  {
    RequestPartsAreSegments(rel);
    BasenameOfRequest(root, RequestParts(rel));
  }

  lemma BasenameOfRequest(root: string, parts: seq<string>)
    requires |root| > 0 && root[|root| - 1] != '/'
    requires |parts| > 0 && forall k :: 0 <= k < |parts| ==> Segment(parts[k])
    ensures Basename(JoinAll(root, parts)) == parts[|parts| - 1]
  {
    JoinUnderBase(root, parts);
    var n := |parts|;
    assert Segment(parts[n - 1]);
    if n == 1 {
      BasenameOfChild(root, parts[0]);
    } else {
      JoinLast(parts);
      BasenameOfLongRequest(root, Join("/", parts[..n - 1]), parts[n - 1], Join("/", parts));
    }
  }

  lemma BasenameOfLongRequest(root: string, init: string, last: string, joined: string)
    requires '/' !in last
    requires joined == init + "/" + last
    ensures Basename(root + "/" + joined) == last
  {
    assert root + "/" + joined == (root + "/" + init) + "/" + last;
    BasenameOfChild(root + "/" + init, last);
  }

  lemma {:induction false} JoinLast(parts: seq<string>)
    requires |parts| > 1
    ensures Join("/", parts) == Join("/", parts[..|parts| - 1]) + "/" + parts[|parts| - 1]
    decreases |parts|
  {
    if |parts| > 2 {
      JoinLast(parts[1..]);
      assert parts[1..][..|parts| - 2] == parts[..|parts| - 1][1..];
    }
  }
}
