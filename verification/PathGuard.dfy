/**
 `_chemin_autorise`: a path is allowed when, once resolved, it is the
 resolved scan root or lies under it. Resolution (`os.path.realpath`) is a
 parameter `canon`; `IsWithinRoot` is the test on resolved strings.
 */
module PathGuard {
  import opened Text

  /** `os.sep` on POSIX. */
  const Sep: char := '/'

  /**
   The test on resolved strings: `target` is the root itself, or continues
   it with a separator, so that the root ends on a component boundary.
   */
  function IsWithinRoot(root: string, target: string): (within: bool)
    ensures within <==>
      || target == root
      || (|root| < |target| && target[..|root|] == root && target[|root|] == Sep)
  {
    assert StartsWith(target, root + [Sep]) <==>
      |root| < |target| && target[..|root|] == root && target[|root|] == Sep by {
      if |root| < |target| {
        assert target[..|root| + 1] == target[..|root|] + [target[|root|]];
      }
    }
    target == root || StartsWith(target, root + [Sep])
  }

  /**
   `_chemin_autorise(path)` for the scan root `root`: whatever the two
   spellings, an allowed path resolves to the resolved root or below it.
   */
  function IsAllowed(root: string, path: string, canon: string -> string): (ok: bool)
    ensures canon(path) == canon(root) ==> ok
    ensures ok ==> |canon(root)| <= |canon(path)| && canon(path)[..|canon(root)|] == canon(root)
    ensures ok && canon(path) != canon(root) ==> canon(path)[|canon(root)|] == Sep
    ensures var r, t := canon(root), canon(path);
      |r| < |t| && t[..|r|] == r && t[|r|] == Sep ==> ok
  {
    IsWithinRoot(canon(root), canon(path))
  }

  /** The root is allowed however links resolve, since both sides are resolved alike. */
  lemma RootIsAllowed(root: string, canon: string -> string)
    ensures IsAllowed(root, root, canon)
  {
  }

  /** A path whose resolution leaves the root is refused, whatever its spelling. */
  lemma ResolvedSiblingRefused(root: string, path: string, canon: string -> string, c: char, rest: string)
    requires c != Sep && canon(path) == canon(root) + [c] + rest
    ensures !IsAllowed(root, path, canon)
  {
    SiblingIsNotWithin(canon(root), c, rest);
  }

  /** Anything written below `root + "/"` is allowed. */
  lemma DescendantIsWithin(root: string, rest: string)
    ensures IsWithinRoot(root, root + [Sep] + rest)
  {
    assert (root + [Sep] + rest)[..|root| + 1] == root + [Sep];
  }

  /** An allowed path is the root itself or the root, a separator, and more. */
  lemma WithinRootShape(root: string, target: string)
    requires IsWithinRoot(root, target)
    ensures target == root || target == root + [Sep] + target[|root| + 1..]
  {
    if target != root {
      assert target == target[..|root| + 1] + target[|root| + 1..];
    }
  }

  /**
   A path that merely shares the root as a string prefix, continuing with
   anything but a separator, is refused: `/home/u2` is not under `/home/u`.
   */
  lemma SiblingIsNotWithin(root: string, c: char, rest: string)
    requires c != Sep
    ensures !IsWithinRoot(root, root + [c] + rest)
  {
    var t := root + [c] + rest;
    assert t[|root|] == c;
  }

  lemma SiblingExample()
    ensures !IsWithinRoot("/home/u", "/home/u2")
  {
    SiblingIsNotWithin("/home/u", '2', "");
    assert "/home/u" + ['2'] + "" == "/home/u2";
  }

  /**
   With the file-system root as scan root the check asks for a `//` prefix,
   so no child of `/` is ever allowed.
   */
  lemma SlashRootRefusesChildren(rest: string)
    requires |rest| > 0 && rest[0] != Sep
    ensures !IsWithinRoot("/", "/" + rest)
  {
    var t := "/" + rest;
    assert t[1] == rest[0];
  }
}
