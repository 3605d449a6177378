/**
 The prefix order on relative paths, written segment by segment: a folder
 lies below another when the other's path starts its own.
 */
module PathOrder {

  /** `b` is `a` itself or a path below it. */
  predicate AtOrBelow(b: seq<string>, a: seq<string>) {
    |a| <= |b| && b[..|a|] == a
  }

  /** `b` lies strictly below `a`. */
  predicate StrictlyBelow(b: seq<string>, a: seq<string>) {
    |a| < |b| && b[..|a|] == a
  }

  /** `b` is a direct child of `a`: one segment longer. */
  predicate OneBelow(b: seq<string>, a: seq<string>) {
    |b| == |a| + 1 && b[..|a|] == a
  }

  /** Appending a segment gives a direct child. */
  lemma AppendOneBelow(a: seq<string>, x: string)
    ensures OneBelow(a + [x], a)
    ensures (a + [x])[|a|] == x
  {
    assert (a + [x])[..|a|] == a;
  }

  /** Two children of `a` with different last segments are different paths. */
  lemma ChildrenDiffer(a: seq<string>, x: string, y: string)
    ensures x != y ==> a + [x] != a + [y]
  {
    AppendOneBelow(a, x);
    AppendOneBelow(a, y);
  }

  /** A direct child of `base` and a path unrelated to `base` are unrelated to each other. */
  lemma ChildUnrelated(base: seq<string>, p: seq<string>, r: seq<string>)
    requires OneBelow(p, base)
    requires !AtOrBelow(base, r) && !AtOrBelow(r, base)
    ensures !AtOrBelow(p, r) && !AtOrBelow(r, p)
  {
    if |r| <= |base| {
      assert p[..|r|] == base[..|r|];
    } else if |r| == |p| {
      assert p[..|base|] == base;
    } else {
      assert r[..|base|] == r[..|p|][..|base|];
    }
  }

  /** Two different direct children of the same path are unrelated. */
  lemma SiblingsUnrelated(base: seq<string>, p: seq<string>, q: seq<string>)
    requires OneBelow(p, base) && OneBelow(q, base)
    ensures p != q ==> !AtOrBelow(p, q)
  {
    if AtOrBelow(p, q) {
      assert p == p[..|q|];
    }
  }

  /** What lies strictly below a direct child of `base` lies strictly below `base`. */
  lemma BelowChildBelowParent(base: seq<string>, p: seq<string>, q: seq<string>)
    requires OneBelow(p, base)
    ensures StrictlyBelow(q, p) ==> StrictlyBelow(q, base)
  {
    if StrictlyBelow(q, p) {
      assert q[..|base|] == q[..|p|][..|base|];
    }
  }

  /** A direct child of `base` lies strictly below `r` only when `base` is at or below `r`. */
  lemma ChildBelowOnlyFromParent(base: seq<string>, p: seq<string>, r: seq<string>)
    requires OneBelow(p, base)
    ensures StrictlyBelow(p, r) ==> AtOrBelow(base, r)
  {
    if StrictlyBelow(p, r) {
      assert base[..|r|] == p[..|base|][..|r|];
    }
  }
}
