/**
 Python's `sorted(xs, key=...)` on string keys: a stable insertion sort,
 proved to return a permutation of its input ordered by key.
 */
module Sorting {
  import opened Text

  /** Every earlier element's key is at most every later element's key. */
  ghost predicate SortedBy<T>(s: seq<T>, key: T -> string) {
    forall i, j :: 0 <= i < j < |s| ==> Leq(key(s[i]), key(s[j]))
  }

  /** Inserts `x` before the first element whose key is not below it. */
  function InsertBy<T>(x: T, s: seq<T>, key: T -> string): (r: seq<T>)
    requires SortedBy(s, key)
    ensures SortedBy(r, key)
    ensures multiset(r) == multiset(s) + multiset{x}
    decreases |s|
  {
    if |s| == 0 then [x]
    else if Leq(key(x), key(s[0])) then
      LeqAllAfterHead(x, s, key);
      [x] + s
    else
      LeqTotal(key(x), key(s[0]));
      var rest := InsertBy(x, s[1..], key);
      HeadBelowAll(s, rest, x, key);
      assert s == [s[0]] + s[1..];
      [s[0]] + rest
  }

  /** Stable sort by key: equal keys keep their input order. */
  function SortBy<T>(s: seq<T>, key: T -> string): (r: seq<T>)
    ensures SortedBy(r, key)
    ensures multiset(r) == multiset(s)
    ensures |r| == |s|
    decreases |s|
  {
    if |s| == 0 then []
    else
      assert s == [s[0]] + s[1..];
      InsertBy(s[0], SortBy(s[1..], key), key)
  }

  lemma LeqAllAfterHead<T>(x: T, s: seq<T>, key: T -> string)
    requires |s| > 0 && SortedBy(s, key) && Leq(key(x), key(s[0]))
    ensures SortedBy([x] + s, key)
  {
    var r := [x] + s;
    forall i, j | 0 <= i < j < |r|
      ensures Leq(key(r[i]), key(r[j]))
    {
      if i == 0 && j > 1 {
        LeqTransitive(key(x), key(s[0]), key(s[j - 1]));
      }
    }
  }

  lemma HeadBelowAll<T>(s: seq<T>, rest: seq<T>, x: T, key: T -> string)
    requires |s| > 0 && SortedBy(s, key) && SortedBy(rest, key)
    requires Leq(key(s[0]), key(x))
    requires multiset(rest) == multiset(s[1..]) + multiset{x}
    ensures SortedBy([s[0]] + rest, key)
  {
    var r := [s[0]] + rest;
    forall j | 0 <= j < |rest|
      ensures Leq(key(s[0]), key(rest[j]))
    {
      assert rest[j] in multiset(rest);
      if rest[j] == x {
      } else {
        assert rest[j] in multiset(s[1..]);
        var m :| 0 <= m < |s[1..]| && s[1..][m] == rest[j];
        assert s[m + 1] == rest[j];
      }
    }
    forall i, j | 0 <= i < j < |r|
      ensures Leq(key(r[i]), key(r[j]))
    {
      if i == 0 {
        assert r[j] == rest[j - 1];
      } else {
        assert r[i] == rest[i - 1] && r[j] == rest[j - 1];
      }
    }
  }

  lemma SameMembers<T>(a: seq<T>, b: seq<T>)
    requires multiset(a) == multiset(b)
    ensures forall x :: x in a <==> x in b
  {
    forall x
      ensures x in a <==> x in b
    {
      assert x in a <==> x in multiset(a);
      assert x in b <==> x in multiset(b);
    }
  }

  /** No two elements share a key. */
  ghost predicate DistinctBy<T, K>(s: seq<T>, key: T -> K) {
    forall i, j :: 0 <= i < j < |s| ==> key(s[i]) != key(s[j])
  }

  /** Without a repeated key, no element occurs twice. */
  lemma {:induction false} CountAtMostOne<T, K>(a: seq<T>, key: T -> K)
    requires DistinctBy(a, key)
    ensures forall x :: multiset(a)[x] <= 1
    decreases |a|
  {
    if |a| > 0 {
      var init := a[..|a| - 1];
      var last := a[|a| - 1];
      assert a == init + [last];
      assert DistinctBy(init, key) by {
        forall i, j | 0 <= i < j < |init|
          ensures key(init[i]) != key(init[j])
        {
          assert init[i] == a[i] && init[j] == a[j];
        }
      }
      CountAtMostOne(init, key);
      forall k | 0 <= k < |init|
        ensures init[k] != last
      {
        assert init[k] == a[k];
        assert key(a[k]) != key(a[|a| - 1]);
      }
      assert multiset(init)[last] == 0;
    }
  }

  /** An element found at two positions is counted at least twice. */
  lemma CountedTwice<T>(b: seq<T>, i: int, j: int)
    requires 0 <= i < j < |b|
    ensures b[i] == b[j] ==> multiset(b)[b[i]] >= 2
  {
    var front := b[..j];
    assert b == front + [b[j]] + b[j + 1..];
    assert front[i] == b[i];
    assert b[i] in multiset(front);
  }

  /** A permutation of a sequence whose keys do not repeat has no repeated key either. */
  lemma DistinctByPermuted<T, K>(a: seq<T>, b: seq<T>, key: T -> K)
    requires multiset(a) == multiset(b) && DistinctBy(a, key)
    ensures DistinctBy(b, key)
  {
    CountAtMostOne(a, key);
    forall i, j | 0 <= i < j < |b|
      ensures key(b[i]) != key(b[j])
    {
      CountedTwice(b, i, j);
      assert b[i] in multiset(a) && b[j] in multiset(a);
      var p :| 0 <= p < |a| && a[p] == b[i];
      var q :| 0 <= q < |a| && a[q] == b[j];
      KeysApart(a, key, p, q);
    }
  }

  lemma KeysApart<T, K>(a: seq<T>, key: T -> K, p: int, q: int)
    requires 0 <= p < |a| && 0 <= q < |a| && DistinctBy(a, key)
    ensures a[p] != a[q] ==> key(a[p]) != key(a[q])
  {
    if p < q {
      assert key(a[p]) != key(a[q]);
    } else if q < p {
      assert key(a[q]) != key(a[p]);
    }
  }

  // Sorting on a key with only three values, as `list.sort(key=...)` does
  // for the folder priorities: stable, so it is the concatenation of the
  // three key groups, each in input order.

  /** The elements whose key is `k`, in input order. */
  function KeepKey<T>(q: seq<T>, key: T -> nat, k: nat): (r: seq<T>)
    ensures forall j :: 0 <= j < |r| ==> key(r[j]) == k
    decreases |q|
  {
    if |q| == 0 then []
    else KeepKey(q[..|q| - 1], key, k) + (if key(q[|q| - 1]) == k then [q[|q| - 1]] else [])
  }

  /** The total weight of a sequence. */
  function Sum<T>(q: seq<T>, w: T -> nat): nat
    decreases |q|
  {
    if |q| == 0 then 0 else Sum(q[..|q| - 1], w) + w(q[|q| - 1])
  }

  lemma {:induction false} SumAppend<T>(a: seq<T>, b: seq<T>, w: T -> nat)
    ensures Sum(a + b, w) == Sum(a, w) + Sum(b, w)
    decreases |b|
  {
    if |b| > 0 {
      assert (a + b)[..|a + b| - 1] == a + b[..|b| - 1];
      SumAppend(a, b[..|b| - 1], w);
    } else {
      assert a + b == a;
    }
  }

  lemma KeepKeySnoc<T>(init: seq<T>, last: T, key: T -> nat, k: nat)
    ensures key(last) == k ==> KeepKey(init + [last], key, k) == KeepKey(init, key, k) + [last]
    ensures key(last) != k ==> KeepKey(init + [last], key, k) == KeepKey(init, key, k)
  {
    var q := init + [last];
    assert q[..|q| - 1] == init;
  }

  /** The three key groups partition the input. */
  lemma {:induction false} KeyGroups<T>(q: seq<T>, key: T -> nat)
    requires forall j :: 0 <= j < |q| ==> key(q[j]) <= 2
    ensures multiset(KeepKey(q, key, 0)) + multiset(KeepKey(q, key, 1)) + multiset(KeepKey(q, key, 2)) == multiset(q)
    decreases |q|
  {
    if |q| > 0 {
      var init, last := q[..|q| - 1], q[|q| - 1];
      KeyGroups(init, key);
      assert q == init + [last];
      KeepKeySnoc(init, last, key, 0);
      KeepKeySnoc(init, last, key, 1);
      KeepKeySnoc(init, last, key, 2);
      var t0: seq<T> := if key(last) == 0 then [last] else [];
      var t1: seq<T> := if key(last) == 1 then [last] else [];
      var t2: seq<T> := if key(last) == 2 then [last] else [];
      OneGroupGetsLast(last, key, t0, t1, t2);
      Regroup(KeepKey(init, key, 0), KeepKey(init, key, 1), KeepKey(init, key, 2), t0, t1, t2);
    }
  }

  lemma OneGroupGetsLast<T>(last: T, key: T -> nat, t0: seq<T>, t1: seq<T>, t2: seq<T>)
    requires key(last) <= 2
    requires t0 == (if key(last) == 0 then [last] else [])
    requires t1 == (if key(last) == 1 then [last] else [])
    requires t2 == (if key(last) == 2 then [last] else [])
    ensures multiset(t0) + multiset(t1) + multiset(t2) == multiset{last}
  {
  }

  lemma Regroup<T>(a0: seq<T>, a1: seq<T>, a2: seq<T>, t0: seq<T>, t1: seq<T>, t2: seq<T>)
    ensures multiset(a0 + t0) + multiset(a1 + t1) + multiset(a2 + t2)
         == (multiset(a0) + multiset(a1) + multiset(a2)) + (multiset(t0) + multiset(t1) + multiset(t2))
  {
  }

  /** ... and its total weight. */
  lemma {:induction false} KeyGroupWeights<T>(q: seq<T>, key: T -> nat, w: T -> nat)
    requires forall j :: 0 <= j < |q| ==> key(q[j]) <= 2
    ensures Sum(KeepKey(q, key, 0), w) + Sum(KeepKey(q, key, 1), w) + Sum(KeepKey(q, key, 2), w) == Sum(q, w)
    decreases |q|
  {
    if |q| > 0 {
      var init, last := q[..|q| - 1], q[|q| - 1];
      KeyGroupWeights(init, key, w);
      assert q == init + [last];
      var a0, a1, a2 := KeepKey(init, key, 0), KeepKey(init, key, 1), KeepKey(init, key, 2);
      var t0: seq<T> := if key(last) == 0 then [last] else [];
      var t1: seq<T> := if key(last) == 1 then [last] else [];
      var t2: seq<T> := if key(last) == 2 then [last] else [];
      KeepKeySnoc(init, last, key, 0);
      KeepKeySnoc(init, last, key, 1);
      KeepKeySnoc(init, last, key, 2);
      assert KeepKey(q, key, 0) == a0 + t0 && KeepKey(q, key, 1) == a1 + t1 && KeepKey(q, key, 2) == a2 + t2;
      SumAppend(a0, t0, w);
      SumAppend(a1, t1, w);
      SumAppend(a2, t2, w);
      assert [last][..0] == [];
      assert Sum(t0, w) + Sum(t1, w) + Sum(t2, w) == w(last);
    }
  }

  /** A stable sort by a key in {0, 1, 2}. */
  function SortBySmallKey<T>(q: seq<T>, key: T -> nat): (r: seq<T>)
    requires forall j :: 0 <= j < |q| ==> key(q[j]) <= 2
    ensures multiset(r) == multiset(q)
    ensures forall i, j :: 0 <= i < j < |r| ==> key(r[i]) <= key(r[j])
  {
    KeyGroups(q, key);
    var a, b, c := KeepKey(q, key, 0), KeepKey(q, key, 1), KeepKey(q, key, 2);
    var r := a + b + c;
    assert forall i :: 0 <= i < |r| ==> key(r[i]) == (if i < |a| then 0 else if i < |a| + |b| then 1 else 2);
    r
  }

  lemma SortBySmallKeyWeight<T>(q: seq<T>, key: T -> nat, w: T -> nat)
    requires forall j :: 0 <= j < |q| ==> key(q[j]) <= 2
    ensures Sum(SortBySmallKey(q, key), w) == Sum(q, w)
  {
    KeyGroupWeights(q, key, w);
    var a, b, c := KeepKey(q, key, 0), KeepKey(q, key, 1), KeepKey(q, key, 2);
    SumAppend(a, b, w);
    SumAppend(a + b, c, w);
  }

  lemma {:induction false} KeepKeyAppend<T>(a: seq<T>, b: seq<T>, key: T -> nat, k: nat)
    ensures KeepKey(a + b, key, k) == KeepKey(a, key, k) + KeepKey(b, key, k)
    decreases |b|
  {
    if |b| > 0 {
      var init, last := b[..|b| - 1], b[|b| - 1];
      KeepKeyAppend(a, init, key, k);
      assert a + b == (a + init) + [last];
      assert b == init + [last];
      KeepKeySnoc(a + init, last, key, k);
      KeepKeySnoc(init, last, key, k);
    } else {
      assert a + b == a;
    }
  }

  /** Filtering a sequence whose keys all equal `k'` keeps all of it or nothing. */
  lemma {:induction false} KeepKeyUniform<T>(s: seq<T>, key: T -> nat, k: nat, k': nat)
    requires forall j :: 0 <= j < |s| ==> key(s[j]) == k'
    ensures KeepKey(s, key, k) == if k == k' then s else []
    decreases |s|
  {
    if |s| > 0 {
      var init, last := s[..|s| - 1], s[|s| - 1];
      KeepKeyUniform(init, key, k, k');
      assert s == init + [last];
      KeepKeySnoc(init, last, key, k);
    }
  }

  /** Stability: the elements of each key keep their input order. */
  lemma SortBySmallKeyStable<T>(q: seq<T>, key: T -> nat, k: nat)
    requires forall j :: 0 <= j < |q| ==> key(q[j]) <= 2
    ensures KeepKey(SortBySmallKey(q, key), key, k) == KeepKey(q, key, k)
  {
    var a, b, c := KeepKey(q, key, 0), KeepKey(q, key, 1), KeepKey(q, key, 2);
    assert SortBySmallKey(q, key) == a + b + c;
    KeepKeyAppend(a + b, c, key, k);
    KeepKeyAppend(a, b, key, k);
    GroupsFiltered(a, b, c, key, k);
    if k > 2 {
      KeepKeyNone(q, key, k);
    }
  }

  lemma GroupsFiltered<T>(a: seq<T>, b: seq<T>, c: seq<T>, key: T -> nat, k: nat)
    requires forall j :: 0 <= j < |a| ==> key(a[j]) == 0
    requires forall j :: 0 <= j < |b| ==> key(b[j]) == 1
    requires forall j :: 0 <= j < |c| ==> key(c[j]) == 2
    ensures KeepKey(a, key, k) + KeepKey(b, key, k) + KeepKey(c, key, k)
         == if k == 0 then a else if k == 1 then b else if k == 2 then c else []
  {
    KeepKeyUniform(a, key, k, 0);
    KeepKeyUniform(b, key, k, 1);
    KeepKeyUniform(c, key, k, 2);
    if k == 0 {
      assert a + [] + [] == a;
    } else if k == 1 {
      assert [] + b + [] == b;
    } else if k == 2 {
      assert [] + [] + c == c;
    }
  }

  /** No element has a key outside {0, 1, 2}. */
  lemma {:induction false} KeepKeyNone<T>(q: seq<T>, key: T -> nat, k: nat)
    requires forall j :: 0 <= j < |q| ==> key(q[j]) <= 2
    requires k > 2
    ensures KeepKey(q, key, k) == []
    decreases |q|
  {
    if |q| > 0 {
      KeepKeyNone(q[..|q| - 1], key, k);
    }
  }
}
