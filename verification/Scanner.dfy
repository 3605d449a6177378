/**
 `_scan_bfs`: a breadth-first walk of the tree below the scan root with a
 FIFO work queue, bounded in depth and in the number of folders collected.
 */
module Scanner {
  import opened Text
  import opened Sorting
  import opened Classifier
  import opened FileTree
  import opened PathOrder

  /** `PROFONDEUR_MAX`: queue items at this depth or deeper are not listed. */
  const MaxDepth: nat := 8

  /** `MAX_DOSSIERS_GALERIE`: the scan stops once this many folders are found. */
  const MaxFolders: nat := 120

  /** A gallery folder: its path below the root, segment by segment, and its sorted images. */
  datatype FolderEntry = FolderEntry(segments: seq<string>, images: seq<string>) {
    /** The relative path as the page shows it, joined with `/`. */
    function Path(): string {
      Join("/", segments)
    }
  }

  /** The final ordering key: the lower-cased relative path. */
  function SortKey(f: FolderEntry): string {
    Lower(f.Path())
  }

  /** A work-queue item `(path, rel, depth)`: the folder itself stands for its absolute path. */
  datatype Pending = Pending(dir: Entry, rel: seq<string>, depth: nat)

  ghost predicate NoSkipped(segments: seq<string>) {
    forall j :: 0 <= j < |segments| ==> !ShouldSkip(segments[j])
  }

  /** What holds of every queued item: its depth is its path length, within bounds, and the path leads to it. */
  ghost predicate QueueItemOk(root: Entry, p: Pending) {
    && p.depth == |p.rel| <= MaxDepth
    && NoSkipped(p.rel)
    && Reaches(root, p.rel, p.dir)
  }

  /** The promises about one returned folder that do not depend on the tree. */
  ghost predicate Admissible(f: FolderEntry) {
    && 1 <= |f.segments| <= MaxDepth
    && NoSkipped(f.segments)
    && |f.images| > 0
    && SortedBy(f.images, n => n)
    && forall k :: 0 <= k < |f.images| ==> IsImageFile(f.images[k])
  }

  /** `f` lists a folder of the tree reached by its segments, with that folder's images. */
  ghost predicate FoundIn(root: Entry, f: FolderEntry) {
    exists d :: Reaches(root, f.segments, d) && f.images == ImagesIn(d)
  }

  ghost predicate EntryOk(root: Entry, f: FolderEntry) {
    Admissible(f) && FoundIn(root, f)
  }

  /**
   A folder the scan must report when it is not cut short: within the depth
   bound, reached through readable, non-skipped folders, holding an image.
   */
  ghost predicate Qualifies(root: Entry, path: seq<string>, d: Entry) {
    && 1 <= |path| <= MaxDepth
    && NoSkipped(path)
    && Reaches(root, path, d)
    && |ImagesIn(d)| > 0
  }

  /** `d`, reached by `path`, lies strictly below the queued item `p`. */
  ghost predicate Below(p: Pending, path: seq<string>, d: Entry) {
    && |p.rel| < |path|
    && path[..|p.rel|] == p.rel
    && Reaches(p.dir, path[|p.rel|..], d)
  }

  ghost predicate Covered(queue: seq<Pending>, path: seq<string>, d: Entry) {
    exists k :: 0 <= k < |queue| && Below(queue[k], path, d)
  }

  /** Every qualifying folder is already collected or still below some queued item. */
  ghost predicate AllCovered(root: Entry, found: seq<FolderEntry>, queue: seq<Pending>) {
    forall path, d :: Qualifies(root, path, d) ==>
      FolderEntry(path, ImagesIn(d)) in found || Covered(queue, path, d)
  }

  // The termination measure: the total size of the queued folders.

  function Weight(p: Pending): nat {
    Size(p.dir)
  }

  function PendingSize(q: seq<Pending>): nat {
    Sum(q, Weight)
  }

  lemma SizeAllSnoc(es: seq<Entry>, i: nat)
    requires i < |es|
    ensures SizeAll(es[..i + 1]) == SizeAll(es[..i]) + Size(es[i])
  {
    assert es[..i + 1][..i] == es[..i];
  }

  lemma PendingSnoc(q: seq<Pending>, p: Pending)
    ensures PendingSize(q + [p]) == PendingSize(q) + Size(p.dir)
  {
    SumAppend(q, [p], Weight);
    assert [p][..0] == [];
  }

  lemma {:induction false} SizeAllPrefix(es: seq<Entry>, i: nat)
    requires i <= |es|
    ensures SizeAll(es[..i]) <= SizeAll(es)
    decreases |es| - i
  {
    if i < |es| {
      SizeAllPrefix(es, i + 1);
      assert es[..i + 1][..i] == es[..i];
    } else {
      assert es[..i] == es;
    }
  }

  /** The key of `sous_dossiers.sort`: the priority of the folder's name. */
  function PriorityOf(p: Pending): nat {
    Priority(p.dir.name)
  }

  // What the inner loop over one listing produces, entry by entry.

  /** An entry the inner loop keeps: a folder whose name is not skipped. */
  predicate Listable(e: Entry) {
    e.Folder? && !ShouldSkip(e.name)
  }

  /** The queue item `(chemin, rel, profondeur + 1)` for the `i`-th entry of a listed folder. */
  function ChildItem(item: Pending, i: int): Pending
    requires item.dir.Folder? && 0 <= i < |item.dir.entries|
  {
    var e := item.dir.entries[i];
    Pending(e, item.rel + [e.name], item.depth + 1)
  }

  /** What `sous_dossiers` receives from the first `n` entries of the listing, in listing order. */
  function ChildrenUpTo(item: Pending, n: int): seq<Pending>
    requires item.dir.Folder? && 0 <= n <= |item.dir.entries|
    decreases n
  {
    if n == 0 then []
    else ChildrenUpTo(item, n - 1) + (if Listable(item.dir.entries[n - 1]) then [ChildItem(item, n - 1)] else [])
  }

  /**
   The entries `resultat` receives for the queued sub-folders `c`: those
   with images, in order, `images` standing for `_images_dans_dossier`.
   */
  function EntriesOf(c: seq<Pending>, images: Entry -> seq<string>): seq<FolderEntry>
    decreases |c|
  {
    if |c| == 0 then []
    else
      var p := c[|c| - 1];
      EntriesOf(c[..|c| - 1], images) + (if |images(p.dir)| > 0 then [FolderEntry(p.rel, images(p.dir))] else [])
  }

  /** Every non-skipped sub-folder of a listed folder, as queue items in listing order. */
  function Children(item: Pending): seq<Pending>
    requires item.dir.Folder?
  {
    ChildrenUpTo(item, |item.dir.entries|)
  }

  /** Every non-skipped sub-folder with images, as result entries in listing order. */
  function Collected(item: Pending): seq<FolderEntry>
    requires item.dir.Folder?
  {
    EntriesOf(Children(item), ImagesIn)
  }

  /** One more entry of the listing adds at most one queue item, its own. */
  lemma ChildrenNext(item: Pending, i: int)
    requires item.dir.Folder? && 0 <= i < |item.dir.entries|
    ensures ChildrenUpTo(item, i + 1) == ChildrenUpTo(item, i) + (if Listable(item.dir.entries[i]) then [ChildItem(item, i)] else [])
    ensures |ChildrenUpTo(item, i)| <= |ChildrenUpTo(item, i + 1)|
    ensures ChildrenUpTo(item, i + 1)[..|ChildrenUpTo(item, i)|] == ChildrenUpTo(item, i)
  {
  }

  /** The sub-folders queued from a shorter part of the listing start those queued from a longer one. */
  lemma {:induction false} ChildrenPrefix(item: Pending, i: int, n: int)
    requires item.dir.Folder? && 0 <= i <= n <= |item.dir.entries|
    ensures |ChildrenUpTo(item, i)| <= |ChildrenUpTo(item, n)|
    ensures ChildrenUpTo(item, n)[..|ChildrenUpTo(item, i)|] == ChildrenUpTo(item, i)
    decreases n - i
  {
    if i < n {
      ChildrenPrefix(item, i, n - 1);
      ChildrenNext(item, n - 1);
      PrefixOfPrefix(ChildrenUpTo(item, i), ChildrenUpTo(item, n - 1), ChildrenUpTo(item, n));
    }
  }

  /** One more queued sub-folder adds at most one result entry, its own. */
  lemma EntriesOfSnoc(c: seq<Pending>, p: Pending, images: Entry -> seq<string>)
    ensures EntriesOf(c + [p], images)
      == EntriesOf(c, images) + (if |images(p.dir)| > 0 then [FolderEntry(p.rel, images(p.dir))] else [])
  {
    assert (c + [p])[..|c|] == c;
  }

  /** The entries for a prefix of the sub-folders start the entries for all of them. */
  lemma {:induction false} EntriesOfPrefix(c: seq<Pending>, k: int, images: Entry -> seq<string>)
    requires 0 <= k <= |c|
    ensures |EntriesOf(c[..k], images)| <= |EntriesOf(c, images)|
    ensures EntriesOf(c, images)[..|EntriesOf(c[..k], images)|] == EntriesOf(c[..k], images)
    decreases |c| - k
  {
    if k < |c| {
      var init := c[..|c| - 1];
      assert init[..k] == c[..k];
      EntriesOfPrefix(init, k, images);
      var a := EntriesOf(c[..k], images);
      var b := EntriesOf(init, images);
      assert EntriesOf(c, images)[..|b|] == b;
      PrefixOfPrefix(a, b, EntriesOf(c, images));
    } else {
      assert c[..k] == c;
    }
  }

  lemma PrefixOfPrefix<T>(a: seq<T>, b: seq<T>, c: seq<T>)
    requires |a| <= |b| && b[..|a|] == a
    requires |b| <= |c| && c[..|b|] == b
    ensures c[..|a|] == a
  {
    assert c[..|a|] == c[..|b|][..|a|];
  }

  /** The entries after listing a non-skipped sub-folder are those of the longer part of the listing. */
  lemma FolderEntries(item: Pending, i: int, found: seq<FolderEntry>, found0: seq<FolderEntry>, found': seq<FolderEntry>,
                      images: Entry -> seq<string>)
    requires item.dir.Folder? && 0 <= i < |item.dir.entries| && Listable(item.dir.entries[i])
    requires found0 == found + EntriesOf(ChildrenUpTo(item, i), images)
    requires var e := item.dir.entries[i];
      found' == found0 + (if |images(e)| > 0 then [FolderEntry(item.rel + [e.name], images(e))] else [])
    ensures found' == found + EntriesOf(ChildrenUpTo(item, i + 1), images)
  {
    var e := item.dir.entries[i];
    ChildrenNext(item, i);
    EntriesOfSnoc(ChildrenUpTo(item, i), ChildItem(item, i), images);
    AppendAssoc(found, EntriesOf(ChildrenUpTo(item, i), images),
                if |images(e)| > 0 then [FolderEntry(item.rel + [e.name], images(e))] else []);
  }

  lemma AppendAssoc<T>(a: seq<T>, b: seq<T>, c: seq<T>)
    ensures a + b + c == a + (b + c)
  {
  }

  // No folder is reported twice: the queue never holds two related paths and
  // nothing collected lies below a queued path.

  function SegmentsOf(f: FolderEntry): seq<string> {
    f.segments
  }

  function RelOf(p: Pending): seq<string> {
    p.rel
  }

  /** No queued path is at or below another queued path. */
  ghost predicate Unrelated(queue: seq<Pending>) {
    forall i, j :: 0 <= i < |queue| && 0 <= j < |queue| && i != j ==> !AtOrBelow(queue[i].rel, queue[j].rel)
  }

  /** No collected folder lies strictly below a queued one. */
  ghost predicate NoneFoundBelow(found: seq<FolderEntry>, queue: seq<Pending>) {
    forall k, m :: 0 <= k < |found| && 0 <= m < |queue| ==> !StrictlyBelow(found[k].segments, queue[m].rel)
  }

  /** What keeps the walk from reaching a folder twice. */
  ghost predicate Tidy(found: seq<FolderEntry>, queue: seq<Pending>) {
    && DistinctBy(found, SegmentsOf)
    && Unrelated(queue)
    && NoneFoundBelow(found, queue)
  }

  /**
   In a listing whose names do not repeat, the queued sub-folders are direct
   children of the listed path with pairwise different names.
   */
  lemma {:induction false} ChildrenNamed(item: Pending, n: int)
    requires item.dir.Folder? && 0 <= n <= |item.dir.entries| && UniqueNames(item.dir.entries)
    ensures NamedBelow(item.rel, ChildrenUpTo(item, n), item.dir.entries, n)
    decreases n
  {
    if n > 0 {
      ChildrenNamed(item, n - 1);
      var x := ChildItem(item, n - 1);
      NamedSnoc(item.rel, ChildrenUpTo(item, n - 1), ChildrenUpTo(item, n), item.dir.entries, n, x,
                Listable(item.dir.entries[n - 1]));
    }
  }

  /**
   Every item of `c` sits at `base` plus its own name, no name occurs twice,
   and no name is that of a listing entry from position `n` on.
   */
  ghost predicate NamedBelow(base: seq<string>, c: seq<Pending>, es: seq<Entry>, n: int) {
    && (forall k :: 0 <= k < |c| ==> c[k].rel == base + [c[k].dir.name])
    && (forall k, m :: 0 <= k < m < |c| ==> c[k].dir.name != c[m].dir.name)
    && (forall k, m :: 0 <= k < |c| && 0 <= m < |es| && n <= m ==> c[k].dir.name != es[m].name)
  }

  /** The inductive step of `ChildrenNamed`, on plain sequences. */
  lemma NamedSnoc(base: seq<string>, c0: seq<Pending>, c: seq<Pending>, es: seq<Entry>, n: int, x: Pending, added: bool)
    requires 0 < n <= |es| && UniqueNames(es)
    requires NamedBelow(base, c0, es, n - 1)
    requires x.dir == es[n - 1] && x.rel == base + [x.dir.name]
    requires c == c0 + (if added then [x] else [])
    ensures NamedBelow(base, c, es, n)
  {
    if added {
      forall k | 0 <= k < |c0|
        ensures c[k] == c0[k]
      {
      }
      forall k, m | 0 <= k < |c| && n <= m < |es|
        ensures c[k].dir.name != es[m].name
      {
        if k == |c0| {
          assert c[k] == x;
          assert es[n - 1].name != es[m].name;
        }
      }
    }
  }

  /** The queued sub-folders of a listing with unique names: direct children, no path twice. */
  lemma ChildrenApart(item: Pending)
    requires item.dir.Folder? && UniqueNames(item.dir.entries)
    ensures forall k :: 0 <= k < |Children(item)| ==> OneBelow(Children(item)[k].rel, item.rel)
    ensures DistinctBy(Children(item), RelOf)
  {
    var c := ChildrenUpTo(item, |item.dir.entries|);
    ChildrenNamed(item, |item.dir.entries|);
    forall k | 0 <= k < |c|
      ensures OneBelow(c[k].rel, item.rel)
    {
      assert c[k].rel == item.rel + [c[k].dir.name];
      AppendOneBelow(item.rel, c[k].dir.name);
    }
    forall k, m | 0 <= k < m < |c|
      ensures RelOf(c[k]) != RelOf(c[m])
    {
      assert c[k].rel == item.rel + [c[k].dir.name] && c[m].rel == item.rel + [c[m].dir.name];
      assert c[k].dir.name != c[m].dir.name;
      ChildrenDiffer(item.rel, c[k].dir.name, c[m].dir.name);
    }
  }

  /** Every entry collected for some sub-folders carries the path of one of them. */
  lemma {:induction false} EntriesOfKeep(c: seq<Pending>, images: Entry -> seq<string>, P: seq<string> -> bool)
    requires forall m :: 0 <= m < |c| ==> P(c[m].rel)
    ensures forall k :: 0 <= k < |EntriesOf(c, images)| ==> P(EntriesOf(c, images)[k].segments)
    decreases |c|
  {
    if |c| > 0 {
      var init := c[..|c| - 1];
      assert forall m :: 0 <= m < |init| ==> init[m] == c[m];
      EntriesOfKeep(init, images, P);
    }
  }

  /** Sub-folders with pairwise different paths give entries with pairwise different paths. */
  lemma {:induction false} EntriesOfDistinct(c: seq<Pending>, images: Entry -> seq<string>)
    requires DistinctBy(c, RelOf)
    ensures DistinctBy(EntriesOf(c, images), SegmentsOf)
    decreases |c|
  {
    if |c| > 0 {
      var init := c[..|c| - 1];
      var last := c[|c| - 1];
      assert DistinctBy(init, RelOf) by {
        forall k, m | 0 <= k < m < |init|
          ensures RelOf(init[k]) != RelOf(init[m])
        {
          assert init[k] == c[k] && init[m] == c[m];
        }
      }
      EntriesOfDistinct(init, images);
      forall m | 0 <= m < |init|
        ensures init[m].rel != last.rel
      {
        assert init[m] == c[m] && RelOf(c[m]) != RelOf(c[|c| - 1]);
      }
      EntriesOfKeep(init, images, s => s != last.rel);
      var e := EntriesOf(init, images);
      var tail := if |images(last.dir)| > 0 then [FolderEntry(last.rel, images(last.dir))] else [];
      DistinctSnoc(e, tail);
    }
  }

  lemma DistinctSnoc(e: seq<FolderEntry>, tail: seq<FolderEntry>)
    requires DistinctBy(e, SegmentsOf) && |tail| <= 1
    requires forall k, m :: 0 <= k < |e| && 0 <= m < |tail| ==> e[k].segments != tail[m].segments
    ensures DistinctBy(e + tail, SegmentsOf)
  {
    var r := e + tail;
    forall k, m | 0 <= k < m < |r|
      ensures SegmentsOf(r[k]) != SegmentsOf(r[m])
    {
      if m < |e| {
        assert r[k] == e[k] && r[m] == e[m];
      } else {
        assert r[k] == e[k] && r[m] == tail[m - |e|];
      }
    }
  }

  lemma DistinctPrefix<T, K>(s: seq<T>, t: int, key: T -> K)
    requires 0 <= t <= |s| && DistinctBy(s, key)
    ensures DistinctBy(s[..t], key)
  {
    forall k, m | 0 <= k < m < t
      ensures key(s[..t][k]) != key(s[..t][m])
    {
      assert s[..t][k] == s[k] && s[..t][m] == s[m];
    }
  }

  /** Listing the queue head and queuing its children (or none, at the cap) keeps the walk tidy. */
  lemma ListedKeepsTidy(root: Entry, found: seq<FolderEntry>, queue: seq<Pending>,
                        found': seq<FolderEntry>, sorted: seq<Pending>)
    requires |queue| > 0 && QueueItemOk(root, queue[0]) && queue[0].dir.Folder?
    requires WellNamed(root) && Tidy(found, queue)
    requires |found| <= |found'| && |found'| - |found| <= |Collected(queue[0])|
    requires found' == found + Collected(queue[0])[..|found'| - |found|]
    requires sorted == [] || multiset(sorted) == multiset(Children(queue[0]))
    ensures Tidy(found', queue[1..] + sorted)
  {
    var item := queue[0];
    ReachesWellNamed(root, item.rel, item.dir);
    ChildrenApart(item);
    var c := Children(item);
    var t := |found'| - |found|;
    var added := Collected(item)[..t];
    EntriesOfKeep(c, ImagesIn, s => OneBelow(s, item.rel));
    EntriesOfDistinct(c, ImagesIn);
    DistinctPrefix(Collected(item), t, SegmentsOf);
    forall k | 0 <= k < |added|
      ensures OneBelow(added[k].segments, item.rel)
    {
      assert added[k] == Collected(item)[k];
    }
    if sorted != [] {
      DistinctByPermuted(c, sorted, RelOf);
      SameMembers(c, sorted);
      forall k | 0 <= k < |sorted|
        ensures OneBelow(sorted[k].rel, item.rel)
      {
        assert sorted[k] in c;
      }
    }
    StepKeepsTidy(found, queue, added, sorted);
  }

  /** `ListedKeepsTidy` on paths alone: what is added lies one level below the listed head. */
  lemma StepKeepsTidy(found: seq<FolderEntry>, queue: seq<Pending>, added: seq<FolderEntry>, sorted: seq<Pending>)
    requires |queue| > 0 && Tidy(found, queue)
    requires forall k :: 0 <= k < |added| ==> OneBelow(added[k].segments, queue[0].rel)
    requires DistinctBy(added, SegmentsOf)
    requires forall k :: 0 <= k < |sorted| ==> OneBelow(sorted[k].rel, queue[0].rel)
    requires DistinctBy(sorted, RelOf)
    ensures Tidy(found + added, queue[1..] + sorted)
  {
    FoundStaysDistinct(found, queue, added);
    QueueStaysUnrelated(queue, sorted);
    NothingFoundBelowAfter(found, queue, added, sorted);
  }

  lemma FoundStaysDistinct(found: seq<FolderEntry>, queue: seq<Pending>, added: seq<FolderEntry>)
    requires |queue| > 0 && DistinctBy(found, SegmentsOf) && NoneFoundBelow(found, queue)
    requires forall k :: 0 <= k < |added| ==> OneBelow(added[k].segments, queue[0].rel)
    requires DistinctBy(added, SegmentsOf)
    ensures DistinctBy(found + added, SegmentsOf)
  {
    var r := found + added;
    forall k, m | 0 <= k < m < |r|
      ensures SegmentsOf(r[k]) != SegmentsOf(r[m])
    {
      if m < |found| {
        assert r[k] == found[k] && r[m] == found[m];
      } else if k < |found| {
        assert r[k] == found[k] && r[m] == added[m - |found|];
        assert !StrictlyBelow(found[k].segments, queue[0].rel);
      } else {
        assert r[k] == added[k - |found|] && r[m] == added[m - |found|];
      }
    }
  }

  lemma QueueStaysUnrelated(queue: seq<Pending>, sorted: seq<Pending>)
    requires |queue| > 0 && Unrelated(queue)
    requires forall k :: 0 <= k < |sorted| ==> OneBelow(sorted[k].rel, queue[0].rel)
    requires DistinctBy(sorted, RelOf)
    ensures Unrelated(queue[1..] + sorted)
  {
    var rest := queue[1..];
    var r := rest + sorted;
    var base := queue[0].rel;
    forall i, j | 0 <= i < |r| && 0 <= j < |r| && i != j
      ensures !AtOrBelow(r[i].rel, r[j].rel)
    {
      if i < |rest| && j < |rest| {
        assert r[i] == queue[i + 1] && r[j] == queue[j + 1];
      } else if i < |rest| {
        RestVersusChild(queue, i + 1, sorted[j - |rest|]);
        assert r[i] == queue[i + 1] && r[j] == sorted[j - |rest|];
      } else if j < |rest| {
        RestVersusChild(queue, j + 1, sorted[i - |rest|]);
        assert r[j] == queue[j + 1] && r[i] == sorted[i - |rest|];
      } else {
        var a := i - |rest|;
        var b := j - |rest|;
        assert r[i] == sorted[a] && r[j] == sorted[b];
        SiblingsUnrelated(base, sorted[a].rel, sorted[b].rel);
        if a < b {
          assert RelOf(sorted[a]) != RelOf(sorted[b]);
        } else {
          assert RelOf(sorted[b]) != RelOf(sorted[a]);
        }
      }
    }
  }

  /** A queued item other than the head and a new child of the head are unrelated. */
  lemma RestVersusChild(queue: seq<Pending>, j: int, p: Pending)
    requires 0 < j < |queue| && Unrelated(queue)
    requires OneBelow(p.rel, queue[0].rel)
    ensures !AtOrBelow(queue[j].rel, p.rel) && !AtOrBelow(p.rel, queue[j].rel)
  {
    assert !AtOrBelow(queue[0].rel, queue[j].rel) && !AtOrBelow(queue[j].rel, queue[0].rel);
    ChildUnrelated(queue[0].rel, p.rel, queue[j].rel);
  }

  lemma NothingFoundBelowAfter(found: seq<FolderEntry>, queue: seq<Pending>, added: seq<FolderEntry>, sorted: seq<Pending>)
    requires |queue| > 0 && Unrelated(queue) && NoneFoundBelow(found, queue)
    requires forall k :: 0 <= k < |added| ==> OneBelow(added[k].segments, queue[0].rel)
    requires forall k :: 0 <= k < |sorted| ==> OneBelow(sorted[k].rel, queue[0].rel)
    ensures NoneFoundBelow(found + added, queue[1..] + sorted)
  {
    var rest := queue[1..];
    var f := found + added;
    var q := rest + sorted;
    var base := queue[0].rel;
    forall k, m | 0 <= k < |f| && 0 <= m < |q|
      ensures !StrictlyBelow(f[k].segments, q[m].rel)
    {
      if k < |found| && m < |rest| {
        assert f[k] == found[k] && q[m] == queue[m + 1];
      } else if k < |found| {
        assert f[k] == found[k] && q[m] == sorted[m - |rest|];
        assert !StrictlyBelow(found[k].segments, base);
        BelowChildBelowParent(base, sorted[m - |rest|].rel, found[k].segments);
      } else if m < |rest| {
        assert f[k] == added[k - |found|] && q[m] == queue[m + 1];
        assert !AtOrBelow(base, queue[m + 1].rel);
        ChildBelowOnlyFromParent(base, added[k - |found|].segments, queue[m + 1].rel);
      } else {
        assert f[k] == added[k - |found|] && q[m] == sorted[m - |rest|];
      }
    }
  }

  /** Dropping the queue head keeps the walk tidy. */
  lemma DropKeepsTidy(found: seq<FolderEntry>, queue: seq<Pending>)
    requires |queue| > 0 && Tidy(found, queue)
    ensures Tidy(found, queue[1..])
  {
    var rest := queue[1..];
    forall i, j | 0 <= i < |rest| && 0 <= j < |rest| && i != j
      ensures !AtOrBelow(rest[i].rel, rest[j].rel)
    {
      assert rest[i] == queue[i + 1] && rest[j] == queue[j + 1];
    }
    forall k, m | 0 <= k < |found| && 0 <= m < |rest|
      ensures !StrictlyBelow(found[k].segments, rest[m].rel)
    {
      assert rest[m] == queue[m + 1];
    }
  }

  // One step of the walk: listing a queued folder.

  /**
   The inner loop of `_scan_bfs` over one listing: each non-skipped
   sub-folder with images is appended to `found` (stopping at the cap), and
   every non-skipped sub-folder is returned for queueing, in listing order.
   */
  method Expand(ghost root: Entry, item: Pending, found: seq<FolderEntry>) returns (found': seq<FolderEntry>, subs: seq<Pending>)
    requires |found| < MaxFolders
    requires item.depth < MaxDepth && item.dir.Folder? && item.dir.readable
    requires QueueItemOk(root, item)
    requires AllEntriesOk(root, found)
    ensures |found| <= |found'| <= MaxFolders && found'[..|found|] == found
    ensures AllEntriesOk(root, found')
    ensures AllQueueOk(root, subs)
    ensures PendingSize(subs) < Size(item.dir)
    ensures |found'| < MaxFolders ==> forall i :: 0 <= i < |item.dir.entries| ==> ListedChild(item, i, found', subs)
    ensures |found'| - |found| <= |Collected(item)| && found' == found + Collected(item)[..|found'| - |found|]
    ensures |found'| < MaxFolders ==> found' == found + Collected(item) && subs == Children(item)
  {
    var es := item.dir.entries;
    found' := found;
    subs := [];
    assert PendingSize(subs) == 0;
    var i := 0;
    var stop := false;
    while i < |es| && !stop
      invariant 0 <= i <= |es|
      invariant |found| <= |found'| <= MaxFolders && found'[..|found|] == found
      invariant stop <==> |found'| == MaxFolders
      invariant AllEntriesOk(root, found')
      invariant AllQueueOk(root, subs)
      invariant PendingSize(subs) <= SizeAll(es[..i])
      invariant !stop ==> forall j :: 0 <= j < i ==> ListedChild(item, j, found', subs)
      invariant found' == found + EntriesOf(ChildrenUpTo(item, i), ImagesIn)
      invariant !stop ==> subs == ChildrenUpTo(item, i)
    {
      found', subs, stop := ListEntry(root, item, i, found, found', subs);
      i := i + 1;
    }
    ChildrenPrefix(item, i, |es|);
    EntriesOfPrefix(Children(item), |ChildrenUpTo(item, i)|, ImagesIn);
    SizeAllPrefix(es, i);
    assert Size(item.dir) == 1 + SizeAll(es);
  }

  /** One turn of the inner loop: the `i`-th entry of the listing. */
  method ListEntry(ghost root: Entry, item: Pending, i: int, ghost found: seq<FolderEntry>,
                   found0: seq<FolderEntry>, subs0: seq<Pending>)
    returns (found': seq<FolderEntry>, subs: seq<Pending>, stop: bool)
    requires item.depth < MaxDepth && item.dir.Folder? && item.dir.readable
    requires QueueItemOk(root, item)
    requires 0 <= i < |item.dir.entries|
    requires |found| <= |found0| < MaxFolders && found0[..|found|] == found
    requires AllEntriesOk(root, found0) && AllQueueOk(root, subs0)
    requires PendingSize(subs0) <= SizeAll(item.dir.entries[..i])
    requires forall j :: 0 <= j < i ==> ListedChild(item, j, found0, subs0)
    requires found0 == found + EntriesOf(ChildrenUpTo(item, i), ImagesIn) && subs0 == ChildrenUpTo(item, i)
    ensures |found| <= |found'| <= MaxFolders && found'[..|found|] == found
    ensures stop <==> |found'| == MaxFolders
    ensures AllEntriesOk(root, found') && AllQueueOk(root, subs)
    ensures PendingSize(subs) <= SizeAll(item.dir.entries[..i + 1])
    ensures !stop ==> forall j :: 0 <= j < i + 1 ==> ListedChild(item, j, found', subs)
    ensures found' == found + EntriesOf(ChildrenUpTo(item, i + 1), ImagesIn)
    ensures !stop ==> subs == ChildrenUpTo(item, i + 1)
  {
    var e := item.dir.entries[i];
    SizeAllSnoc(item.dir.entries, i);
    ChildrenNext(item, i);
    if !ShouldSkip(e.name) && e.Folder? {
      found', subs, stop := ListFolder(root, item, i, found, found0, subs0);
      FolderEntries(item, i, found, found0, found', ImagesIn);
    } else {
      found', subs, stop := found0, subs0, false;
      assert ChildrenUpTo(item, i + 1) == ChildrenUpTo(item, i);
      assert ListedChild(item, i, found', subs);
      ListedNext(item, i, found', subs);
    }
  }

  /** The turn for a non-skipped sub-folder: collect it when it has images, then queue it. */
  method ListFolder(ghost root: Entry, item: Pending, i: int, ghost found: seq<FolderEntry>,
                    found0: seq<FolderEntry>, subs0: seq<Pending>)
    returns (found': seq<FolderEntry>, subs: seq<Pending>, stop: bool)
    requires item.depth < MaxDepth && item.dir.Folder? && item.dir.readable
    requires QueueItemOk(root, item)
    requires 0 <= i < |item.dir.entries|
    requires item.dir.entries[i].Folder? && !ShouldSkip(item.dir.entries[i].name)
    requires |found| <= |found0| < MaxFolders && found0[..|found|] == found
    requires AllEntriesOk(root, found0) && AllQueueOk(root, subs0)
    requires forall j :: 0 <= j < i ==> ListedChild(item, j, found0, subs0)
    ensures |found| <= |found'| <= MaxFolders && found'[..|found|] == found
    ensures stop <==> |found'| == MaxFolders
    ensures AllEntriesOk(root, found') && AllQueueOk(root, subs)
    ensures PendingSize(subs) <= PendingSize(subs0) + Size(item.dir.entries[i])
    ensures !stop ==> forall j :: 0 <= j < i + 1 ==> ListedChild(item, j, found', subs)
    ensures var e := item.dir.entries[i];
      found' == found0 + (if |ImagesIn(e)| > 0 then [FolderEntry(item.rel + [e.name], ImagesIn(e))] else [])
    ensures !stop ==> subs == subs0 + [ChildItem(item, i)]
  {
    var e := item.dir.entries[i];
    var rel := item.rel + [e.name];
    var next := Pending(e, rel, item.depth + 1);
    ChildQueueable(root, item, i);
    found', stop := Collect(root, rel, e, found, found0);
    subs := subs0;
    if stop {
      return;
    }
    PendingSnoc(subs, next);
    AllQueueOkSnoc(root, subs, next);
    subs := subs + [next];
    ExtendKeepsMembers(found0, found');
    ExtendKeepsMembers(subs0, subs);
    ListedGrows(item, i, found0, subs0, found', subs);
    assert next in subs;
    assert ListedChild(item, i, found', subs);
    ListedNext(item, i, found', subs);
  }

  /** Appending a reached folder to `found` when it has images; `stop` once the cap is reached. */
  method Collect(ghost root: Entry, rel: seq<string>, e: Entry, ghost found: seq<FolderEntry>, found0: seq<FolderEntry>)
    returns (found': seq<FolderEntry>, stop: bool)
    requires 1 <= |rel| <= MaxDepth && NoSkipped(rel) && Reaches(root, rel, e)
    requires |found| <= |found0| < MaxFolders && found0[..|found|] == found
    requires AllEntriesOk(root, found0)
    ensures |found0| <= |found'| <= MaxFolders && found'[..|found0|] == found0
    ensures found'[..|found|] == found
    ensures stop <==> |found'| == MaxFolders
    ensures AllEntriesOk(root, found')
    ensures |ImagesIn(e)| > 0 ==> found' == found0 + [FolderEntry(rel, ImagesIn(e))]
    ensures |ImagesIn(e)| == 0 ==> found' == found0
  {
    var images := ImagesIn(e);
    found', stop := found0, false;
    if |images| > 0 {
      var f := FolderEntry(rel, images);
      ReportableEntry(root, rel, e);
      AllEntriesOkSnoc(root, found0, f);
      SnocPrefix(found, found0, f);
      found' := found0 + [f];
      stop := |found'| >= MaxFolders;
    }
  }

  lemma SnocPrefix<T>(a: seq<T>, b: seq<T>, x: T)
    requires |a| <= |b| && b[..|a|] == a
    ensures (b + [x])[..|b|] == b && (b + [x])[..|a|] == a && x in b + [x]
  {
    assert (b + [x])[..|a|] == b[..|a|];
    assert (b + [x])[|b|] == x;
  }

  ghost predicate AllEntriesOk(root: Entry, found: seq<FolderEntry>) {
    forall k :: 0 <= k < |found| ==> EntryOk(root, found[k])
  }

  lemma AllEntriesOkSnoc(root: Entry, found: seq<FolderEntry>, f: FolderEntry)
    requires AllEntriesOk(root, found) && EntryOk(root, f)
    ensures AllEntriesOk(root, found + [f])
  {
    var r := found + [f];
    forall k | 0 <= k < |r|
      ensures EntryOk(root, r[k])
    {
      if k < |found| {
        assert r[k] == found[k];
      }
    }
  }

  lemma AllQueueOkSnoc(root: Entry, queue: seq<Pending>, p: Pending)
    requires AllQueueOk(root, queue) && QueueItemOk(root, p)
    ensures AllQueueOk(root, queue + [p])
  {
    var r := queue + [p];
    forall k | 0 <= k < |r|
      ensures QueueItemOk(root, r[k])
    {
      if k < |queue| {
        assert r[k] == queue[k];
      }
    }
  }

  ghost predicate AllQueueOk(root: Entry, queue: seq<Pending>) {
    forall k :: 0 <= k < |queue| ==> QueueItemOk(root, queue[k])
  }

  lemma NoSkippedSnoc(segments: seq<string>, name: string)
    requires NoSkipped(segments) && !ShouldSkip(name)
    ensures NoSkipped(segments + [name])
  {
  }

  /** A non-skipped sub-folder of a listed item may be queued. */
  lemma ChildQueueable(root: Entry, item: Pending, i: int)
    requires item.depth < MaxDepth && item.dir.Folder? && item.dir.readable
    requires QueueItemOk(root, item)
    requires 0 <= i < |item.dir.entries|
    requires item.dir.entries[i].Folder? && !ShouldSkip(item.dir.entries[i].name)
    ensures var e := item.dir.entries[i];
      QueueItemOk(root, Pending(e, item.rel + [e.name], item.depth + 1))
  {
    ReachesChild(root, item.rel, item.dir, i);
    NoSkippedSnoc(item.rel, item.dir.entries[i].name);
  }

  /** Every name `_images_dans_dossier` returns is an image name. */
  lemma ImagesAreImages(e: Entry)
    ensures forall k :: 0 <= k < |ImagesIn(e)| ==> IsImageFile(ImagesIn(e)[k])
  {
    var r := ImagesIn(e);
    forall k | 0 <= k < |r|
      ensures IsImageFile(r[k])
    {
      assert r[k] in r;
    }
  }

  /** A folder reached through non-skipped names within the depth bound, with images, may be reported. */
  lemma ReportableEntry(root: Entry, rel: seq<string>, e: Entry)
    requires 1 <= |rel| <= MaxDepth && NoSkipped(rel) && Reaches(root, rel, e)
    requires |ImagesIn(e)| > 0
    ensures EntryOk(root, FolderEntry(rel, ImagesIn(e)))
  {
    assert FoundIn(root, FolderEntry(rel, ImagesIn(e)));
    ImagesAreImages(e);
  }

  lemma ListedNext(item: Pending, i: int, found: seq<FolderEntry>, subs: seq<Pending>)
    requires item.dir.Folder? && 0 <= i < |item.dir.entries|
    requires forall j :: 0 <= j < i ==> ListedChild(item, j, found, subs)
    requires ListedChild(item, i, found, subs)
    ensures forall j :: 0 <= j < i + 1 ==> ListedChild(item, j, found, subs)
  {
  }

  /** Extending a sequence keeps its members. */
  lemma ExtendKeepsMembers<T>(a: seq<T>, b: seq<T>)
    requires |a| <= |b| && b[..|a|] == a
    ensures forall x :: x in a ==> x in b
  {
    forall x | x in a
      ensures x in b
    {
      var m :| 0 <= m < |a| && a[m] == x;
      assert b[m] == x;
    }
  }

  /** The facts recorded by `ListedChild` survive growing both sequences. */
  lemma ListedGrows(item: Pending, i: int, found: seq<FolderEntry>, subs: seq<Pending>,
                    found': seq<FolderEntry>, subs': seq<Pending>)
    requires item.dir.Folder? && 0 <= i <= |item.dir.entries|
    requires forall x :: x in found ==> x in found'
    requires forall x :: x in subs ==> x in subs'
    requires forall j :: 0 <= j < i ==> ListedChild(item, j, found, subs)
    ensures forall j :: 0 <= j < i ==> ListedChild(item, j, found', subs')
  {
    forall j | 0 <= j < i
      ensures ListedChild(item, j, found', subs')
    {
      assert ListedChild(item, j, found, subs);
      var e := item.dir.entries[j];
      var p := Pending(e, item.rel + [e.name], item.depth + 1);
      assert p in subs ==> p in subs';
      var f := FolderEntry(item.rel + [e.name], ImagesIn(e));
      assert f in found ==> f in found';
    }
  }

  /** The `i`-th entry of the item's listing, if a non-skipped folder, was queued and, if it has images, collected. */
  ghost predicate ListedChild(item: Pending, i: int, found: seq<FolderEntry>, subs: seq<Pending>)
    requires item.dir.Folder? && 0 <= i < |item.dir.entries|
  {
    var e := item.dir.entries[i];
    e.Folder? && !ShouldSkip(e.name) ==>
      && Pending(e, item.rel + [e.name], item.depth + 1) in subs
      && (|ImagesIn(e)| > 0 ==> FolderEntry(item.rel + [e.name], ImagesIn(e)) in found)
  }

  /** The whole scan. */
  method ScanBfs(root: Entry) returns (result: seq<FolderEntry>)
    ensures |result| <= MaxFolders
    ensures forall k :: 0 <= k < |result| ==> EntryOk(root, result[k])
    ensures SortedBy(result, SortKey)
    ensures |result| < MaxFolders ==>
      forall path, d :: Qualifies(root, path, d) ==> FolderEntry(path, ImagesIn(d)) in result
    ensures WellNamed(root) ==> DistinctBy(result, SegmentsOf)
  {
    var found: seq<FolderEntry> := [];
    var queue := [Pending(root, [], 0)];
    InitiallyCovered(root);
    assert AllQueueOk(root, queue) by {
      assert Reaches(root, [], root);
    }
    while |queue| > 0 && |found| < MaxFolders
      invariant |found| <= MaxFolders
      invariant AllEntriesOk(root, found)
      invariant AllQueueOk(root, queue)
      invariant |found| < MaxFolders ==> AllCovered(root, found, queue)
      invariant WellNamed(root) ==> Tidy(found, queue)
      decreases MaxFolders - |found|, PendingSize(queue)
    {
      found, queue := Visit(root, found, queue);
    }
    result := SortBy(found, SortKey);
    SameMembers(result, found);
    EntriesOkPermuted(root, found, result);
    Finish(root, found, queue, result);
    if WellNamed(root) {
      DistinctByPermuted(found, result, SegmentsOf);
    }
  }

  /** Sub-folders of equal priority are queued in listing order. */
  lemma AppendedInListingOrder(rest: seq<Pending>, subs: seq<Pending>)
    ensures forall k :: KeepKey((rest + SortBySmallKey(subs, PriorityOf))[|rest|..], PriorityOf, k) == KeepKey(subs, PriorityOf, k)
  {
    var sorted := SortBySmallKey(subs, PriorityOf);
    assert (rest + sorted)[|rest|..] == sorted;
    forall k {
      SortBySmallKeyStable(subs, PriorityOf, k);
    }
  }

  /** The head of the queue is listed: not at the depth limit, a folder, and readable. */
  predicate CanList(item: Pending) {
    item.depth < MaxDepth && item.dir.Folder? && item.dir.readable
  }

  /** One turn of the outer loop: pop the queue head and, when it may be listed, list it. */
  method Visit(ghost root: Entry, found: seq<FolderEntry>, queue: seq<Pending>)
    returns (found': seq<FolderEntry>, queue': seq<Pending>)
    requires |queue| > 0 && |found| < MaxFolders
    requires AllEntriesOk(root, found) && AllQueueOk(root, queue)
    requires AllCovered(root, found, queue)
    requires WellNamed(root) ==> Tidy(found, queue)
    ensures |found| <= |found'| <= MaxFolders
    ensures AllEntriesOk(root, found') && AllQueueOk(root, queue')
    ensures |found'| < MaxFolders ==> AllCovered(root, found', queue')
    ensures |found'| == |found| ==> PendingSize(queue') < PendingSize(queue)
    ensures WellNamed(root) ==> Tidy(found', queue')
    ensures !CanList(queue[0]) ==> found' == found && queue' == queue[1..]
    ensures CanList(queue[0]) && |found'| < MaxFolders ==>
      && found' == found + Collected(queue[0])
      && queue' == queue[1..] + SortBySmallKey(Children(queue[0]), PriorityOf)
    ensures CanList(queue[0]) && |found'| < MaxFolders ==>
      forall k :: KeepKey(queue'[|queue| - 1..], PriorityOf, k) == KeepKey(Children(queue[0]), PriorityOf, k)
    ensures CanList(queue[0]) && |found'| == MaxFolders ==>
      && |found'| - |found| <= |Collected(queue[0])|
      && found' == found + Collected(queue[0])[..|found'| - |found|]
      && queue' == queue[1..]
  {
    var item := queue[0];
    var rest := queue[1..];
    assert QueueItemOk(root, item);
    PopSize(queue);
    QueueOkTail(root, queue);
    if CanList(item) {
      var subs;
      found', subs := Expand(root, item, found);
      if |found'| < MaxFolders {
        var sorted := SortBySmallKey(subs, PriorityOf);
        SortBySmallKeyWeight(subs, PriorityOf, Weight);
        SumAppend(rest, sorted, Weight);
        SameMembers(sorted, subs);
        ExpandCovers(root, found, queue, found', subs, sorted);
        QueueOkAppend(root, rest, subs, sorted);
        if WellNamed(root) {
          ListedKeepsTidy(root, found, queue, found', sorted);
        }
        queue' := rest + sorted;
        AppendedInListingOrder(rest, subs);
      } else {
        if WellNamed(root) {
          ListedKeepsTidy(root, found, queue, found', []);
          assert rest + [] == rest;
        }
        queue' := rest;
        assert found' == found + Collected(item)[..|found'| - |found|];
      }
    } else {
      if WellNamed(root) {
        DropKeepsTidy(found, queue);
      }
      DropCovers(root, found, queue);
      found', queue' := found, rest;
    }
  }

  lemma EntriesOkPermuted(root: Entry, found: seq<FolderEntry>, result: seq<FolderEntry>)
    requires AllEntriesOk(root, found)
    requires forall x :: x in result <==> x in found
    ensures forall k :: 0 <= k < |result| ==> EntryOk(root, result[k])
  {
    forall k | 0 <= k < |result|
      ensures EntryOk(root, result[k])
    {
      assert result[k] in found;
    }
  }

  lemma PopSize(queue: seq<Pending>)
    requires |queue| > 0
    ensures PendingSize(queue) == Size(queue[0].dir) + PendingSize(queue[1..])
  {
    assert queue == [queue[0]] + queue[1..];
    SumAppend([queue[0]], queue[1..], Weight);
    assert [queue[0]][..0] == [];
  }

  lemma QueueOkTail(root: Entry, queue: seq<Pending>)
    requires |queue| > 0 && AllQueueOk(root, queue)
    ensures AllQueueOk(root, queue[1..])
  {
    forall k | 0 <= k < |queue[1..]|
      ensures QueueItemOk(root, queue[1..][k])
    {
      assert queue[1..][k] == queue[k + 1];
    }
  }

  /** Appending a permutation of items that are all well formed. */
  lemma QueueOkAppend(root: Entry, rest: seq<Pending>, subs: seq<Pending>, sorted: seq<Pending>)
    requires AllQueueOk(root, rest) && AllQueueOk(root, subs)
    requires forall x :: x in sorted <==> x in subs
    ensures AllQueueOk(root, rest + sorted)
  {
    var r := rest + sorted;
    forall k | 0 <= k < |r|
      ensures QueueItemOk(root, r[k])
    {
      if k < |rest| {
        assert r[k] == rest[k];
      } else {
        assert r[k] == sorted[k - |rest|];
        assert r[k] in subs;
      }
    }
  }

  /** When the loop ends below the cap the queue is empty, so everything qualifying was collected. */
  lemma Finish(root: Entry, found: seq<FolderEntry>, queue: seq<Pending>, result: seq<FolderEntry>)
    requires !(|queue| > 0 && |found| < MaxFolders)
    requires |found| < MaxFolders ==> AllCovered(root, found, queue)
    requires forall x :: x in result <==> x in found
    requires |result| == |found|
    ensures |result| < MaxFolders ==>
      forall path, d :: Qualifies(root, path, d) ==> FolderEntry(path, ImagesIn(d)) in result
  {
    if |result| < MaxFolders {
      forall path, d | Qualifies(root, path, d)
        ensures FolderEntry(path, ImagesIn(d)) in result
      {
        assert !Covered(queue, path, d);
      }
    }
  }

  lemma InitiallyCovered(root: Entry)
    ensures AllCovered(root, [], [Pending(root, [], 0)])
  {
    var q := [Pending(root, [], 0)];
    forall path, d | Qualifies(root, path, d)
      ensures Covered(q, path, d)
    {
      assert path[0..] == path;
      assert Below(q[0], path, d);
    }
  }

  /** Dropping a queue head that cannot be listed loses no qualifying folder. */
  lemma DropCovers(root: Entry, found: seq<FolderEntry>, queue: seq<Pending>)
    requires |queue| > 0 && QueueItemOk(root, queue[0])
    requires !(queue[0].depth < MaxDepth && queue[0].dir.Folder? && queue[0].dir.readable)
    requires AllCovered(root, found, queue)
    ensures AllCovered(root, found, queue[1..])
  {
    forall path, d | Qualifies(root, path, d) && FolderEntry(path, ImagesIn(d)) !in found
      ensures Covered(queue[1..], path, d)
    {
      var k :| 0 <= k < |queue| && Below(queue[k], path, d);
      NothingBelowUnlisted(root, queue[0], path, d);
      CoveredByRest(queue, [], k, path, d);
      assert queue[1..] + [] == queue[1..];
    }
  }

  /** A queue item at the depth limit, or one that cannot be listed, has no qualifying folder below it. */
  lemma NothingBelowUnlisted(root: Entry, item: Pending, path: seq<string>, d: Entry)
    requires QueueItemOk(root, item)
    requires !(item.depth < MaxDepth && item.dir.Folder? && item.dir.readable)
    requires Qualifies(root, path, d)
    ensures !Below(item, path, d)
  {
  }

  /** A folder below a queue item other than the head stays covered once the head is popped. */
  lemma CoveredByRest(queue: seq<Pending>, sorted: seq<Pending>, k: int, path: seq<string>, d: Entry)
    requires 0 < k < |queue| && Below(queue[k], path, d)
    ensures Covered(queue[1..] + sorted, path, d)
  {
    assert (queue[1..] + sorted)[k - 1] == queue[k];
  }

  /** A folder below a newly queued item is covered. */
  lemma CoveredBySorted(rest: seq<Pending>, subs: seq<Pending>, sorted: seq<Pending>, path: seq<string>, d: Entry)
    requires exists s :: 0 <= s < |subs| && Below(subs[s], path, d)
    requires forall x :: x in sorted <==> x in subs
    ensures Covered(rest + sorted, path, d)
  {
    var s :| 0 <= s < |subs| && Below(subs[s], path, d);
    assert subs[s] in sorted;
    var t :| 0 <= t < |sorted| && sorted[t] == subs[s];
    assert (rest + sorted)[|rest| + t] == sorted[t];
  }

  /** Listing the queue head moves every qualifying folder below it into `found` or below a new item. */
  lemma ExpandCovers(root: Entry, found: seq<FolderEntry>, queue: seq<Pending>,
                     found': seq<FolderEntry>, subs: seq<Pending>, sorted: seq<Pending>)
    requires |queue| > 0 && QueueItemOk(root, queue[0])
    requires queue[0].dir.Folder? && queue[0].dir.readable
    requires AllCovered(root, found, queue)
    requires |found| <= |found'| && found'[..|found|] == found
    requires forall i :: 0 <= i < |queue[0].dir.entries| ==> ListedChild(queue[0], i, found', subs)
    requires forall x :: x in sorted <==> x in subs
    ensures AllCovered(root, found', queue[1..] + sorted)
  {
    var next := queue[1..] + sorted;
    ExtendKeepsMembers(found, found');
    forall path, d | Qualifies(root, path, d)
      ensures FolderEntry(path, ImagesIn(d)) in found' || Covered(next, path, d)
    {
      CoveredAfter(root, found, queue, found', subs, sorted, path, d);
    }
  }

  /** `ExpandCovers` for one qualifying folder. */
  lemma CoveredAfter(root: Entry, found: seq<FolderEntry>, queue: seq<Pending>,
                     found': seq<FolderEntry>, subs: seq<Pending>, sorted: seq<Pending>,
                     path: seq<string>, d: Entry)
    requires |queue| > 0 && QueueItemOk(root, queue[0])
    requires queue[0].dir.Folder? && queue[0].dir.readable
    requires FolderEntry(path, ImagesIn(d)) in found || Covered(queue, path, d)
    requires forall x :: x in found ==> x in found'
    requires forall i :: 0 <= i < |queue[0].dir.entries| ==> ListedChild(queue[0], i, found', subs)
    requires forall x :: x in sorted <==> x in subs
    requires Qualifies(root, path, d)
    ensures FolderEntry(path, ImagesIn(d)) in found' || Covered(queue[1..] + sorted, path, d)
  {
    if FolderEntry(path, ImagesIn(d)) !in found' {
      var k :| 0 <= k < |queue| && Below(queue[k], path, d);
      if k > 0 {
        CoveredByRest(queue, sorted, k, path, d);
      } else {
        assert !ShouldSkip(path[|queue[0].rel|]);
        BelowHead(queue[0], path, d, found', subs);
        CoveredBySorted(queue[1..], subs, sorted, path, d);
      }
    }
  }

  /**
   A qualifying folder strictly below a listed item is one of its children,
   collected, or lies below one of the children queued.
   */
  lemma BelowHead(item: Pending, path: seq<string>, d: Entry, found': seq<FolderEntry>, subs: seq<Pending>)
    requires item.dir.Folder? && item.dir.readable
    requires Below(item, path, d) && !ShouldSkip(path[|item.rel|]) && |ImagesIn(d)| > 0
    requires forall i :: 0 <= i < |item.dir.entries| ==> ListedChild(item, i, found', subs)
    ensures FolderEntry(path, ImagesIn(d)) in found' || exists s :: 0 <= s < |subs| && Below(subs[s], path, d)
  {
    var i := FirstStep(item, path, d);
    assert ListedChild(item, i, found', subs);
    if |path| == |item.rel| + 1 {
      ChildIsCollected(item, i, path, d, found', subs);
    } else {
      ChildIsQueued(item, i, path, d, found', subs);
    }
  }

  /** The child of a listed item through which a folder below it is reached. */
  lemma FirstStep(item: Pending, path: seq<string>, d: Entry) returns (i: int)
    requires item.dir.Folder? && item.dir.readable
    requires Below(item, path, d)
    ensures 0 <= i < |item.dir.entries|
    ensures var c := item.dir.entries[i];
      && c.Folder? && c.name == path[|item.rel|]
      && path[..|item.rel| + 1] == item.rel + [c.name]
      && Reaches(c, path[|item.rel| + 1..], d)
  {
    var n := |item.rel|;
    var suffix := path[n..];
    i :| 0 <= i < |item.dir.entries| && ChildStep(item.dir.entries[i], suffix, d);
    var c := item.dir.entries[i];
    assert suffix[1..] == path[n + 1..];
    assert path[..n + 1] == path[..n] + [path[n]];
  }

  lemma ChildIsCollected(item: Pending, i: int, path: seq<string>, d: Entry, found': seq<FolderEntry>, subs: seq<Pending>)
    requires item.dir.Folder? && 0 <= i < |item.dir.entries|
    requires ListedChild(item, i, found', subs)
    requires |path| == |item.rel| + 1 && path == item.rel + [item.dir.entries[i].name]
    requires item.dir.entries[i].Folder? && !ShouldSkip(item.dir.entries[i].name)
    requires Reaches(item.dir.entries[i], [], d) && |ImagesIn(d)| > 0
    ensures FolderEntry(path, ImagesIn(d)) in found'
  {
  }

  lemma ChildIsQueued(item: Pending, i: int, path: seq<string>, d: Entry, found': seq<FolderEntry>, subs: seq<Pending>)
    requires item.dir.Folder? && 0 <= i < |item.dir.entries|
    requires ListedChild(item, i, found', subs)
    requires |path| > |item.rel| + 1 && path[..|item.rel| + 1] == item.rel + [item.dir.entries[i].name]
    requires item.dir.entries[i].Folder? && !ShouldSkip(item.dir.entries[i].name)
    requires Reaches(item.dir.entries[i], path[|item.rel| + 1..], d)
    ensures exists s :: 0 <= s < |subs| && Below(subs[s], path, d)
  {
    var c := item.dir.entries[i];
    var p := Pending(c, item.rel + [c.name], item.depth + 1);
    assert p in subs;
    assert Below(p, path, d);
    var s :| 0 <= s < |subs| && subs[s] == p;
  }
}
