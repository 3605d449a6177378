/**
 An in-memory directory tree standing in for the disk that `os.listdir` and
 `os.path.isdir` look at, and `_images_dans_dossier` on it.
 */
module FileTree {
  import opened Text
  import opened Sorting
  import opened Classifier

  /**
   A directory entry. A folder's `entries` are its listing in the order
   `os.listdir` returns it; `readable == false` stands for a listing that
   raises `PermissionError`/`OSError`.
   */
  datatype Entry =
    | File(name: string)
    | Folder(name: string, readable: bool, entries: seq<Entry>)

  /** No two entries of a listing share a name. */
  ghost predicate UniqueNames(es: seq<Entry>) {
    forall i, j :: 0 <= i < j < |es| ==> es[i].name != es[j].name
  }

  /**
   Every listing in the tree has unique names, as every directory on a
   real file system does.
   */
  ghost predicate WellNamed(e: Entry)
    decreases e
  {
    e.Folder? ==> UniqueNames(e.entries) && forall i :: 0 <= i < |e.entries| ==> WellNamed(e.entries[i])
  }

  /** The number of entries in the tree below and including `e`. */
  function Size(e: Entry): nat
    decreases e
  {
    match e
    case File(_) => 1
    case Folder(_, _, es) => 1 + SizeAll(es)
  }

  function SizeAll(es: seq<Entry>): nat
    decreases es
  {
    if |es| == 0 then 0 else SizeAll(es[..|es| - 1]) + Size(es[|es| - 1])
  }

  /** The names of a listing, in listing order. */
  function Names(es: seq<Entry>): (r: seq<string>)
    ensures |r| == |es| && forall i :: 0 <= i < |es| ==> r[i] == es[i].name
  {
    seq(|es|, i requires 0 <= i < |es| => es[i].name)
  }

  /** The names accepted by `_fichier_image`, in their original order. */
  function ImageNames(names: seq<string>): (r: seq<string>)
    ensures forall n :: n in r <==> n in names && IsImageFile(n)
    ensures forall n :: multiset(r)[n] == if IsImageFile(n) then multiset(names)[n] else 0
    decreases |names|
  {
    if |names| == 0 then []
    else
      assert names == [names[0]] + names[1..];
      (if IsImageFile(names[0]) then [names[0]] else []) + ImageNames(names[1..])
  }

  /** The filter works name by name, so it keeps the listing order. */
  lemma {:induction false} ImageNamesAppend(a: seq<string>, b: seq<string>)
    ensures ImageNames(a + b) == ImageNames(a) + ImageNames(b)
    decreases |a|
  {
    if |a| > 0 {
      assert (a + b)[1..] == a[1..] + b;
      ImageNamesAppend(a[1..], b);
    } else {
      assert a + b == b;
    }
  }

  /**
   `_images_dans_dossier`: the sorted image names directly inside a folder,
   or nothing for a file or an unreadable folder. Every name of the listing
   is considered, sub-folder names included.
   */
  function ImagesIn(e: Entry): (r: seq<string>)
    ensures SortedBy(r, n => n)
    ensures forall n :: n in r <==> e.Folder? && e.readable && n in Names(e.entries) && IsImageFile(n)
    ensures e.Folder? && e.readable ==> multiset(r) == multiset(ImageNames(Names(e.entries)))
    ensures !(e.Folder? && e.readable) ==> r == []
  {
    if e.Folder? && e.readable then
      var images := ImageNames(Names(e.entries));
      var sorted := SortBy(images, n => n);
      SameMembers(sorted, images);
      sorted
    else []
  }

  /**
   `target` is the entry reached from `e` by following the folder names of
   `path`, one listing at a time, each listing on the way being readable.
   */
  ghost predicate Reaches(e: Entry, path: seq<string>, target: Entry)
    decreases |path|
  {
    if |path| == 0 then target == e
    else
      && e.Folder? && e.readable
      && exists i :: 0 <= i < |e.entries| && ChildStep(e.entries[i], path, target)
  }

  ghost predicate ChildStep(c: Entry, path: seq<string>, target: Entry)
    requires |path| > 0
    decreases |path|, 0
  {
    c.Folder? && c.name == path[0] && Reaches(c, path[1..], target)
  }

  /** Reaching a readable folder, then one of its sub-folders. */
  lemma {:induction false} ReachesChild(e: Entry, path: seq<string>, d: Entry, i: int)
    requires Reaches(e, path, d)
    requires d.Folder? && d.readable && 0 <= i < |d.entries| && d.entries[i].Folder?
    ensures Reaches(e, path + [d.entries[i].name], d.entries[i])
    decreases |path|
  {
    var c := d.entries[i];
    if |path| == 0 {
      assert ([c.name])[1..] == [];
      assert ChildStep(c, [c.name], c);
    } else {
      var j :| 0 <= j < |e.entries| && ChildStep(e.entries[j], path, d);
      ReachesChild(e.entries[j], path[1..], d, i);
      assert (path + [c.name])[1..] == path[1..] + [c.name];
      assert ChildStep(e.entries[j], path + [c.name], c);
    }
  }

  /** Splitting a path: reaching `d` by `path`, then `target` from `d` by `rest`. */
  lemma {:induction false} ReachesSplit(e: Entry, path: seq<string>, rest: seq<string>, target: Entry)
    requires Reaches(e, path + rest, target)
    ensures exists d :: Reaches(e, path, d) && Reaches(d, rest, target)
    decreases |path|
  {
    if |path| == 0 {
      assert path + rest == rest;
    } else {
      var j :| 0 <= j < |e.entries| && ChildStep(e.entries[j], path + rest, target);
      var c := e.entries[j];
      assert (path + rest)[1..] == path[1..] + rest;
      ReachesSplit(c, path[1..], rest, target);
      var d :| Reaches(c, path[1..], d) && Reaches(d, rest, target);
      assert ChildStep(c, path, d);
    }
  }

  /** Every folder reached in a well-named tree is itself well named. */
  lemma {:induction false} ReachesWellNamed(e: Entry, path: seq<string>, d: Entry)
    requires WellNamed(e) && Reaches(e, path, d)
    ensures WellNamed(d)
    decreases |path|
  {
    if |path| > 0 {
      var j :| 0 <= j < |e.entries| && ChildStep(e.entries[j], path, d);
      ReachesWellNamed(e.entries[j], path[1..], d);
    }
  }
}
