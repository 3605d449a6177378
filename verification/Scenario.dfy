/**
 A small home folder: `Pictures/a.jpg`, `Pictures/sub/AppData/b.png` and
 `Documents/c.gif`, and what the scan's contract says about it.
 */
module Scenario {
  import opened Text
  import opened Sorting
  import opened Classifier
  import opened FileTree
  import opened Scanner

  const Documents: Entry := Folder("Documents", true, [File("c.gif")])
  const AppData: Entry := Folder("AppData", true, [File("b.png")])
  const Sub: Entry := Folder("sub", true, [AppData])
  const Pictures: Entry := Folder("Pictures", true, [File("a.jpg"), Sub])
  const Home: Entry := Folder("home", true, [Pictures, Documents])

  lemma DocumentsNotIgnored()
    ensures "documents" !in IgnoredFolders
  {
  }

  lemma DocumentsNotSkipped()
    ensures !ShouldSkip("Documents")
  {
    LowerDocuments();
    DocumentsNotIgnored();
    SkipExactly("Documents");
  }

  lemma LowerDocuments()
    ensures Lower("Documents") == "documents"
  {
  }

  lemma GifIsImage()
    ensures IsImageFile("c.gif")
  {
    assert Lower("c.gif") == "c.gif";
    assert EndsWith("c.gif", ImageExtensions[3]);
  }

  lemma DocumentsHasImages()
    ensures |ImagesIn(Documents)| > 0
  {
    GifIsImage();
    assert Names(Documents.entries)[0] == "c.gif";
    assert "c.gif" in ImagesIn(Documents);
  }

  /** A top-level folder with images and a scanned name qualifies. */
  lemma TopLevelQualifies(root: Entry, i: int)
    requires root.Folder? && root.readable && 0 <= i < |root.entries|
    requires root.entries[i].Folder? && !ShouldSkip(root.entries[i].name)
    requires |ImagesIn(root.entries[i])| > 0
    ensures Qualifies(root, [root.entries[i].name], root.entries[i])
  {
    var c := root.entries[i];
    ReachesChild(root, [], root, i);
    NoSkippedSnoc([], c.name);
    assert [] + [c.name] == [c.name];
  }

  /**
   `Documents` holds `c.gif`, an allowed image, so it must be reported
   whenever the scan is not cut short by the cap.
   */
  lemma DocumentsQualifies()
    ensures Qualifies(Home, ["Documents"], Documents)
  {
    DocumentsNotSkipped();
    DocumentsHasImages();
    TopLevelQualifies(Home, 1);
  }

  /** No folder reached through `AppData` can be reported. */
  lemma NothingUnderAppData(path: seq<string>, d: Entry)
    requires "AppData" in path
    ensures !Qualifies(Home, path, d)
  {
    AppDataSkipped();
    var j :| 0 <= j < |path| && path[j] == "AppData";
    assert ShouldSkip(path[j]);
  }

  lemma DocumentsImages()
    ensures ImagesIn(Documents) == ["c.gif"]
  {
    GifIsImage();
    var names := Names(Documents.entries);
    assert names == ["c.gif"];
    assert ImageNames(names) == ["c.gif"] by {
      assert names[1..] == [];
    }
    var r := ImagesIn(Documents);
    assert multiset(r) == multiset{"c.gif"};
    assert |r| == 1;
    assert r[0] in multiset(r);
  }

  /** A name whose last character, lower-cased, ends no allowed extension is not an image. */
  lemma NotImageByLastChar(name: string)
    requires |name| > 0 && LowerChar(name[|name| - 1]) !in {'g', 'f', 'p'}
    ensures !IsImageFile(name)
  {
    var n := Lower(name);
    forall k | 0 <= k < |ImageExtensions|
      ensures !EndsWith(n, ImageExtensions[k])
    {
      var e := ImageExtensions[k];
      if |e| <= |n| {
        assert n[|n| - 1] != e[|e| - 1];
      }
    }
  }

  lemma JpgIsImage()
    ensures IsImageFile("a.jpg")
  {
    assert Lower("a.jpg") == "a.jpg";
    assert EndsWith("a.jpg", ImageExtensions[0]);
  }

  lemma PicturesImages()
    ensures ImagesIn(Pictures) == ["a.jpg"]
  {
    JpgIsImage();
    NotImageByLastChar("sub");
    var names := Names(Pictures.entries);
    assert names == ["a.jpg", "sub"];
    assert ImageNames(names) == ["a.jpg"] by {
      assert names[1..] == ["sub"];
      assert names[1..][1..] == [];
    }
    var r := ImagesIn(Pictures);
    assert multiset(r) == multiset{"a.jpg"};
    assert |r| == 1;
    assert r[0] in multiset(r);
  }

  /** `sub` holds only the folder `AppData`, whose name is no image. */
  lemma SubImages()
    ensures ImagesIn(Sub) == []
  {
    NotImageByLastChar("AppData");
    assert Names(Sub.entries) == ["AppData"];
  }

  lemma PicturesQualifies()
    ensures Qualifies(Home, ["Pictures"], Pictures)
  {
    PicturesNotSkipped();
    PicturesImages();
    TopLevelQualifies(Home, 0);
  }

  /** Every listing of the example has unique names. */
  lemma HomeWellNamed()
    ensures WellNamed(Home)
  {
    assert WellNamed(AppData);
    assert WellNamed(Sub);
    assert WellNamed(Documents);
    assert WellNamed(Pictures);
  }

  // The folders of the example, path by path.

  lemma UnderDocuments(p: seq<string>, d: Entry)
    ensures Reaches(Documents, p, d) ==> p == [] && d == Documents
  {
    if |p| > 0 {
      assert Documents.entries == [File("c.gif")];
      assert !ChildStep(Documents.entries[0], p, d);
    }
  }

  lemma UnderSub(p: seq<string>, d: Entry)
    ensures Reaches(Sub, p, d) ==> (p == [] && d == Sub) || (|p| > 0 && p[0] == "AppData")
  {
    if |p| > 0 && Reaches(Sub, p, d) {
      var i :| 0 <= i < |Sub.entries| && ChildStep(Sub.entries[i], p, d);
      assert Sub.entries[i] == AppData;
    }
  }

  lemma UnderPictures(p: seq<string>, d: Entry)
    ensures Reaches(Pictures, p, d) ==>
      || (p == [] && d == Pictures)
      || (p == ["sub"] && d == Sub)
      || (|p| > 1 && p[0] == "sub" && p[1] == "AppData")
  {
    if |p| > 0 && Reaches(Pictures, p, d) {
      var i :| 0 <= i < |Pictures.entries| && ChildStep(Pictures.entries[i], p, d);
      assert Pictures.entries[i] == Sub;
      UnderSub(p[1..], d);
      if |p| == 1 {
        assert p == [p[0]];
      } else {
        assert p[1..][0] == p[1];
      }
    }
  }

  lemma UnderHome(p: seq<string>, d: Entry)
    ensures Reaches(Home, p, d) && |p| > 0 ==>
      || (p[0] == "Pictures" && Reaches(Pictures, p[1..], d))
      || (p[0] == "Documents" && Reaches(Documents, p[1..], d))
  {
    if |p| > 0 && Reaches(Home, p, d) {
      var i :| 0 <= i < |Home.entries| && ChildStep(Home.entries[i], p, d);
      assert Home.entries[i] == Pictures || Home.entries[i] == Documents;
    }
  }

  /** The folders of the example reached by a path that avoids `AppData`. */
  lemma HomeFolders(p: seq<string>, d: Entry)
    requires |p| >= 1 && "AppData" !in p && Reaches(Home, p, d)
    ensures || (p == ["Documents"] && d == Documents)
            || (p == ["Pictures"] && d == Pictures)
            || (p == ["Pictures", "sub"] && d == Sub)
  {
    var q := p[1..];
    assert p == [p[0]] + q;
    UnderHome(p, d);
    if p[0] == "Pictures" {
      assert "AppData" !in q by {
        forall j | 0 <= j < |q|
          ensures q[j] != "AppData"
        {
          assert q[j] == p[j + 1];
        }
      }
      PicturesFolders(q, d);
      if q == [] {
        assert p == ["Pictures"];
      } else {
        assert p == ["Pictures", "sub"];
      }
    } else {
      UnderDocuments(q, d);
      assert p == ["Documents"];
    }
  }

  /** Below `Pictures`, only `sub` is reached without going through `AppData`. */
  lemma PicturesFolders(q: seq<string>, d: Entry)
    ensures Reaches(Pictures, q, d) && "AppData" !in q ==> (q == [] && d == Pictures) || (q == ["sub"] && d == Sub)
  {
    UnderPictures(q, d);
  }

  /** A path of non-skipped names never goes through `AppData`. */
  lemma NothingThroughAppData(segments: seq<string>)
    requires NoSkipped(segments)
    ensures "AppData" !in segments
  {
    AppDataSkipped();
    forall j | 0 <= j < |segments|
      ensures segments[j] != "AppData"
    {
      assert !ShouldSkip(segments[j]);
    }
  }

  /** The only folders of the example the scan may report. */
  lemma Candidates(f: FolderEntry)
    requires EntryOk(Home, f)
    ensures f == FolderEntry(["Documents"], ["c.gif"]) || f == FolderEntry(["Pictures"], ["a.jpg"])
  {
    var d :| Reaches(Home, f.segments, d) && f.images == ImagesIn(d);
    NothingThroughAppData(f.segments);
    HomeFolders(f.segments, d);
    DocumentsImages();
    PicturesImages();
    SubImages();
  }

  /** Two candidates and no repeated path: at most two entries. */
  lemma AtMostTwo(r: seq<FolderEntry>, a: FolderEntry, b: FolderEntry)
    requires a != b
    requires forall k :: 0 <= k < |r| ==> r[k] == a || r[k] == b
    requires DistinctBy(r, SegmentsOf)
    ensures |r| <= 2
  {
    CountAtMostOne(r, SegmentsOf);
    CountTwo(r, a, b);
  }

  /** A sequence drawn from two values is as long as their two counts together. */
  lemma {:induction false} CountTwo(r: seq<FolderEntry>, a: FolderEntry, b: FolderEntry)
    requires a != b
    requires forall k :: 0 <= k < |r| ==> r[k] == a || r[k] == b
    ensures |r| == multiset(r)[a] + multiset(r)[b]
    decreases |r|
  {
    if |r| > 0 {
      var init := r[..|r| - 1];
      assert r == init + [r[|r| - 1]];
      assert forall k :: 0 <= k < |init| ==> init[k] == r[k];
      CountTwo(init, a, b);
    }
  }

  lemma KeysOfHome()
    ensures SortKey(FolderEntry(["Documents"], ["c.gif"])) == "documents"
    ensures SortKey(FolderEntry(["Pictures"], ["a.jpg"])) == "pictures"
    ensures !Leq("pictures", "documents")
  {
    LowerDocuments();
    LowerPictures();
  }

  /** Both candidates present, no path twice, sorted: exactly the two, `Documents` first. */
  lemma ExactlyTheTwo(r: seq<FolderEntry>)
    requires forall k :: 0 <= k < |r| ==>
      r[k] == FolderEntry(["Documents"], ["c.gif"]) || r[k] == FolderEntry(["Pictures"], ["a.jpg"])
    requires DistinctBy(r, SegmentsOf) && SortedBy(r, SortKey)
    requires FolderEntry(["Documents"], ["c.gif"]) in r && FolderEntry(["Pictures"], ["a.jpg"]) in r
    ensures r == [FolderEntry(["Documents"], ["c.gif"]), FolderEntry(["Pictures"], ["a.jpg"])]
  {
    var docs := FolderEntry(["Documents"], ["c.gif"]);
    var pics := FolderEntry(["Pictures"], ["a.jpg"]);
    AtMostTwo(r, docs, pics);
    KeysOfHome();
    assert |r| == 2 ==> SegmentsOf(r[0]) != SegmentsOf(r[1]) && Leq(SortKey(r[0]), SortKey(r[1]));
  }

  /**
   Scanning this home folder reports exactly `Documents` with `c.gif` and
   `Pictures` with `a.jpg`, in that order: `sub` holds no image and
   `AppData` is never entered.
   */
  method ScanHome() returns (result: seq<FolderEntry>)
    ensures result == [FolderEntry(["Documents"], ["c.gif"]), FolderEntry(["Pictures"], ["a.jpg"])]
  {
    result := ScanBfs(Home);
    HomeWellNamed();
    forall k | 0 <= k < |result|
      ensures result[k] == FolderEntry(["Documents"], ["c.gif"]) || result[k] == FolderEntry(["Pictures"], ["a.jpg"])
    {
      Candidates(result[k]);
    }
    AtMostTwo(result, FolderEntry(["Documents"], ["c.gif"]), FolderEntry(["Pictures"], ["a.jpg"]));
    DocumentsQualifies();
    DocumentsImages();
    PicturesQualifies();
    PicturesImages();
    ExactlyTheTwo(result);
  }
}
