/**
 Name predicates of the gallery: which file names are images, which folder
 names are skipped during the scan, and the exploration priority of a folder.
 */
module Classifier {
  import opened Text

  /** Allow-listed image extensions, compared against the lower-cased name. */
  const ImageExtensions: seq<string> := [".jpg", ".jpeg", ".png", ".gif", ".webp"]

  /** System and cache folders kept out of the gallery (already lower-case). */
  const IgnoredFolders: set<string> := {
    "appdata", "application data", "local", "roaming", "locallow",
    "cache", "caches", ".cache", "temp", "tmp", ".tmp",
    "program data", "program files", "program files (x86)",
    "windows", "system volume information", "$recycle.bin",
    "node_modules", ".git", ".svn", "__pycache__"
  }

  /** Folder names explored first (priority 0). */
  const PhotoFolders: set<string> := {"pictures", "photos", "images", "mes images", "photo", "image"}

  /** Prefixes that also give priority 0. */
  const PhotoPrefixes: seq<string> := ["pic", "photo", "image"]

  /** Usual user folders (priority 1). */
  const UserFolders: set<string> := {"desktop", "bureau", "documents", "downloads", "téléchargements"}

  /** `s.endswith(suffixes)` with a tuple of suffixes. */
  function EndsWithAny(s: string, suffixes: seq<string>): (r: bool)
    ensures r <==> exists k :: 0 <= k < |suffixes| && EndsWith(s, suffixes[k])
    decreases |suffixes|
  {
    if |suffixes| == 0 then false
    else EndsWith(s, suffixes[0]) || EndsWithAny(s, suffixes[1..])
  }

  /** `_fichier_image`: the lower-cased name ends with an allowed extension. */
  function IsImageFile(name: string): (r: bool)
    ensures r <==> exists k :: 0 <= k < |ImageExtensions| && EndsWith(Lower(name), ImageExtensions[k])
  {
    EndsWithAny(Lower(name), ImageExtensions)
  }

  /** `_ignorer_dossier`: the lower-cased, stripped name starts with a dot or is a system folder. */
  predicate ShouldSkip(name: string) {
    var n := Strip(Lower(name));
    StartsWith(n, ".") || n in IgnoredFolders
  }

  /** A lower-cased name that is a photo folder or starts like one. */
  predicate PhotoLike(n: string) {
    n in PhotoFolders || StartsWithAny(n, PhotoPrefixes)
  }

  /** `s.startswith(prefixes)` with a tuple of prefixes. */
  function StartsWithAny(s: string, prefixes: seq<string>): (r: bool)
    ensures r <==> exists k :: 0 <= k < |prefixes| && StartsWith(s, prefixes[k])
    decreases |prefixes|
  {
    if |prefixes| == 0 then false
    else StartsWith(s, prefixes[0]) || StartsWithAny(s, prefixes[1..])
  }

  /** `_priorite_dossier`: 0 for photo folders, 1 for user folders, 2 otherwise. */
  function Priority(name: string): (r: nat)
    ensures r <= 2
    ensures r == 0 <==> PhotoLike(Lower(name))
    ensures r == 1 <==> Lower(name) in UserFolders
  {
    var n := Lower(name);
    UserFoldersNotPhotoLike(n);
    assert StartsWithAny(n, PhotoPrefixes)
      <==> StartsWith(n, "pic") || StartsWith(n, "photo") || StartsWith(n, "image");
    if n in PhotoFolders then 0
    else if n in UserFolders then 1
    else if StartsWith(n, "pic") || StartsWith(n, "photo") || StartsWith(n, "image") then 0
    else 2
  }

  lemma UserFoldersNotPhotoLike(n: string)
    ensures n in UserFolders ==> !PhotoLike(n)
  {
    if n in UserFolders {
      assert n[0] != 'p' && n[0] != 'i';
    }
  }

  // Properties of the name predicates.

  /** Upper-case extensions are accepted: `A.JPG` is an image. */
  lemma UpperCaseExtensionIsImage()
    ensures IsImageFile("A.JPG")
  {
    assert Lower("A.JPG") == "a.jpg";
    assert EndsWith("a.jpg", ImageExtensions[0]);
  }

  /** A name without an allowed extension is not an image. */
  lemma TextFileIsNotImage()
    ensures !IsImageFile("a.txt")
  {
    var n := Lower("a.txt");
    assert n == "a.txt";
    forall k | 0 <= k < |ImageExtensions|
      ensures !EndsWith(n, ImageExtensions[k])
    {
      var e := ImageExtensions[k];
      if |e| <= |n| {
        assert n[|n| - 1] == 't' != e[|e| - 1];
      }
    }
  }

  /** Only the lower-cased name matters. */
  lemma ImageCaseInsensitive(name: string)
    ensures IsImageFile(Lower(name)) == IsImageFile(name)
  {
    LowerIdempotent(name);
  }

  /** An image name contains a dot, four characters from its end or closer. */
  lemma ImageNameHasDot(name: string)
    requires IsImageFile(name)
    ensures exists i :: |name| - 5 <= i <= |name| - 4 && 0 <= i && name[i] == '.'
  {
    var k :| 0 <= k < |ImageExtensions| && EndsWith(Lower(name), ImageExtensions[k]);
    var ext := ImageExtensions[k];
    var i := |name| - |ext|;
    assert Lower(name)[i..][0] == ext[0] == '.';
    assert LowerChar(name[i]) == '.';
  }

  /** A folder whose name begins with a dot is never scanned. */
  lemma DotFolderSkipped(name: string)
    requires |name| > 0 && name[0] == '.'
    ensures ShouldSkip(name)
  {
    var l := Lower(name);
    assert l[0] == '.';
    var t := TrimLeft(l);
    assert t == l;
    var n := TrimRight(t);
    assert |n| > 0;
    assert n[0] == '.';
  }

  /**
   For a name without surrounding whitespace, skipping is exactly: a leading
   dot, or a lower-cased name on the deny-list.
   */
  lemma SkipExactly(name: string)
    requires |name| > 0 && !IsSpace(name[0]) && !IsSpace(name[|name| - 1])
    ensures ShouldSkip(name) <==> name[0] == '.' || Lower(name) in IgnoredFolders
  {
    var n := Lower(name);
    LowerKeepsSpace(name[0]);
    LowerKeepsSpace(name[|name| - 1]);
    StripUnpadded(n);
    assert StartsWith(n, ".") <==> n[0] == '.';
  }

  /** Every deny-listed folder is skipped, whatever its capitalisation. */
  lemma IgnoredFolderSkipped(name: string)
    requires Lower(name) in IgnoredFolders
    ensures ShouldSkip(name)
  {
    var n := Lower(name);
    assert !IsSpace(n[0]) && !IsSpace(n[|n| - 1]);
    StripUnpadded(n);
  }

  /** Skipping ignores case and surrounding whitespace. */
  lemma SkipIgnoresCaseAndPadding(name: string, c: char)
    requires IsSpace(c)
    ensures ShouldSkip(Lower(name)) == ShouldSkip(name)
    ensures ShouldSkip([c] + name) == ShouldSkip(name)
    ensures ShouldSkip(name + [c]) == ShouldSkip(name)
  {
    LowerIdempotent(name);
    LowerKeepsSpace(c);
    LowerConcat([c], name);
    LowerConcat(name, [c]);
    assert Lower([c]) == [LowerChar(c)];
    StripPadding(Lower(name), LowerChar(c));
  }

  /** `AppData` is skipped although the deny-list holds it in lower case. */
  lemma AppDataSkipped()
    ensures ShouldSkip("AppData")
  {
    assert Lower("AppData") == "appdata";
    IgnoredFolderSkipped("AppData");
  }

  /** `Pictures` is scanned. */
  lemma PicturesNotSkipped()
    ensures !ShouldSkip("Pictures")
  {
    LowerPictures();
    PicturesNotIgnored();
    SkipExactly("Pictures");
  }

  lemma LowerPictures()
    ensures Lower("Pictures") == "pictures"
  {
  }

  lemma PicturesNotIgnored()
    ensures "pictures" !in IgnoredFolders
  {
  }

  /** Priority depends on the lower-cased name only. */
  lemma PriorityCaseInsensitive(name: string)
    ensures Priority(Lower(name)) == Priority(name)
  {
    LowerIdempotent(name);
  }

  /** Photo folders come first, by exact name or by prefix. */
  lemma PhotoPriorityExamples()
    ensures Priority("Pictures") == 0 && Priority("PhotosVacances") == 0
  {
    assert Lower("Pictures") == "pictures";
    assert Lower("PhotosVacances") == "photosvacances";
    assert StartsWith("photosvacances", "photo");
  }

  /** Usual user folders come second, including the French names. */
  lemma UserPriorityExamples()
    ensures Priority("Desktop") == 1 && Priority("Téléchargements") == 1
  {
    assert Lower("Desktop") == "desktop";
    assert Lower("Téléchargements") == "téléchargements";
  }

  /** Any other folder comes last. */
  lemma OtherPriorityExample()
    ensures Priority("Projects") == 2
  {
    var n := Lower("Projects");
    assert n == "projects";
    assert n[1] != "pic"[1] && n[1] != "photo"[1] && n[0] != "image"[0];
  }
}
