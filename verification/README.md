# Gallery scanner of the personal Flask site, in Dafny

`app.py` serves a personal page and a photo gallery of the machine it runs
on. The gallery side has three pieces of real logic, all modelled here:

- **the name predicates**: `_fichier_image` (image extension allow-list),
  `_ignorer_dossier` (dot folders and a deny-list of system folders),
  `_priorite_dossier` (photo folders first, then usual user folders);
- **the bounded breadth-first scan** `_scan_bfs`: a FIFO work queue of
  `(path, rel, depth)` items, a depth limit `PROFONDEUR_MAX = 8`, a result
  cap `MAX_DOSSIERS_GALERIE = 120`, sub-folders queued in priority order,
  results sorted by lower-cased relative path. Its scan cache
  `get_dossiers_avec_photos` keeps results for `CACHE_DURATION_SEC = 300`
  seconds;
- **the file route guard** of `fichier_galerie`: normalise the requested
  path, then answer 403 for any `..`, 403 for a path that resolves outside
  the scan root (`_chemin_autorise`), 404 for a missing file, 403 for a
  non-image name, and otherwise send the file.

The disk is an in-memory tree (`FileTree.Entry`): a folder has a name, a
flag saying whether `os.listdir` succeeds on it, and its listing in
`os.listdir` order. Clocks, `os.path.realpath` and `os.path.isfile` become
parameters.

Modules, in dependency order:

| module | file | what it holds |
|---|---|---|
| `Wrappers` | Wrappers.dfy | `Option`, for `None` |
| `Text` | Text.dfy | `str.lower`, `str.strip`, `startswith`/`endswith`, `in`, code-point order, `"/".join` |
| `Sorting` | Sorting.dfy | `sorted(key=...)` on string keys; the stable sort on the 0/1/2 priority |
| `Classifier` | Classifier.dfy | the image extensions and the deny-list (app.py:18-27), the name tuples of app.py:68 and 70, and the three name predicates |
| `PathGuard` | PathGuard.dfy | `_chemin_autorise` |
| `PosixPath` | PosixPath.dfy | `posixpath.join`, `basename`, `str.split("/")` |
| `FileRoute` | FileRoute.dfy | the decision taken by `fichier_galerie` |
| `FileTree` | FileTree.dfy | the directory tree and `_images_dans_dossier` |
| `PathOrder` | PathOrder.dfy | the prefix order on relative paths, segment by segment |
| `Scanner` | Scanner.dfy | `PROFONDEUR_MAX`, `MAX_DOSSIERS_GALERIE` and `_scan_bfs`, with its completeness and distinctness proofs |
| `ScanCache` | ScanCache.dfy | `CACHE_DURATION_SEC`, `get_dossiers_avec_photos` and the `rafraichir` switch |
| `Scenario` | Scenario.dfy | a small home folder run through the scan's contract |

### The scan's contract

`Scanner.ScanBfs` returns at most 120 entries, sorted by lower-cased path.
Each entry (`Scanner.EntryOk`) has 1 to 8 path segments, none of them a
skipped name. Its segments lead, through readable folders, to a folder of
the tree, and its image list is exactly that folder's `_images_dans_dossier`:
non-empty, sorted, made only of allowed image names. When fewer than 120
entries come back, the scan was not cut short, and **every** folder that
qualifies is in the result. A folder qualifies when it sits 1 to 8 levels
down through readable, non-skipped folders and holds an image. When every
listing in the tree has unique names (`FileTree.WellNamed`, true of every
real directory), no path is reported twice.

The proof carries a coverage invariant (`Scanner.AllCovered`): every
qualifying folder is already collected or lies strictly below some queued
item. Distinctness rests on a second invariant (`Scanner.Tidy`): the
collected paths are pairwise distinct, no queued path lies at or below
another, and no collected path lies strictly below a queued one.
Termination is by the cap, then the total size of the queued sub-trees.

### Behaviour worth knowing

- app.py:106 queues every non-skipped sub-folder, including one that was
  just reported for its own images, so image folders nested inside image
  folders are found too (`Scanner.ListFolder`).
- For a home folder holding `Pictures/a.jpg`, `Pictures/sub/AppData/b.png`
  and `Documents/c.gif`, the scan reports exactly `Documents` with `c.gif`
  and `Pictures` with `a.jpg`, in that order: `.gif` is on the allow-list of
  app.py:18, and `AppData` is skipped by app.py:59-62 (`Scenario.ScanHome`).
- app.py:213 refuses any request containing the substring `..`, so a file
  named `a..b.jpg` cannot be served (`FileRoute.DotDotInsideNameRefused`).
- When the root is not a directory, app.py:123-125 store `[]` in the cache
  but leave `_CACHE_TIME` alone, so that `[]` is served until the previous
  stamp expires (`ScanCache.MissingRootMemoisedUnderOldStamp`).

## Model

| member | source | states |
|---|---|---|
| `Classifier.IsImageFile` | app.py:41-42 | a name is an image exactly when its lower-cased form ends with one of `.jpg .jpeg .png .gif .webp` |
| `Classifier.UpperCaseExtensionIsImage` | app.py:18 | `A.JPG` is accepted: the comparison ignores case |
| `Classifier.TextFileIsNotImage` | app.py:41-42 | `a.txt` is refused |
| `Classifier.ImageCaseInsensitive` | app.py:42 | the verdict on a name and on its lower-cased form agree |
| `Classifier.ImageNameHasDot` | app.py:18 | an image name has a `.` four or five characters from its end |
| `Classifier.SkipExactly` | app.py:57-62 | for a name with no surrounding whitespace, it is skipped if and only if it starts with `.` or its lower-cased form is on the deny-list |
| `Classifier.DotFolderSkipped` | app.py:59-61 | every name starting with `.` is skipped |
| `Classifier.IgnoredFolderSkipped` | app.py:21-27 | every name whose lower-cased form is on the deny-list is skipped |
| `Classifier.SkipIgnoresCaseAndPadding` | app.py:59 | skipping does not change when the name is lower-cased or padded with a whitespace character on either side |
| `Classifier.AppDataSkipped` | app.py:21-27 | `AppData` is skipped although the list spells it `appdata` |
| `Classifier.PicturesNotSkipped` | app.py:57-62 | `Pictures` is scanned |
| `Classifier.Priority` | app.py:65-74 | the priority is 0, 1 or 2; 0 exactly for the photo names and the `pic`/`photo`/`image` prefixes; 1 exactly for the user folder names |
| `Classifier.UserFoldersNotPhotoLike` | app.py:68-73 | no user folder name is photo-like, so the order of the three tests does not matter |
| `Classifier.PriorityCaseInsensitive` | app.py:67 | the priority depends only on the lower-cased name |
| `Classifier.PhotoPriorityExamples` | app.py:68-73 | `Pictures` (exact name) and `PhotosVacances` (prefix) get 0 |
| `Classifier.UserPriorityExamples` | app.py:70-71 | `Desktop` and `Téléchargements` get 1 |
| `Classifier.OtherPriorityExample` | app.py:74 | `Projects` gets 2 |
| `Text.Lower` | app.py:42 | lower-casing keeps the length and maps each capital to its small letter, leaving other characters alone |
| `Text.LowerIdempotent` | app.py:59 | lower-casing twice is lower-casing once |
| `Text.StripPadding` | app.py:59 | `strip()` ignores one more whitespace character at either end |
| `Text.LeqTotal` | app.py:112 | any two strings are ordered one way or the other |
| `Text.LeqTransitive` | app.py:112 | the string order is transitive |
| `PathGuard.IsWithinRoot` | app.py:38 | a path is inside the root exactly when it is the root, or the root followed by `/` and more |
| `PathGuard.IsAllowed` | app.py:35-38 | a path resolving to the resolved root is allowed; an allowed path resolves to the resolved root or to it followed by `/`, and every such path is allowed |
| `PathGuard.RootIsAllowed` | app.py:35-38 | the scan root is allowed whatever the resolution does, since both sides are resolved |
| `PathGuard.ResolvedSiblingRefused` | app.py:35-38 | a path resolving to the root followed by a character other than `/` is refused |
| `PathGuard.DescendantIsWithin` | app.py:38 | the root, a `/` and anything after it is inside the root |
| `PathGuard.WithinRootShape` | app.py:38 | a path inside the root is the root or the root, `/`, and a remainder |
| `PathGuard.SiblingIsNotWithin` | app.py:38 | a string sharing the root as prefix but continuing with another character is outside |
| `PathGuard.SiblingExample` | app.py:38 | `/home/u2` is outside `/home/u` |
| `PathGuard.SlashRootRefusesChildren` | app.py:36-38 | with `/` as resolved root, the prefix asked for is `//`, so no child of `/` is allowed |
| `PosixPath.Basename` | app.py:221 | the base name holds no `/`, ends the path, and is preceded by `/` unless it is the whole path |
| `PosixPath.Split` | app.py:215 | splitting on `/` gives at least one piece and no piece holds a `/` |
| `PosixPath.SplitJoinRoundTrip` | app.py:215 | joining the pieces of `split("/")` with `/` gives the string back |
| `PosixPath.NonEmpty` | app.py:215 | a piece is kept exactly when it is non-empty, as often as it occurs |
| `PosixPath.NonEmptyAppend` | app.py:215 | the filter works piece by piece, so the kept pieces stay in their order |
| `PosixPath.JoinUnderBase` | app.py:216 | `os.path.join(root, *parts)` with slash-free non-empty parts is `root/p1/.../pn` |
| `PosixPath.BasenameOfChild` | app.py:221 | the base name of `dir/name` is `name` |
| `FileRoute.ServeFile` | app.py:206-223 | a request with `..` is refused; the file is sent exactly when the request has no `..`, the built path is allowed, it is a file and its base name is an image, and then the path sent is the built one; 404 exactly when there is no `..`, the path is allowed and no file is there |
| `FileRoute.Normalize` | app.py:212 | the normalised request is a stretch of the request with `\` turned into `/` and only `/` on either side of it; it has no backslash, neither starts nor ends with `/`, and contains `..` exactly when the request does |
| `FileRoute.NormalFixed` | app.py:212 | a request without backslashes or outer slashes is left unchanged |
| `FileRoute.NormalizeIdempotent` | app.py:212 | normalising twice is normalising once |
| `FileRoute.NormalizePlain` | app.py:212 | `a/b.jpg` is left as it is |
| `FileRoute.NormalizeBackslashes` | app.py:212 | `/a\b.jpg/` becomes `a/b.jpg` |
| `FileRoute.StripLeadingSlashes` | app.py:212 | only `/` characters are dropped from the front, and what is left does not start with `/` |
| `FileRoute.StripTrailingSlashes` | app.py:212 | only `/` characters are dropped from the end, and what is left does not end with `/` |
| `FileRoute.TraversalRefused` | app.py:213-214 | `../../etc/passwd` and `a\..\b.jpg` are refused before any file-system question |
| `FileRoute.DotDotInsideNameRefused` | app.py:213-214 | `a..b.jpg` is refused: the test is on the substring |
| `FileRoute.RequestPartsAreSegments` | app.py:215 | the pieces joined onto the root are non-empty and slash-free |
| `FileRoute.NoEscapeWithoutLinks` | app.py:216-222 | without links, a root not ending in `/` contains every built path, so a refusal after the `..` test means an existing non-image file |
| `FileRoute.SentFileIsLastPiece` | app.py:216-223 | the file sent is named by the last piece of the request, and that name is an image |
| `FileTree.ImageNames` | app.py:49-52 | a name is kept exactly when it is an image name, exactly as often as it is listed |
| `FileTree.ImageNamesAppend` | app.py:50-51 | the filter works name by name, so the kept names stay in listing order |
| `FileTree.ReachesWellNamed` | app.py:96-106 | a folder reached inside a tree with unique names per listing has unique names per listing too |
| `FileTree.ImagesIn` | app.py:45-54 | a readable folder's images are its image names, sorted, with multiplicity; a file or an unreadable folder gives `[]` |
| `FileTree.ReachesChild` | app.py:96-106 | following a path to a readable folder, then one of its sub-folders, follows the extended path |
| `FileTree.ReachesSplit` | app.py:99 | a path that reaches a folder splits into a prefix reaching an intermediate folder and the rest |
| `Sorting.SortBy` | app.py:112 | the result is a permutation of the input, ordered by key |
| `Sorting.DistinctByPermuted` | app.py:112 | sorting keeps pairwise distinct keys distinct |
| `Sorting.SortBySmallKey` | app.py:107 | the queued sub-folders are a permutation of the collected ones with non-decreasing priority |
| `Sorting.SortBySmallKeyStable` | app.py:107 | sub-folders of equal priority keep their listing order (the sort is stable) |
| `Sorting.KeyGroups` | app.py:107 | the three priority groups together are the input |
| `Scanner.ScanBfs` | app.py:77-112 | at most 120 entries, each genuine and admissible (1 to 8 non-skipped segments, the folder's own non-empty sorted image list), sorted by lower-cased path; below the cap every qualifying folder is reported; with unique names per listing no path is reported twice |
| `Scanner.Visit` | app.py:84-111 | one turn pops the head (`popleft`); a head at the depth limit or whose listing fails is dropped and nothing else changes; a listed head below the cap appends exactly its sub-folders' entries and puts its sub-folders, sorted by priority, at the back of the queue; at the cap only a prefix of the entries is appended and nothing is queued; every collected entry stays genuine, every queued item well formed, below the cap every qualifying folder covered, and (with unique names) paths distinct |
| `Scanner.AppendedInListingOrder` | app.py:107-111 | sub-folders of one priority reach the back of the queue in listing order |
| `Scanner.Expand` | app.py:92-106 | listing a folder appends only genuine entries, returns only well-formed sub-folder items of smaller total size, and, below the cap, the appended entries are exactly the listed sub-folders with images, in listing order, and the returned items exactly the non-skipped sub-folders; at the cap, a prefix of those entries |
| `Scanner.ListEntry` | app.py:93-98 | one listing entry keeps every collected entry genuine and every queued item well formed, keeps the queued size within the part of the listing seen, and leaves the entry handled: the entries so far are those of the sub-folders listed up to it |
| `Scanner.ListFolder` | app.py:99-106 | a non-skipped sub-folder is queued, also when it produced an entry |
| `Scanner.Collect` | app.py:101-105 | a sub-folder with images is appended with exactly its images, one without images appends nothing; the walk stops exactly when 120 are collected |
| `Scanner.ChildQueueable` | app.py:96-106 | a queued sub-folder is one level deeper, reached by its path, through non-skipped names |
| `Scanner.ReportableEntry` | app.py:99-103 | an appended entry satisfies every promise made of returned entries |
| `Scanner.InitiallyCovered` | app.py:83 | the initial queue covers every qualifying folder |
| `Scanner.DropCovers` | app.py:86-91 | skipping an item at the depth limit or with an unreadable listing loses no qualifying folder |
| `Scanner.ExpandCovers` | app.py:106-111 | after listing an item, its qualifying descendants are collected or below a newly queued item |
| `Scanner.BelowHead` | app.py:93-106 | a qualifying folder below a listed item is a collected child or below a queued child |
| `Scanner.ChildrenApart` | app.py:93-106 | in a listing with unique names, the sub-folders queued are one segment below the listed folder and have pairwise distinct paths |
| `Scanner.EntriesOfDistinct` | app.py:101-103 | entries made from items with distinct paths have distinct paths |
| `Scanner.ListedKeepsTidy` | app.py:92-111 | listing the head of a tidy queue keeps the collected paths distinct, the queued paths unrelated and nothing collected below a queued path |
| `Scanner.Finish` | app.py:84 | when the loop ends below the cap the queue is empty, so every qualifying folder was collected |
| `ScanCache.Get` | app.py:115-129 | a fresh cache is returned as is; a missing root gives `[]` stored under the old stamp; otherwise the scan is returned and stored with the new time; afterwards the cache always holds what was returned |
| `ScanCache.GetFolders` | app.py:121-129 | the scan runs exactly on a miss with a directory root, and its result then carries the scan's guarantees: bounded, genuine, complete below the cap, sorted, and without repeats under unique names |
| `ScanCache.SameListWithinLifetime` | app.py:121-128 | after a scan stamped at `t`, any call with the cache enabled, and no `rafraichir` in between, before `t + 300` returns the same list and leaves the cache alone |
| `ScanCache.StaleIsRecomputed` | app.py:121-128 | a list 300 seconds old or more is recomputed |
| `ScanCache.Invalidate` | app.py:180-181 | the cached list is dropped and the stamp kept, so the next call is not a hit |
| `ScanCache.RefreshRecomputes` | app.py:180-182 | after `rafraichir`, or with the cache disabled, the scan is returned and stored; after `rafraichir` with the root missing, `[]` is stored under the old stamp |
| `ScanCache.FirstCallComputes` | app.py:30-31 | the first call always computes |
| `ScanCache.HitIgnoresDisk` | app.py:121-122 | a hit does not depend on the root or on what a scan would return |
| `ScanCache.MissingRootMemoisedUnderOldStamp` | app.py:123-125 | after a missing root, `[]` is served until the old stamp expires, even once the root is back |
| `Scenario.DocumentsQualifies` | app.py:93-103 | in the example home folder, `Documents` holds `c.gif` and qualifies |
| `Scenario.NothingUnderAppData` | app.py:94-95 | no path through `AppData` qualifies |
| `Scenario.HomeWellNamed` | app.py:89 | the example home folder has unique names in every listing |
| `Scenario.Candidates` | app.py:93-103 | the only admissible entries of the example home folder are `Documents` with `c.gif` and `Pictures` with `a.jpg` |
| `Scenario.ExactlyTheTwo` | app.py:112 | a sorted list with distinct paths holding both candidates and nothing else is `Documents` then `Pictures` |
| `Scenario.ScanHome` | app.py:77-112 | scanning the example home folder returns exactly `Documents` with `["c.gif"]`, then `Pictures` with `["a.jpg"]` |

## Left out

- The page routes `home` and `galerie` (their templates, the choice of the
  displayed folder from `?dossier=`), `send_file`, `abort` as an exception,
  and `app.run`: presentation and I/O. Of `galerie`, only the `rafraichir`
  switch (app.py:180-181) is modelled, as `ScanCache.Invalidate`.
- `os.listdir`, `os.path.isdir` and `os.path.isfile`: replaced by the
  `FileTree.Entry` tree and by the `isFile` parameter of `FileRoute.ServeFile`.
  A folder is listed in the tree's order. Symbolic links inside the tree, and
  so cycles, are not modelled, because the tree is finite and acyclic.
- `os.path.realpath`: the `canon` parameter, an arbitrary function.
- `time.time()`: the `now` and `later` parameters, taken as exact reals
  (floating-point rounding is not modelled).
- Thread safety and the global variables of the cache: the cache state is
  passed in and returned.
- `os.sep` is `/`: Windows separators, and so the `rel.replace(os.sep, "/")`
  step of app.py:100, are not modelled (on POSIX that step changes nothing).
- Text.Lower: only ASCII and Latin-1 capitals are mapped; the other Unicode
  case mappings of `str.lower` (Greek, Cyrillic, `İ`, which becomes two
  characters) are left out.
- Scanner.ScanBfs: when the cap cuts the walk short, which 120 folders are
  kept (breadth-first, photo folders first) is not characterised; only that
  each kept folder is genuine. That no path is reported twice is proved for
  trees whose listings have unique names; a tree repeating a name in one
  listing has no counterpart on a real file system.
- Sorting.SortBy: stability of `sorted` is not stated. It matters only for
  two paths that are equal once lower-cased.
- The re-check of the cap in app.py:108-111 is not a separate step. Nothing
  is appended to the result in that loop, so below the cap it queues every
  sorted sub-folder, and at the cap the walk ends anyway.
- The image segmentation (K-means) and its FIFO result cache: not in
  `app.py`, and floating-point numerics.
