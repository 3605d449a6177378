/**
 `get_dossiers_avec_photos`: the scan result memoised for a fixed lifetime.
 The module-level globals `_CACHE_PAIRES` and `_CACHE_TIME` become a state
 record passed in and returned; `time.time()` becomes a parameter. The
 function reads the clock twice (before deciding, and again after a scan),
 so the two readings are two parameters.
 */
module ScanCache {
  import opened Wrappers
  import opened Sorting
  import opened FileTree
  import opened Scanner

  /** `CACHE_DURATION_SEC`, in seconds. */
  const CacheDurationSec: real := 300.0

  /** `_CACHE_PAIRES` (`None` until a first computation) and `_CACHE_TIME`. */
  datatype Cache = Cache(pairs: Option<seq<FolderEntry>>, stamp: real)

  /** The state at start-up: nothing cached, stamp zero. */
  const Initial: Cache := Cache(None, 0.0)

  /** The returned list and the state left behind. */
  datatype Lookup = Lookup(folders: seq<FolderEntry>, cache: Cache)

  /** The cached list may be served at time `now`. */
  predicate IsHit(c: Cache, useCache: bool, now: real) {
    useCache && c.pairs.Some? && now - c.stamp < CacheDurationSec
  }

  /**
   One call. `now` is the clock read before deciding, `rootIsDir` the
   answer of `os.path.isdir(RACINE_SCAN)`, `scanned` what `_scan_bfs` would
   return and `later` the clock read after it.
   */
  function Get(c: Cache, useCache: bool, now: real, rootIsDir: bool,
               scanned: seq<FolderEntry>, later: real): (r: Lookup)
    ensures IsHit(c, useCache, now) ==> r.folders == c.pairs.value && r.cache == c
    ensures !IsHit(c, useCache, now) && !rootIsDir ==> r.folders == [] && r.cache == Cache(Some([]), c.stamp)
    ensures !IsHit(c, useCache, now) && rootIsDir ==> r.folders == scanned && r.cache == Cache(Some(scanned), later)
    ensures r.cache.pairs == Some(r.folders)
  {
    if IsHit(c, useCache, now) then Lookup(c.pairs.value, c)
    else if !rootIsDir then Lookup([], Cache(Some([]), c.stamp))
    else Lookup(scanned, Cache(Some(scanned), later))
  }

  /** `?rafraichir=1` on the gallery page: drop the cached list, keep the stamp. */
  function Invalidate(c: Cache): (r: Cache)
    ensures r.pairs == None && r.stamp == c.stamp
    ensures forall useCache, now :: !IsHit(r, useCache, now)
  {
    Cache(None, c.stamp)
  }

  /**
   The call with the scan performed for real: `_scan_bfs` runs on a miss with
   a directory root, and only then.
   */
  method GetFolders(c: Cache, useCache: bool, now: real, root: Entry, later: real)
    returns (folders: seq<FolderEntry>, c': Cache, scannedNow: bool)
    ensures scannedNow <==> !IsHit(c, useCache, now) && root.Folder?
    ensures Get(c, useCache, now, root.Folder?, folders, later) == Lookup(folders, c')
    ensures scannedNow ==> |folders| <= MaxFolders
    ensures scannedNow ==> forall k :: 0 <= k < |folders| ==> EntryOk(root, folders[k])
    ensures scannedNow && |folders| < MaxFolders ==>
      forall path, d :: Qualifies(root, path, d) ==> FolderEntry(path, ImagesIn(d)) in folders
    ensures scannedNow ==> SortedBy(folders, SortKey)
    ensures scannedNow && WellNamed(root) ==> DistinctBy(folders, SegmentsOf)
  {
    if IsHit(c, useCache, now) {
      return c.pairs.value, c, false;
    }
    if !root.Folder? {
      return [], Cache(Some([]), c.stamp), false;
    }
    folders := ScanBfs(root);
    c' := Cache(Some(folders), later);
    scannedNow := true;
  }

  // Properties of the memo.

  /** A hit does not look at the disk: neither the root nor the scan matters. */
  lemma HitIgnoresDisk(c: Cache, useCache: bool, now: real,
                       rootIsDir: bool, scanned: seq<FolderEntry>, later: real,
                       rootIsDir': bool, scanned': seq<FolderEntry>, later': real)
    requires IsHit(c, useCache, now)
    ensures Get(c, useCache, now, rootIsDir, scanned, later) == Get(c, useCache, now, rootIsDir', scanned', later')
  {
  }

  /**
   After a scan stamped at `later`, every call with the cache enabled before
   the lifetime runs out returns the same list and leaves the state alone.
   */
  lemma SameListWithinLifetime(c: Cache, useCache: bool, now: real, scanned: seq<FolderEntry>, later: real,
                               now2: real, rootIsDir2: bool, scanned2: seq<FolderEntry>, later2: real)
    requires !IsHit(c, useCache, now)
    requires now2 < later + CacheDurationSec
    ensures var first := Get(c, useCache, now, true, scanned, later);
      && Get(first.cache, true, now2, rootIsDir2, scanned2, later2) == first
  {
  }

  /** A list older than the lifetime is recomputed. */
  lemma StaleIsRecomputed(c: Cache, now: real, scanned: seq<FolderEntry>, later: real)
    requires now - c.stamp >= CacheDurationSec
    ensures Get(c, true, now, true, scanned, later) == Lookup(scanned, Cache(Some(scanned), later))
  {
  }

  /**
   After invalidation, or with the cache disabled, the scan result is returned
   and stored; after invalidation with the root missing, `[]` is stored under
   the old stamp.
   */
  lemma RefreshRecomputes(c: Cache, useCache: bool, now: real, scanned: seq<FolderEntry>, later: real)
    ensures Get(Invalidate(c), useCache, now, true, scanned, later) == Lookup(scanned, Cache(Some(scanned), later))
    ensures Get(Invalidate(c), useCache, now, false, scanned, later) == Lookup([], Cache(Some([]), c.stamp))
    ensures Get(c, false, now, true, scanned, later) == Lookup(scanned, Cache(Some(scanned), later))
  {
  }

  /** The first call always computes, since nothing is cached yet. */
  lemma FirstCallComputes(useCache: bool, now: real, rootIsDir: bool, scanned: seq<FolderEntry>, later: real)
    ensures !IsHit(Initial, useCache, now)
    ensures Get(Initial, useCache, now, rootIsDir, scanned, later).folders == (if rootIsDir then scanned else [])
  {
  }

  /**
   A missing root stores `[]` under the old stamp. When that stamp is still
   recent, the empty list is then served until it expires, even once the
   root is back.
   */
  lemma MissingRootMemoisedUnderOldStamp(c: Cache, now: real, now2: real, scanned: seq<FolderEntry>, later: real)
    requires !IsHit(c, true, now)
    requires now2 - c.stamp < CacheDurationSec
    ensures var first := Get(c, true, now, false, [], later);
      && first.folders == []
      && Get(first.cache, true, now2, true, scanned, later).folders == []
  {
  }
}
