/** The incremental scan: `scanSinglePath` with its fingerprint cache `db.metadata`, and
    the two batch handlers `/api/scan-paths` and `/api/scan-dir` that map it over a list of
    paths through a limiter of concurrency 3.

    The filesystem is an input: `stat` results and parse results per path, where a missing
    path stands for `statSync` or `parseFile` throwing. The cache is a map from path to
    {mtimeMs, size, meta}; the uploads directory is the cover store's map. */
module Scan {
  import opened Common
  import opened Covers
  import opened Tags
  import Walk

  /** `fs.statSync(p)`: modification time (whole milliseconds) and size. */
  datatype Stat = Stat(mtimeMs: int, size: nat)

  /** `db.metadata[p]`. */
  datatype CacheEntry = CacheEntry(mtimeMs: int, size: nat, meta: TrackMeta)

  /** One element of `items`: `{path, ...meta}` or `{path, error: 'unreadable'}`. */
  datatype ScanItem = Track(path: string, meta: TrackMeta) | Unreadable(path: string, error: string)

  /** What the filesystem and the parser give for each path; a path absent from `stats`
      cannot be stat-ed, a path absent from `tags` makes the parser throw. */
  datatype Disk = Disk(stats: map<string, Stat>, tags: map<string, Parsed>)

  /** The state a scan changes: the metadata cache and the uploads directory. */
  datatype Store = Store(metadata: map<string, CacheEntry>, uploads: map<string, seq<byte>>)

  /** The `error` of an item whose file cannot be read. */
  const UnreadableError := "unreadable"

  /** The entry's fingerprint equals the file's: same `mtimeMs` and same `size`. */
  predicate SameFingerprint(e: CacheEntry, s: Stat) {
    e.mtimeMs == s.mtimeMs && e.size == s.size
  }

  /** The file can be stat-ed and its cache entry matches its fingerprint. */
  predicate CacheHit(disk: Disk, st: Store, p: string) {
    p in disk.stats && p in st.metadata && SameFingerprint(st.metadata[p], disk.stats[p])
  }

  /** `scanSinglePath(p, db)`: the state afterwards and the item returned. */
  function ScanOne(h: Hashing, disk: Disk, st: Store, p: string): (Store, ScanItem) {
    if p !in disk.stats then (st, Unreadable(p, UnreadableError))
    else if CacheHit(disk, st, p) then (st, Track(p, st.metadata[p].meta))
    else if p !in disk.tags then (st, Unreadable(p, UnreadableError))
    else
      var parsed := disk.tags[p];
      var (uploads', coverUrl) := StoreCover(h, st.uploads, FirstPicture(parsed));
      var meta := Lite(parsed, BaseName(p), coverUrl);
      var stat := disk.stats[p];
      (Store(st.metadata[p := CacheEntry(stat.mtimeMs, stat.size, meta)], uploads'), Track(p, meta))
  }

  /** The file can be read: a cache hit, or a parse that succeeds. */
  predicate Readable(disk: Disk, st: Store, p: string) {
    p in disk.stats && (CacheHit(disk, st, p) || p in disk.tags)
  }

  /** Every item carries its own path; it is an error item, with error `unreadable`, exactly
      when the file cannot be stat-ed or, on a cache miss, cannot be parsed, and a failed
      scan changes nothing. */
  lemma ScanOneOutcome(h: Hashing, disk: Disk, st: Store, p: string)
    ensures var (st', item) := ScanOne(h, disk, st, p);
      && item.path == p
      && (item.Unreadable? <==> !Readable(disk, st, p))
      && (item.Unreadable? ==> st' == st && item.error == "unreadable")
  {
  }

  /** A cache hit returns the cached metadata with the path, leaves the state as it is,
      and does not consult the parser: any other parse results give the same outcome. */
  lemma CacheHitSkipsParse(h: Hashing, disk: Disk, otherTags: map<string, Parsed>, st: Store, p: string)
    requires CacheHit(disk, st, p)
    ensures ScanOne(h, disk, st, p) == (st, Track(p, st.metadata[p].meta))
    ensures ScanOne(h, Disk(disk.stats, otherTags), st, p) == ScanOne(h, disk, st, p)
  {
  }

  /** On a miss (no entry, or a different size or modification time) with a successful
      parse, the entry is replaced wholesale by the fresh fingerprint and the new record, no
      other path's entry changes, the item is that record with the path, and the cover goes
      through the cover store. */
  lemma CacheMissReplacesEntry(h: Hashing, disk: Disk, st: Store, p: string)
    requires p in disk.stats && !CacheHit(disk, st, p) && p in disk.tags
    ensures var (st', item) := ScanOne(h, disk, st, p);
      var parsed, stat := disk.tags[p], disk.stats[p];
      var meta := Lite(parsed, BaseName(p), CoverRef(h, FirstPicture(parsed)));
      && item == Track(p, meta)
      && p in st'.metadata && st'.metadata[p] == CacheEntry(stat.mtimeMs, stat.size, meta)
      && (forall q :: q != p ==> (q in st'.metadata <==> q in st.metadata))
      && (forall q :: q != p && q in st.metadata ==> st'.metadata[q] == st.metadata[q])
      && st'.uploads == StoreCover(h, st.uploads, FirstPicture(parsed)).0
  {
  }

  /** Rescanning a file that has not changed since the last scan is a no-op that returns
      the same item: nothing is parsed or written the second time. */
  lemma RescanIsIdempotent(h: Hashing, disk: Disk, st: Store, p: string)
    ensures var (st1, item1) := ScanOne(h, disk, st, p);
      ScanOne(h, disk, st1, p) == (st1, item1)
  {
    var (st1, item1) := ScanOne(h, disk, st, p);
    if p in disk.stats && !CacheHit(disk, st, p) && p in disk.tags {
      assert CacheHit(disk, st1, p);
    }
  }

  /** Scanning any path never changes the item another scan of `p` returns: other paths'
      entries are untouched, the cover reference does not depend on the uploads directory,
      and a rescan of `p` itself hits the entry it just wrote. */
  lemma ScanKeepsItems(h: Hashing, disk: Disk, st: Store, q: string, p: string)
    ensures ScanOne(h, disk, ScanOne(h, disk, st, q).0, p).1 == ScanOne(h, disk, st, p).1
  {
    var st1 := ScanOne(h, disk, st, q).0;
    if q == p {
      RescanIsIdempotent(h, disk, st, p);
    } else {
      assert p in st1.metadata <==> p in st.metadata;
      assert p in st.metadata ==> st1.metadata[p] == st.metadata[p];
      if p in disk.stats && !CacheHit(disk, st, p) && p in disk.tags {
        RefIgnoresDirectory(h, st.uploads, st1.uploads, FirstPicture(disk.tags[p]));
      }
    }
  }

  // ---------------------------------------------------------------------------
  // Batches

  /** The batch run in input order: the state afterwards and the items. */
  function ScanAll(h: Hashing, disk: Disk, st: Store, paths: seq<string>): (Store, seq<ScanItem>) {
    if paths == [] then (st, [])
    else
      var (st1, items) := ScanAll(h, disk, st, paths[..|paths| - 1]);
      var (st2, item) := ScanOne(h, disk, st1, paths[|paths| - 1]);
      (st2, items + [item])
  }

  /** A batch never changes the item a later scan of any path returns. */
  lemma {:induction false} ScanAllKeepsItems(h: Hashing, disk: Disk, st: Store, paths: seq<string>, p: string)
    ensures ScanOne(h, disk, ScanAll(h, disk, st, paths).0, p).1 == ScanOne(h, disk, st, p).1
  {
    if paths != [] {
      var prefix := paths[..|paths| - 1];
      ScanAllKeepsItems(h, disk, st, prefix, p);
      ScanKeepsItems(h, disk, ScanAll(h, disk, st, prefix).0, paths[|paths| - 1], p);
    }
  }

  /** The result lines up with the input: one item per path, item `i` carries `paths[i]`,
      and it is exactly what scanning `paths[i]` alone on the initial state returns. So an
      unreadable path yields an error item at its own position only, and its neighbours'
      items are the same as without it. */
  lemma {:induction false} BatchIsPerIndex(h: Hashing, disk: Disk, st: Store, paths: seq<string>)
    ensures var items := ScanAll(h, disk, st, paths).1;
      && |items| == |paths|
      && (forall i :: 0 <= i < |paths| ==> items[i] == ScanOne(h, disk, st, paths[i]).1)
      && (forall i :: 0 <= i < |paths| ==> items[i].path == paths[i])
      && (forall i :: 0 <= i < |paths| ==> (items[i].Unreadable? <==> !Readable(disk, st, paths[i])))
  {
    if paths != [] {
      var prefix := paths[..|paths| - 1];
      BatchIsPerIndex(h, disk, st, prefix);
      ScanAllKeepsItems(h, disk, st, prefix, paths[|paths| - 1]);
      forall i | 0 <= i < |paths|
        ensures ScanOne(h, disk, st, paths[i]).1.path == paths[i]
        ensures ScanOne(h, disk, st, paths[i]).1.Unreadable? <==> !Readable(disk, st, paths[i])
      {
        ScanOneOutcome(h, disk, st, paths[i]);
      }
    }
  }

  /** A batch writes only the entries of its own paths, and leaves every readable path with
      an entry matching its current fingerprint, so a second batch over unchanged files is
      all cache hits. */
  lemma {:induction false} BatchFreshensItsPaths(h: Hashing, disk: Disk, st: Store, paths: seq<string>)
    ensures var st' := ScanAll(h, disk, st, paths).0;
      && (forall q :: q !in paths ==> (q in st'.metadata <==> q in st.metadata))
      && (forall q :: q !in paths && q in st.metadata ==> st'.metadata[q] == st.metadata[q])
      && (forall q :: q in paths && Readable(disk, st, q) ==> CacheHit(disk, st', q))
  {
    if paths != [] {
      var prefix, last := paths[..|paths| - 1], paths[|paths| - 1];
      BatchFreshensItsPaths(h, disk, st, prefix);
      var st1 := ScanAll(h, disk, st, prefix).0;
      var st2 := ScanOne(h, disk, st1, last).0;
      forall q | q in paths && Readable(disk, st, q)
        ensures CacheHit(disk, st2, q)
      {
        if q == last {
          ScanAllKeepsItems(h, disk, st, prefix, q);
          ScanOneOutcome(h, disk, st1, q);
          ScanOneOutcome(h, disk, st, q);
        } else {
          assert q in prefix;
        }
      }
    }
  }

  /** The batch run in an arbitrary order (the order in which the limiter happens to start
      the tasks): the state afterwards and the item of each index that ran. */
  function RunInOrder(h: Hashing, disk: Disk, st: Store, paths: seq<string>, order: seq<nat>)
    : (Store, map<nat, ScanItem>)
    requires forall k :: 0 <= k < |order| ==> order[k] < |paths|
  {
    if order == [] then (st, map[])
    else
      var (st1, done) := RunInOrder(h, disk, st, paths, order[..|order| - 1]);
      var i := order[|order| - 1];
      var (st2, item) := ScanOne(h, disk, st1, paths[i]);
      (st2, done[i := item])
  }

  /** Whatever the order, running tasks never changes the item a later scan of any path
      returns. */
  lemma {:induction false} RunInOrderKeepsItems(h: Hashing, disk: Disk, st: Store, paths: seq<string>,
                                                order: seq<nat>, p: string)
    requires forall k :: 0 <= k < |order| ==> order[k] < |paths|
    ensures ScanOne(h, disk, RunInOrder(h, disk, st, paths, order).0, p).1 == ScanOne(h, disk, st, p).1
  {
    if order != [] {
      var prefix := order[..|order| - 1];
      RunInOrderKeepsItems(h, disk, st, paths, prefix, p);
      ScanKeepsItems(h, disk, RunInOrder(h, disk, st, paths, prefix).0, paths[order[|order| - 1]], p);
    }
  }

  /** Whatever the order, each index that ran holds what scanning its path alone on the
      initial state returns. */
  lemma {:induction false} RunInOrderIsPerIndex(h: Hashing, disk: Disk, st: Store, paths: seq<string>,
                                                order: seq<nat>)
    requires forall k :: 0 <= k < |order| ==> order[k] < |paths|
    ensures var done := RunInOrder(h, disk, st, paths, order).1;
      && (forall i :: i in order ==> i in done)
      && (forall i :: i in done ==> i < |paths| && done[i] == ScanOne(h, disk, st, paths[i]).1)
  {
    if order != [] {
      var prefix := order[..|order| - 1];
      RunInOrderIsPerIndex(h, disk, st, paths, prefix);
      RunInOrderKeepsItems(h, disk, st, paths, prefix, paths[order[|order| - 1]]);
    }
  }

  /** Collecting results by position (`Promise.all`) gives the same array whichever order
      the tasks ran in, as long as every task ran. */
  lemma CompletionOrderIrrelevant(h: Hashing, disk: Disk, st: Store, paths: seq<string>, order: seq<nat>)
    requires forall k :: 0 <= k < |order| ==> order[k] < |paths|
    requires forall i :: 0 <= i < |paths| ==> i in order
    ensures |ScanAll(h, disk, st, paths).1| == |paths|
    ensures var done := RunInOrder(h, disk, st, paths, order).1;
      forall i :: 0 <= i < |paths| ==> i in done && done[i] == ScanAll(h, disk, st, paths).1[i]
  {
    RunInOrderIsPerIndex(h, disk, st, paths, order);
    BatchIsPerIndex(h, disk, st, paths);
  }

  // ---------------------------------------------------------------------------
  // The handlers

  /** A handler's reply: `{items}`, a 400 with its message, or a 500 with its code. */
  datatype BatchResponse = Items(items: seq<ScanItem>) | BadRequest(error: string) | ServerError(error: string)

  /** `/api/scan-paths` when `paths` is missing, not an array, or empty. */
  const PathsRequired := "paths[] required"
  /** `/api/scan-dir` when `dir` is falsy. */
  const DirRequired := "dir required"
  /** `/api/scan-dir` when the walk throws. */
  const ScanDirFailed := "scan_dir_failed"

  /** The indexer's mutable state: the cache loaded from the JSON store, and the uploads
      directory shared with the cover store. */
  class Indexer {
    var metadata: map<string, CacheEntry>
    const uploads: UploadsDir

    constructor (metadata: map<string, CacheEntry>, uploads: UploadsDir)
      ensures this.metadata == metadata && this.uploads == uploads
    {
      this.metadata := metadata;
      this.uploads := uploads;
    }

    ghost function State(): Store
      reads this, uploads
    {
      Store(metadata, uploads.files)
    }

    /** `scanSinglePath(p, db)`. */
    method ScanSinglePath(h: Hashing, disk: Disk, p: string) returns (item: ScanItem)
      modifies this, uploads
      ensures (State(), item) == ScanOne(h, disk, old(State()), p)
    {
      if p !in disk.stats {
        return Unreadable(p, UnreadableError);
      }
      var stat := disk.stats[p];
      if p in metadata && metadata[p].mtimeMs == stat.mtimeMs && metadata[p].size == stat.size {
        return Track(p, metadata[p].meta);
      }
      if p !in disk.tags {
        return Unreadable(p, UnreadableError);
      }
      var parsed := disk.tags[p];
      var coverUrl := uploads.EnsureCover(h, FirstPicture(parsed));
      var meta := Lite(parsed, BaseName(p), coverUrl);
      metadata := metadata[p := CacheEntry(stat.mtimeMs, stat.size, meta)];
      return Track(p, meta);
    }

    /** `Promise.all(paths.map(p => limit(() => scanSinglePath(p, db))))`, with the tasks
        run one after another in input order. */
    method ScanBatch(h: Hashing, disk: Disk, paths: seq<string>) returns (items: seq<ScanItem>)
      modifies this, uploads
      ensures (State(), items) == ScanAll(h, disk, old(State()), paths)
      ensures |items| == |paths|
      ensures forall i :: 0 <= i < |paths| ==> items[i] == ScanOne(h, disk, old(State()), paths[i]).1
    {
      ghost var initial := State();
      items := [];
      for i := 0 to |paths|
        invariant (State(), items) == ScanAll(h, disk, initial, paths[..i])
      {
        assert paths[..i + 1][..i] == paths[..i];
        var item := ScanSinglePath(h, disk, paths[i]);
        items := items + [item];
      }
      assert paths[..|paths|] == paths;
      BatchIsPerIndex(h, disk, initial, paths);
    }

    /** `POST /api/scan-paths`. `paths` is `None` when the body has no array there. */
    method ScanPaths(h: Hashing, disk: Disk, paths: Option<seq<string>>) returns (resp: BatchResponse)
      modifies this, uploads
      ensures paths.None? || paths.value == [] ==> resp == BadRequest(PathsRequired) && State() == old(State())
      ensures paths.Some? && paths.value != [] ==>
                (State(), resp) == (ScanAll(h, disk, old(State()), paths.value).0,
                                    Items(ScanAll(h, disk, old(State()), paths.value).1))
    {
      if paths.None? || paths.value == [] {
        return BadRequest(PathsRequired);
      }
      var items := ScanBatch(h, disk, paths.value);
      return Items(items);
    }

    /** `POST /api/scan-dir`. `dir` is "" when missing; `root` is the node at `dir`, `None`
        when nothing is there. */
    method ScanDir(h: Hashing, disk: Disk, dir: string, root: Option<Walk.Node>) returns (resp: BatchResponse)
      modifies this, uploads
      ensures dir == "" ==> resp == BadRequest(DirRequired) && State() == old(State())
      ensures dir != "" && (root.None? || Walk.Walked(dir, root.value).None?) ==>
                resp == ServerError(ScanDirFailed) && State() == old(State())
      ensures dir != "" && root.Some? && Walk.Walked(dir, root.value).Some? ==>
                var all := Walk.AudioFiles(Walk.Walked(dir, root.value).value);
                (State(), resp) == (ScanAll(h, disk, old(State()), all).0,
                                    Items(ScanAll(h, disk, old(State()), all).1))
    {
      if dir == "" {
        return BadRequest(DirRequired);
      }
      if root.None? {
        return ServerError(ScanDirFailed);
      }
      var walked := Walk.WalkDir(dir, root.value, []);
      if walked.None? {
        return ServerError(ScanDirFailed);
      }
      assert walked.value == Walk.Walked(dir, root.value).value;
      var items := ScanBatch(h, disk, Walk.AudioFiles(walked.value));
      return Items(items);
    }
  }
}
