# Local music library indexer — a Dafny model

This project models the local-library indexer of a music streaming backend, and proves
properties of that model. The backend is a Node.js/Express server. The model covers:

- the bounded concurrency limiter `pLimit`;
- the content-addressed cover store `ensureCover`;
- the incremental per-file scan `scanSinglePath`, with its fingerprint cache, and the two
  batch endpoints built on it (`/api/scan-paths`, `/api/scan-dir`);
- the recursive directory walk `walkDir` and the audio-extension filter;
- the upload metadata endpoint `/api/metadata`, with its 24-hour cache;
- the track listing and search `/api/tracks`;
- the HTTP range handling of `streamSong` (RFC 7233: section 2.1 for the range syntax,
  section 4.1 for 206 Partial Content, section 4.2 for Content-Range);
- the page arithmetic of `getSongs`.

All I/O becomes data:

- The filesystem becomes maps, and each map says in its own way what a missing key means:
  - scan: path to `stat` result and path to parse result; a path missing from either is
    the call that throws, so the item is `{path, error: 'unreadable'}`;
  - uploads directory: file name to bytes; a missing name is a file that does not exist
    yet, so `ensureCover` writes it;
  - stream: audio URL to bytes; a missing URL is a file for which `existsSync` is false,
    so the reply is 404 `Audio file not found`.
- The tag parser is an input. For the scan it is the parse result per path; for the
  upload it is a function of the bytes, the MIME type and the size that the endpoint
  passes to `parseBuffer`.
- The SHA-1 digest (FIPS 180-4) and `mime.extension` are function-valued parameters.
- The clock is a parameter.

Files, one module each:

| file | module | what it holds |
|---|---|---|
| `common.dfy` | `Common` | Option, bytes, `||` on strings, ASCII lower-casing, `trim` whitespace, decimal rendering and `parseInt`, `includes`, `path.join`, `path.parse().name` |
| `limiter.dfy` | `Limiter` | `pLimit` as a state machine, event traces, and the class `Limit` |
| `covers.dfy` | `Covers` | `ensureCover` as a function on the uploads directory, and the class `UploadsDir` |
| `tags.dfy` | `Tags` | the metadata record built from a parse result, with its fallbacks |
| `walk.dfy` | `Walk` | `walkDir` over a directory tree, and the audio filter |
| `scan.dfy` | `Scan` | `scanSinglePath`, batches in input order and in any order, and the class `Indexer` with the two scan endpoints |
| `upload_cache.dfy` | `UploadCache` | `/api/metadata` and its TTL cache, and the class `MetadataEndpoint` |
| `tracks.dfy` | `Tracks` | `/api/tracks` listing and search |
| `stream.dfy` | `Stream` | `streamSong` status, headers and body |
| `pagination.dfy` | `Pagination` | `getSongs` page, limit, skip and pages |

The code that works by mutation is modelled as classes:

- `pLimit`'s closure state;
- `db.metadata`;
- the uploads directory;
- `META_CACHE`.

Each class method is proved equal to a specification function of the old state. The
properties are lemmas about those functions. The walk's `for` loop over directory entries is
a method with loop invariants, and so is the batch over paths. The rest is pure.

Two behaviours of the code are easy to miss:

- `ensureCover` returns `null` only when the picture or its `data` field is missing. An
  empty buffer is truthy in JavaScript, so empty picture data is stored under its digest
  like any other (`Covers.EmptyDataIsStored`).
- The directory scan (`/api/scan-dir`) walks the directory before it reads the database.
  A walk that throws therefore leaves the cache untouched and answers 500
  `scan_dir_failed`.

## Model

| member | source | states |
|---|---|---|
| Limiter.SubmitStep | server.js:99-107 | `limit(fn)` on the closure state: runs at once with `active + 1` below the bound, else appends to `queue` |
| Limiter.CompleteStep | server.js:95-98 | `next()` on the closure state: `active - 1`, then the queue head starts (count back up) when there is one; requires an active run |
| Limiter.SubmitKeepsInv | server.js:99-108 | a submission starts at once exactly when `active < concurrency`, and is appended to the queue otherwise; the bound and "queue non-empty only when saturated" are kept |
| Limiter.CompleteKeepsInv | server.js:95-98 | a settlement starts exactly the queue head with the count unchanged, or lowers the count when the queue is empty; the invariant is kept |
| Limiter.ReplayInvariant | server.js:92-109 | over every event trace: `active <= concurrency`; a non-empty queue implies `active == concurrency`; started tasks followed by the queue are exactly the submissions; `active` equals starts minus settlements |
| Limiter.StartOrderIsSubmissionOrder | server.js:96-107 | tasks start in FIFO submission order: the started tasks are a prefix of the submissions |
| Limiter.SettleEnabledIff | server.js:100-105 | a settlement can follow a trace exactly when a run is active |
| Limiter.Limit.Submit | server.js:99-108 | `limit(fn)` updates `active` and `queue` as the step function says, and keeps the class invariant and the ghost history |
| Limiter.Limit.Complete | server.js:95-98 | `next()` updates `active` and `queue` as the step function says, starts the head; keeps the invariant |
| Limiter.Limit.constructor | server.js:92-94 | a fresh limiter has no active runs and an empty queue |
| Covers.StoreCover | server.js:115-125 | `ensureCover` on the uploads directory: the new directory and the reference, writing `cover-<sha1>.<ext>` only when it does not exist |
| Covers.CoverRefShape | server.js:115-124 | the reference is `null` exactly when the picture or its data is missing, and otherwise `/uploads/cover-<sha1(data)>.<ext>` |
| Covers.ExtensionDefaults | server.js:118 | the extension is never empty: it is `jpg` when the MIME library knows none, and a missing format is looked up as `image/jpeg` |
| Covers.EmptyDataIsStored | server.js:116 | empty picture data is not `null`: it is stored and referenced |
| Covers.RefIgnoresDirectory | server.js:117-124 | the reference depends only on the bytes and the format, never on the uploads directory |
| Covers.StoreIsWriteOnce | server.js:119-123 | no existing file changes; at most the picture's own file name is added, holding the picture's bytes |
| Covers.StoreIdempotent | server.js:115-125 | a second call with the same picture returns the same reference and leaves the directory unchanged |
| Covers.SameBytesShareOneFile | server.js:117-123 | two pictures with the same bytes and format share one reference and add exactly one file |
| Covers.RefDeterminesDigest | server.js:111-124 | with fixed-length digests, equal references imply equal digests |
| Covers.UploadsDir.EnsureCover | server.js:115-125 | the method's directory and reference are those of the store function on the old directory |
| Tags.Lite | server.js:139-145 | the `metaLite`/`data` record built from a parse result, a fallback name and the cover reference (also server.js:195-201) |
| Tags.LiteFallbacks | server.js:136-145 | non-empty tags are kept verbatim; an empty or missing title becomes the file's base name; artist and album become `Unknown`; the duration is present exactly when it is a number |
| Tags.MissingCommonIsEmpty | server.js:136-138 | a missing `common` gives the base name, `Unknown`, `Unknown` and no picture |
| Common.BaseName | server.js:140 | `path.parse(p).name`: the last path segment without its last extension; a leading dot and `..` are kept (also server.js:196) |
| Common.BaseNameStripsExtension | server.js:140 | `path.parse(dir/stem.ext).name` is `stem` |
| Walk.Walked | server.js:153-161 | `walkDir` on a directory tree: the joined paths of the non-directory entries in listing order, or a failure when a listing throws |
| Walk.WalkEntries | server.js:155-159 | the loop's accumulator after the first `k` entries of one listing |
| Walk.WalkDir | server.js:153-161 | the method's result is the accumulator followed by the walk of the tree, or a failure when a listing throws |
| Walk.FailureIsFinal | server.js:154-157 | once a sub-walk throws, the walk of the whole listing throws |
| Walk.WalkedFindsFiles | server.js:153-161 | a successful walk returns exactly the non-directory entries below the root, at their joined paths |
| Walk.WalkEntriesFinds | server.js:155-159 | after the first `k` entries, the collected paths are exactly those found at or below those entries |
| Walk.WalkSucceedsIff | server.js:154-157 | the walk succeeds exactly when the root and every directory below it can be listed |
| Walk.WalkEntriesSucceedsIff | server.js:155-158 | the first `k` entries walk without error exactly when every directory among them can be listed |
| Walk.IsAudioFile | server.js:241 | the regex test: the ASCII-lower-cased path ends with `.mp3`, `.m4a`, `.aac`, `.flac`, `.wav`, `.ogg` or `.opus` |
| Walk.AudioFiles | server.js:241 | `filter` with that test over the walk's paths |
| Walk.AudioFilesMembers | server.js:241 | the filter keeps exactly the paths ending in one of the seven audio extensions, ignoring ASCII case |
| Walk.AudioFilesDistributes | server.js:241 | the filter keeps the walk's order: filtering a concatenation filters each part |
| Walk.AudioFilterAcceptsAnyCase | server.js:241 | `.MP3` and `.Opus` pass the case-insensitive test |
| Walk.AudioFilterRejectsImages | server.js:241 | a `.jpg` path fails the test |
| Walk.AudioFilterNeedsTheDot | server.js:241 | a name ending in `mp3` without the dot fails the test |
| Walk.AudioFilterIgnoresCase | server.js:241 | paths equal up to ASCII case are kept or dropped together |
| Scan.ScanOne | server.js:127-151 | `scanSinglePath` on the cache and uploads directory: the new state and the item |
| Scan.ScanOneOutcome | server.js:127-151 | each item carries its path; it is `{path, error: 'unreadable'}` exactly when the stat fails or a cache miss fails to parse; a failed scan changes nothing |
| Scan.CacheHitSkipsParse | server.js:129-134 | with equal `mtimeMs` and `size`, the cached meta is returned with the path, the state is unchanged, and the parser's answer does not matter |
| Scan.CacheMissReplacesEntry | server.js:135-147 | on a miss, the entry is replaced wholesale by the new fingerprint and record; no other key changes; the item is that record with the path |
| Scan.RescanIsIdempotent | server.js:131-147 | a rescan right after a scan returns the same item and changes nothing |
| Scan.ScanKeepsItems | server.js:127-151 | scanning any path never changes the item a later scan of any path returns |
| Scan.ScanAll | server.js:222-225 | the batch run one scan after another in input order: the final state and the items by position |
| Scan.ScanAllKeepsItems | server.js:223-224 | a whole batch never changes the item a later scan of any path returns |
| Scan.BatchIsPerIndex | server.js:223-227 | one item per path; item `i` carries `paths[i]` and equals the scan of `paths[i]` alone; an unreadable path affects only its own item |
| Scan.BatchFreshensItsPaths | server.js:223-226 | a batch writes only its own paths' entries, and each readable path then hits the cache |
| Scan.RunInOrderKeepsItems | server.js:222-224 | in any start order, running tasks never changes the item a later scan returns |
| Scan.RunInOrderIsPerIndex | server.js:222-224 | in any start order, each task's result is the scan of its path alone on the initial state |
| Scan.CompletionOrderIrrelevant | server.js:223-224 | collecting by position gives the in-order batch's items whichever order the tasks ran in |
| Scan.Indexer.ScanSinglePath | server.js:127-151 | the method's cache, uploads and item are those of the scan function on the old state |
| Scan.Indexer.ScanBatch | server.js:222-225 | the method's state and items are the in-order batch; item `i` is the scan of `paths[i]` alone |
| Scan.Indexer.ScanPaths | server.js:213-227 | a missing or empty `paths` gives 400 `paths[] required` and no change; otherwise the batch's items |
| Scan.Indexer.ScanDir | server.js:237-246 | `dir` missing gives 400 `dir required`; a failing walk gives 500 `scan_dir_failed` and no change; otherwise the batch over the walk's audio files |
| UploadCache.HandleUpload | server.js:176-208 | `POST /api/metadata` on the cache and uploads directory at time `now`: the new cache, the new directory and the reply |
| UploadCache.ParseUpload | server.js:187 | `mm.parseBuffer(buffer, {mimeType, size})`: the parser applied to the bytes, the upload's MIME type and its byte count |
| UploadCache.FreshnessBoundary | server.js:173-184 | the TTL is 86,400,000 ms; an entry is a hit exactly while `now < ts + TTL`; at exactly 24 hours it is a miss |
| UploadCache.MissingFileRefused | server.js:178 | no file gives 400 `file is required` and no change |
| UploadCache.HitSkipsParse | server.js:183-186 | a hit returns the cached data under the new upload's name, changes nothing, and does not call the parser |
| UploadCache.MissParseFails | server.js:187-206 | a miss whose parse throws gives 500 `metadata_parse_failed` and changes nothing |
| UploadCache.MissStoresFresh | server.js:187-203 | a miss with a successful parse stores `{data, ts: now}` under the digest, overwriting the old entry and no other, and replies with that data under the upload's name |
| UploadCache.ReuploadReturnsFirstData | server.js:183-203 | re-uploading the same bytes within 24 hours returns the first upload's data, title included, under the new source name, whatever the new name and MIME type |
| UploadCache.MetadataEndpoint.Handle | server.js:176-208 | the method's cache, uploads and reply are those of the handler function on the old state |
| UploadCache.MetadataEndpoint.constructor | server.js:172 | the cache starts empty |
| Tracks.AllTracks | server.js:260 | `Object.keys(meta).map(p => ({path: p, ...meta[p].meta}))` over the given key order; requires every key to be cached |
| Tracks.FilterMatching | server.js:263-267 | `items.filter` with the title/artist/album `includes` test |
| Tracks.ListTracks | server.js:256-270 | the reply's `items`: all tracks, filtered only when `q` is present and not blank; requires every key to be cached |
| Tracks.AllTracksLinesUp | server.js:260 | one listed item per key, in key order, each carrying its key and cached meta |
| Tracks.AllTracksListsEveryKey | server.js:259-260 | every cached track is listed with its cached meta, and nothing else is |
| Tracks.FilterMembers | server.js:263-267 | the filter keeps exactly the matching items |
| Tracks.FilterDistributes | server.js:263-267 | the filter keeps the listing order |
| Tracks.ListTracksMembers | server.js:256-270 | a missing or blank query lists every cached track; otherwise a track is listed exactly when its lower-cased title, artist or album contains the lower-cased query |
| Tracks.SearchIgnoresQueryCase | server.js:261-262 | queries equal up to ASCII case list the same tracks |
| Tracks.MatchExample | server.js:262-266 | `moon` matches the title `Blue Moon` |
| Common.LowerChar | server.js:262-266 | `toLowerCase` on one ASCII character: the result is never upper-case, an upper-case letter becomes a lower-case letter, and any other character is unchanged |
| Common.Lower | server.js:262-266 | `toLowerCase` on ASCII: same length, no upper-case letter left, and every character that was not an upper-case letter kept in place |
| Common.ContainsIff | server.js:264-266 | `includes` holds exactly when the needle occurs at some offset |
| Stream.NotFoundCases | src/controllers/music.controller.js:33-42 | an unknown song gives 404 `Song not found`; a missing file gives 404 `Audio file not found`; no other case is a 404 |
| Stream.FullResponse | src/controllers/music.controller.js:64-70 | without a range: the whole file, `Content-Length` its size, and `Content-Type` the song's type or `audio/mpeg` |
| Stream.RangeHeaderRoundTrip | src/controllers/music.controller.js:49-51 | `bytes=S-E` is read back as start S and end E |
| Stream.OpenRangeHeaderRoundTrip | src/controllers/music.controller.js:49-51 | `bytes=S-` is read back as start S and end `size - 1` |
| Stream.RangeResponse | src/controllers/music.controller.js:48-63 | for S <= E < size with E at most `Number.MAX_SAFE_INTEGER`: 206, body exactly bytes S..E, `Content-Length` E-S+1 (the body's length), `Content-Range` `bytes S-E/size`, `Accept-Ranges: bytes` |
| Stream.OpenRangeResponse | src/controllers/music.controller.js:51-53 | for `bytes=S-` inside a file of at most 2^53 bytes: the body is the file from S, `Content-Length` is size - S |
| Stream.OverlongRangeIsShort | src/controllers/music.controller.js:51-53 | an end at or past the size, up to `Number.MAX_SAFE_INTEGER`, still announces E-S+1 bytes, but the body stops at the end of the file |
| Stream.InvertedRangeFails | src/controllers/music.controller.js:50-74 | a start after the end (including `bytes=S-` on an empty file) gives 500 |
| Stream.UnsafeRangeFails | src/controllers/music.controller.js:49-74 | a start above `Number.MAX_SAFE_INTEGER` (2^53 - 1), or an end above it that stays finite as a double (below 2^1024 - 2^970), gives 500, because the read stream rejects such a start or end; the same holds for `bytes=S-` with such a start, or on a file of more than 2^53 bytes |
| Stream.InfiniteEndReadsToEnd | src/controllers/music.controller.js:49-63 | an end that `parseInt` rounds to `Infinity` (at least 2^1024 - 2^970), after a safe start, gives 206 with `Content-Range` `bytes S-Infinity/size` and `Content-Length` `Infinity`; the body is the file from S to its end, and empty when S is past the end |
| Stream.StreamSong | src/controllers/music.controller.js:31-75 | computes the reply from the song lookup, the file map and the range header; requires the header to be absent or `bytes=<digits>-<digits?>` |
| Common.DecimalRoundTrip | src/controllers/music.controller.js:56 | reading back a rendered number gives the number |
| Pagination.Query | src/controllers/music.controller.js:7-9 | `page` and `limit` with their defaults, and `skip = (page - 1) * limit` |
| Pagination.Pages | src/controllers/music.controller.js:23 | `Math.ceil(total / limit)` with real division; requires a non-zero limit, which the defaults guarantee |
| Pagination.Reply | src/controllers/music.controller.js:18-25 | the reply's `count`, `total`, `page`, `pages` and `songs` from the query's results |
| Pagination.Defaults | src/controllers/music.controller.js:7-9 | missing, unparsable or zero parameters give page 1 and limit 20; the limit is never 0 |
| Pagination.SkipAdvancesByLimit | src/controllers/music.controller.js:9 | page 1 skips nothing, and each page starts `limit` records after the one before |
| Pagination.Ceil | src/controllers/music.controller.js:23 | `Math.ceil(x)` is the least integer not below `x` |
| Pagination.PagesIsCeilingDivision | src/controllers/music.controller.js:23 | for a positive limit `pages` is `(total + limit - 1) / limit`, the least page count holding `total` records |
| Pagination.PagesExamples | src/controllers/music.controller.js:23 | 45 records take 3 pages of 20; 40 take 2; 1 takes 1; 0 take 0 |
| Pagination.LastPageIsPages | src/controllers/music.controller.js:9-23 | pages 1..`pages` start inside the records; the page after the last starts at or past the end |
| Pagination.ReplyIsConsistent | src/controllers/music.controller.js:18-25 | the reply's count, total and page are those of the query; the page is within `pages` exactly when it starts inside the records |

## Left out

- Express wiring is not modelled: CORS, compression, static serving of `/uploads`, router mounting and `listen`.
- The multer middleware is not modelled, including its 200 MB limit. The handler sees a file or no file.
- The JSON store (`readDb`/`writeDb`) is not modelled. The cache is the class field. A store write cannot fail, so the scan-paths endpoint never answers 500 `scan_failed` in the model.
- Concurrent requests are not modelled. Each request reads its own copy of the store and the last write wins. The model has one process-wide cache.
- Promise interleaving inside a batch is not modelled. While one scan waits on the parser, another can run. The limiter is modelled as a state machine over submit/settle events, and the batch is modelled run in input order and in any start order, one scan at a time. Races on the same path, or on one cover file, are not modelled.
- The tag parser (`music-metadata`), SHA-1 and `mime.extension` are parameters. Every property holds for any functions passed.
- Cover writes never fail in the model. A failing `writeFileSync` would make the scan item `unreadable`, and the upload reply 500.
- `Scan.ScanOne`: `mtimeMs` is a float in Node. It is an integer here, compared for equality.
- `Tags.LiteFallbacks`: the duration is a real number passed through, not a floating-point value.
- Lower-casing covers ASCII letters only. Full Unicode `toLowerCase` is not modelled in the `/api/tracks` search. For the extension regex ASCII folding is exact.
- `path.join` is modelled as `dir + "/" + name`, with POSIX separators only and without normalisation. On Windows `path.join` inserts `\` and `path.parse` splits on both `/` and `\`; neither is modelled. `path.parse` does not strip trailing slashes here.
- `Tracks.ListTracks` does not model the order of `Object.keys`, which puts integer-like keys first. The key order is an input, a sequence that names each key once.
- `Stream.StreamSong` requires the range header to be absent or of the form `bytes=<digits>-<digits?>`. The handler does not validate headers. Suffix ranges (`bytes=-N`), multiple ranges, other units, and `parseInt` on other text are not modelled.
- `Stream.StreamSong`: numbers are exact integers, where in JavaScript they are doubles, exact up to 2^53 - 1. The model follows the read stream at the bounds. A start above that bound gives 500. A finite end above it gives 500. An end from 2^1024 - 2^970 upwards becomes `Infinity` and gives the 206 of `Stream.InfiniteEndReadsToEnd`. Every other reply uses only exact values. In the model the file size is exact at any size; in Node `stat.size` is a double, exact up to 2^53 bytes.
- `Stream.RangeHeaderRoundTrip`: the digits are read exactly at any length, where `parseInt` rounds a value above 2^53 - 1 to a double. Such a value rounds to at least 2^53, so the reply is 500 (`Stream.UnsafeRangeFails`), or, for an end that rounds to `Infinity`, the 206 of `Stream.InfiniteEndReadsToEnd`. The round trip is the source's behaviour only up to `Number.MAX_SAFE_INTEGER`.
- `Stream.UnsafeRangeFails`: the finite ends it covers stop below 2^1024 - 2^970, because from there on `parseInt` gives `Infinity`, which the read stream accepts (`Stream.InfiniteEndReadsToEnd`).
- `Stream.OpenRangeHeaderRoundTrip`: as for `Stream.RangeHeaderRoundTrip`, the start is read back exactly only up to `Number.MAX_SAFE_INTEGER` in the source.
- `Stream.StreamSong` keys files by the song's `audioUrl`. The `path.join` with the server directory is not modelled.
- The database is not modelled. That covers the Mongo lookups in the controller (`findById`, `find`, `countDocuments`), their errors (the 500 with the error message), and `searchSongs`. `Pagination.Reply` takes the page of songs and the total as inputs.
- `Pagination.Pages`: a negative limit is modelled as in JavaScript (a real division and a ceiling). What the database does with a negative `skip` or `limit` is not modelled.
- `Pagination.Query`: `skip` is `(page - 1) * limit` on unbounded integers. In JavaScript it is a double, which rounds a product above 2^53 - 1. A parameter of 309 or more digits, which `parseInt` reads as `Infinity`, is outside the model. `Infinity || 20` keeps `Infinity`, and such a limit gives `pages` 0.
- The stream itself (`createReadStream`, `pipe`, `writeHead`) is modelled as the bytes it yields, through `Stream.ReadRange`.
