/** The upload endpoint `/api/metadata` and its in-memory cache `META_CACHE`: parse results
    keyed by the SHA-1 digest of the uploaded bytes, each stamped with the time it was
    stored and trusted for 24 hours.

    The clock (`Date.now()`) and the parser (`mm.parseBuffer`) are inputs; the digest is
    the `sha1` of the `Hashing` parameter, the same function the cover store uses. */
module UploadCache {
  import opened Common
  import opened Covers
  import opened Tags

  /** `META_TTL_MS`: 24 hours in milliseconds. */
  const MetaTtlMs: int := 1000 * 60 * 60 * 24

  /** A cache value `{data, ts}`. */
  datatype CachedMeta = CachedMeta(data: TrackMeta, ts: int)

  /** The uploaded file `{buffer, originalname, mimetype}`; `None` stands for a request
      without one. */
  datatype Upload = Upload(buffer: seq<byte>, originalName: string, mimeType: string)

  /** The parser: the parse result of the bytes under the `mimeType` and `size` hints,
      `None` where it throws. */
  type Parser = (seq<byte>, string, nat) -> Option<Parsed>

  /** `mm.parseBuffer(buffer, {mimeType: mimetype, size})`, with `size` the byte count. */
  function ParseUpload(parse: Parser, u: Upload): Option<Parsed> {
    parse(u.buffer, u.mimeType, |u.buffer|)
  }

  /** The endpoint's replies: `{sourceName, ...data}`, a 400, or a 500. */
  datatype MetaResponse = Meta(sourceName: string, data: TrackMeta) | BadRequest(error: string)
                        | ServerError(error: string)

  const FileRequired := "file is required"
  const ParseFailed := "metadata_parse_failed"

  /** The cached entry under `key` is fresh at time `now`: `now - cached.ts < META_TTL_MS`. */
  predicate Fresh(cache: map<string, CachedMeta>, key: string, now: int) {
    key in cache && now - cache[key].ts < MetaTtlMs
  }

  /** The request at time `now`: the cache and the uploads directory afterwards, and the
      reply. */
  function HandleUpload(h: Hashing, parse: Parser, cache: map<string, CachedMeta>,
                        uploads: map<string, seq<byte>>, file: Option<Upload>, now: int)
    : (map<string, CachedMeta>, map<string, seq<byte>>, MetaResponse)
  {
    if file.None? then (cache, uploads, BadRequest(FileRequired))
    else
      var key := h.sha1(file.value.buffer);
      if Fresh(cache, key, now) then (cache, uploads, Meta(file.value.originalName, cache[key].data))
      else
        match ParseUpload(parse, file.value)
        case None => (cache, uploads, ServerError(ParseFailed))
        case Some(parsed) =>
          var (uploads', coverUrl) := StoreCover(h, uploads, FirstPicture(parsed));
          var data := Lite(parsed, BaseName(file.value.originalName), coverUrl);
          (cache[key := CachedMeta(data, now)], uploads', Meta(file.value.originalName, data))
  }

  /** The TTL is 86,400,000 ms, and an entry is fresh exactly while it is younger than
      that: at exactly 24 hours it has expired. */
  lemma FreshnessBoundary(cache: map<string, CachedMeta>, key: string, now: int)
    requires key in cache
    ensures MetaTtlMs == 86_400_000
    ensures Fresh(cache, key, now) <==> now < cache[key].ts + 86_400_000
    ensures !Fresh(cache, key, cache[key].ts + 86_400_000)
    ensures Fresh(cache, key, cache[key].ts + 86_399_999)
  {
  }

  /** A request without a file is refused and changes nothing. */
  lemma MissingFileRefused(h: Hashing, parse: Parser, cache: map<string, CachedMeta>,
                           uploads: map<string, seq<byte>>, now: int)
    ensures HandleUpload(h, parse, cache, uploads, None, now) == (cache, uploads, BadRequest("file is required"))
  {
  }

  /** A hit returns the cached data under the name of this upload, changes nothing, and
      does not run the parser: any other parser gives the same outcome. */
  lemma HitSkipsParse(h: Hashing, parse: Parser, otherParse: Parser,
                      cache: map<string, CachedMeta>, uploads: map<string, seq<byte>>, u: Upload, now: int)
    requires Fresh(cache, h.sha1(u.buffer), now)
    ensures HandleUpload(h, parse, cache, uploads, Some(u), now) ==
            (cache, uploads, Meta(u.originalName, cache[h.sha1(u.buffer)].data))
    ensures HandleUpload(h, otherParse, cache, uploads, Some(u), now) ==
            HandleUpload(h, parse, cache, uploads, Some(u), now)
  {
  }

  /** A miss (no entry, or an expired one) whose parse fails answers 500 and changes
      nothing. */
  lemma MissParseFails(h: Hashing, parse: Parser, cache: map<string, CachedMeta>,
                       uploads: map<string, seq<byte>>, u: Upload, now: int)
    requires !Fresh(cache, h.sha1(u.buffer), now) && ParseUpload(parse, u).None?
    ensures HandleUpload(h, parse, cache, uploads, Some(u), now) ==
            (cache, uploads, ServerError("metadata_parse_failed"))
  {
  }

  /** A miss whose parse succeeds stores the freshly built record stamped `now` under the
      digest, overwriting any old entry and leaving every other key alone, and returns
      that record under the upload's name. */
  lemma MissStoresFresh(h: Hashing, parse: Parser, cache: map<string, CachedMeta>,
                        uploads: map<string, seq<byte>>, u: Upload, now: int)
    requires !Fresh(cache, h.sha1(u.buffer), now) && ParseUpload(parse, u).Some?
    ensures var (cache', uploads', resp) := HandleUpload(h, parse, cache, uploads, Some(u), now);
      var key, parsed := h.sha1(u.buffer), ParseUpload(parse, u).value;
      var data := Lite(parsed, BaseName(u.originalName), CoverRef(h, FirstPicture(parsed)));
      && resp == Meta(u.originalName, data)
      && key in cache' && cache'[key] == CachedMeta(data, now) && Fresh(cache', key, now)
      && cache'.Keys == cache.Keys + {key}
      && (forall k :: k in cache && k != key ==> cache'[k] == cache[k])
      && uploads' == StoreCover(h, uploads, FirstPicture(parsed)).0
  {
    var key, parsed := h.sha1(u.buffer), ParseUpload(parse, u).value;
    var (uploads', coverUrl) := StoreCover(h, uploads, FirstPicture(parsed));
    RefIgnoresDirectory(h, uploads, map[], FirstPicture(parsed));
    var data := Lite(parsed, BaseName(u.originalName), coverUrl);
    assert HandleUpload(h, parse, cache, uploads, Some(u), now) ==
           (cache[key := CachedMeta(data, now)], uploads', Meta(u.originalName, data));
  }

  /** Once an upload has been parsed and stored, uploading the same bytes again within 24
      hours, under any name and MIME type and with any parser, returns the data stored the
      first time, including the title derived from the first upload's file name; only the
      source name is the new one, and nothing changes. */
  lemma ReuploadReturnsFirstData(h: Hashing, parse: Parser, otherParse: Parser,
                                 cache: map<string, CachedMeta>, uploads: map<string, seq<byte>>,
                                 u: Upload, otherName: string, otherType: string,
                                 now: int, later: int)
    requires now <= later < now + MetaTtlMs
    requires !Fresh(cache, h.sha1(u.buffer), now) && ParseUpload(parse, u).Some?
    ensures var (cache1, uploads1, first) := HandleUpload(h, parse, cache, uploads, Some(u), now);
      var (cache2, uploads2, second) :=
        HandleUpload(h, otherParse, cache1, uploads1, Some(Upload(u.buffer, otherName, otherType)), later);
      && first.Meta? && second == Meta(otherName, first.data)
      && cache2 == cache1 && uploads2 == uploads1
  {
    MissStoresFresh(h, parse, cache, uploads, u, now);
  }

  // ---------------------------------------------------------------------------

  /** The process-wide cache, and the uploads directory it shares with the indexer. */
  class MetadataEndpoint {
    var cache: map<string, CachedMeta>
    const uploads: UploadsDir

    constructor (uploads: UploadsDir)
      ensures cache == map[] && this.uploads == uploads
    {
      cache := map[];
      this.uploads := uploads;
    }

    /** `POST /api/metadata` at time `now`. */
    method Handle(h: Hashing, parse: Parser, file: Option<Upload>, now: int)
      returns (resp: MetaResponse)
      modifies this, uploads
      ensures (cache, uploads.files, resp) == HandleUpload(h, parse, old(cache), old(uploads.files), file, now)
    {
      if file.None? {
        return BadRequest(FileRequired);
      }
      var key := h.sha1(file.value.buffer);
      if key in cache && now - cache[key].ts < MetaTtlMs {
        return Meta(file.value.originalName, cache[key].data);
      }
      var meta := ParseUpload(parse, file.value);
      if meta.None? {
        return ServerError(ParseFailed);
      }
      var coverUrl := uploads.EnsureCover(h, FirstPicture(meta.value));
      var data := Lite(meta.value, BaseName(file.value.originalName), coverUrl);
      cache := cache[key := CachedMeta(data, now)];
      return Meta(file.value.originalName, data);
    }
  }
}
