/** `streamSong`: serves a song's audio file whole (200) or, for a `Range: bytes=S-E`
    request, the inclusive byte range S..E (206) with the headers of sections 4.1 and 4.2
    of RFC 7233.

    The song lookup and the filesystem are inputs: the song record, if found, and a map
    from the song's `audioUrl` to the file's bytes (a missing key is a missing file). The
    range header is `""` when absent, like the falsy `undefined`. */
module Stream {
  import opened Common

  /** The fields of a song record the handler reads; `mimeType` is "" when unset. */
  datatype Song = Song(audioUrl: string, mimeType: string)

  /** The reply. `Partial` carries the 206 headers and the bytes the read stream yields;
      `EndlessPartial` is the 206 sent when the end parses to `Infinity`, whose
      `Content-Length` is `Infinity` and whose stream reads to the end of the file;
      `ServerError` is the 500 raised when the stream rejects its range. */
  datatype StreamResponse =
    | NotFound(error: string)
    | Full(contentLength: nat, contentType: string, body: seq<byte>)
    | Partial(contentRange: string, acceptRanges: string, contentLength: nat, contentType: string,
              body: seq<byte>)
    | EndlessPartial(contentRange: string, acceptRanges: string, contentType: string, body: seq<byte>)
    | ServerError

  const SongNotFound := "Song not found"
  const FileNotFound := "Audio file not found"
  const DefaultType := "audio/mpeg"
  const RangeUnit := "bytes="

  /** `Number.MAX_SAFE_INTEGER`, 2^53 - 1: the read stream rejects a larger `end`
      (`ERR_OUT_OF_RANGE`), and up to it every integer is exact in a JavaScript number. */
  const MaxSafeInteger: nat := 9_007_199_254_740_991

  /** 2^1024 - 2^970, the least integer that rounds to `Infinity` as a JavaScript number:
      halfway between the largest finite double, 2^1024 - 2^971, and 2^1024. */
  const InfinityBound: nat := 179769313486231580793728971405303415079934132710037826936173778980444968292764750946649017977587207096330286416692887910946555547851940402630657488671505820681908902000708383676273854845817711531764475730270069855571366959622842914819860834936475292719074168444365510704342711559699508093042880177904174497792

  /** A header this handler reads as intended: `bytes=` followed by a non-empty run of
      digits, a dash, and a possibly empty run of digits (section 2.1 of RFC 7233, one
      range, no suffix form). */
  predicate WellFormedRange(r: string) {
    StartsWith(r, RangeUnit)
    && var rest := r[|RangeUnit|..];
       var dash := LastIndexOf(rest, '-');
       dash > 0 && AllDigits(rest[..dash]) && AllDigits(rest[dash + 1..])
  }

  /** The start: `parseInt(parts[0], 10)`, where `parts = range.replace(/bytes=/, "").split("-")`. */
  function RangeStart(r: string): nat
    requires WellFormedRange(r)
  {
    var rest := r[|RangeUnit|..];
    DigitsValue(rest[..LastIndexOf(rest, '-')])
  }

  /** The inclusive end: `parts[1] ? parseInt(parts[1], 10) : fileSize - 1`. */
  function RangeEnd(r: string, size: nat): int
    requires WellFormedRange(r)
  {
    var rest := r[|RangeUnit|..];
    var endPart := rest[LastIndexOf(rest, '-') + 1..];
    if endPart == "" then size - 1 else DigitsValue(endPart)
  }

  /** `song.mimeType || 'audio/mpeg'`. */
  function ContentType(song: Song): string {
    Or(song.mimeType, DefaultType)
  }

  /** `` `bytes ${start}-${end}/${fileSize}` ``. */
  function ContentRange(start: nat, end: nat, size: nat): string {
    "bytes " + Decimal(start) + "-" + Decimal(end) + "/" + Decimal(size)
  }

  /** `` `bytes ${start}-Infinity/${fileSize}` ``. */
  function EndlessContentRange(start: nat, size: nat): string {
    "bytes " + Decimal(start) + "-Infinity/" + Decimal(size)
  }

  /** What `fs.createReadStream(filePath, {start, end: Infinity})` yields: the bytes from
      offset start to the end of the file. */
  function ReadFrom(file: seq<byte>, start: nat): seq<byte> {
    if start >= |file| then [] else file[start..]
  }

  /** What `fs.createReadStream(filePath, {start, end})` yields for `start <= end`: the
      bytes at offsets start..end, cut short at the end of the file. */
  function ReadRange(file: seq<byte>, start: nat, end: nat): seq<byte>
    requires start <= end
  {
    if start >= |file| then [] else if end < |file| then file[start..end + 1] else file[start..]
  }

  /** The handler. `parseInt` turns an end of at least `InfinityBound` into `Infinity`.
      The read stream throws, and the handler answers 500, when the start is above
      `MaxSafeInteger`, or when the end is finite and either above `MaxSafeInteger` or
      below the start; an `Infinity` end means "to the end of the file". */
  function StreamSong(song: Option<Song>, files: map<string, seq<byte>>, range: string): StreamResponse
    requires range == "" || WellFormedRange(range)
  {
    if song.None? then NotFound(SongNotFound)
    else if song.value.audioUrl !in files then NotFound(FileNotFound)
    else
      var file := files[song.value.audioUrl];
      var size := |file|;
      if range == "" then Full(size, ContentType(song.value), file)
      else
        var start := RangeStart(range);
        var end := RangeEnd(range, size);
        if start > MaxSafeInteger then ServerError
        else if end >= InfinityBound then
          EndlessPartial(EndlessContentRange(start, size), "bytes", ContentType(song.value), ReadFrom(file, start))
        else if start > end || end > MaxSafeInteger then ServerError
        else Partial(ContentRange(start, end, size), "bytes", end - start + 1, ContentType(song.value),
                     ReadRange(file, start, end))
  }

  /** The range header a client sends for bytes `s..e`. */
  function RangeHeader(s: nat, e: nat): string {
    RangeUnit + Decimal(s) + "-" + Decimal(e)
  }

  /** An open-ended range header `bytes=S-`. */
  function OpenRangeHeader(s: nat): string {
    RangeUnit + Decimal(s) + "-"
  }

  // ---------------------------------------------------------------------------

  /** An unknown song, or a song whose file is missing, is a 404 and nothing is sent. */
  lemma NotFoundCases(song: Option<Song>, files: map<string, seq<byte>>, range: string)
    requires range == "" || WellFormedRange(range)
    ensures song.None? ==> StreamSong(song, files, range) == NotFound("Song not found")
    ensures song.Some? && song.value.audioUrl !in files ==>
              StreamSong(song, files, range) == NotFound("Audio file not found")
    ensures StreamSong(song, files, range).NotFound? <==> song.None? || song.value.audioUrl !in files
  {
  }

  /** Without a range the reply is a 200 carrying the whole file, with its size as
      `Content-Length`, and `Content-Type` the song's type or `audio/mpeg`. */
  lemma FullResponse(song: Song, files: map<string, seq<byte>>)
    requires song.audioUrl in files
    ensures var r := StreamSong(Some(song), files, "");
      && r.Full?
      && r.body == files[song.audioUrl] && r.contentLength == |r.body|
      && (song.mimeType != "" ==> r.contentType == song.mimeType)
      && (song.mimeType == "" ==> r.contentType == "audio/mpeg")
  {
  }

  /** The rendered number contains no dash. */
  lemma DecimalHasNoDash(n: nat)
    ensures forall i :: 0 <= i < |Decimal(n)| ==> Decimal(n)[i] != '-'
  {
  }

  /** A client's `bytes=S-E` is read back as start S and end E. */
  lemma RangeHeaderRoundTrip(s: nat, e: nat, size: nat)
    ensures WellFormedRange(RangeHeader(s, e))
    ensures RangeStart(RangeHeader(s, e)) == s && RangeEnd(RangeHeader(s, e), size) == e
  {
    var h := RangeHeader(s, e);
    var ds, de := Decimal(s), Decimal(e);
    var rest := h[|RangeUnit|..];
    assert rest == ds + "-" + de;
    DecimalHasNoDash(e);
    assert rest[|ds|] == '-';
    assert LastIndexOf(rest, '-') == |ds|;
    assert rest[..|ds|] == ds;
    assert rest[|ds| + 1..] == de;
    DecimalRoundTrip(s);
    DecimalRoundTrip(e);
  }

  /** A client's `bytes=S-` is read back as start S, and the end is the last byte. */
  lemma OpenRangeHeaderRoundTrip(s: nat, size: nat)
    ensures WellFormedRange(OpenRangeHeader(s))
    ensures RangeStart(OpenRangeHeader(s)) == s && RangeEnd(OpenRangeHeader(s), size) == size - 1
  {
    var h := OpenRangeHeader(s);
    var ds := Decimal(s);
    var rest := h[|RangeUnit|..];
    assert rest == ds + "-";
    assert LastIndexOf(rest, '-') == |ds|;
    assert rest[..|ds|] == ds;
    assert rest[|ds| + 1..] == "";
    DecimalRoundTrip(s);
  }

  /** For `bytes=S-E` with S <= E inside the file, the reply is a 206 whose body is
      exactly the bytes at offsets S..E, whose `Content-Length` is E - S + 1, the length of
      that body, and whose `Content-Range` is `bytes S-E/<size>`. */
  lemma RangeResponse(song: Song, files: map<string, seq<byte>>, s: nat, e: nat)
    requires song.audioUrl in files && s <= e < |files[song.audioUrl]| && e <= MaxSafeInteger
    ensures WellFormedRange(RangeHeader(s, e))
    ensures var file := files[song.audioUrl];
      var r := StreamSong(Some(song), files, RangeHeader(s, e));
      && r.Partial?
      && r.body == file[s..e + 1]
      && (forall i :: 0 <= i < |r.body| ==> r.body[i] == file[s + i])
      && r.contentLength == e - s + 1 == |r.body|
      && r.contentRange == "bytes " + Decimal(s) + "-" + Decimal(e) + "/" + Decimal(|file|)
      && r.acceptRanges == "bytes"
      && r.contentType == ContentType(song)
  {
    RangeHeaderRoundTrip(s, e, |files[song.audioUrl]|);
  }

  /** For `bytes=S-` inside the file, the range runs to the last byte: the body is the
      file from S on and `Content-Length` is size - S. */
  lemma OpenRangeResponse(song: Song, files: map<string, seq<byte>>, s: nat)
    requires song.audioUrl in files && s < |files[song.audioUrl]| <= MaxSafeInteger + 1
    ensures var file := files[song.audioUrl];
      var r := StreamSong(Some(song), files, OpenRangeHeader(s));
      && r.Partial?
      && r.body == file[s..]
      && r.contentLength == |file| - s == |r.body|
      && r.contentRange == ContentRange(s, |file| - 1, |file|)
  {
    OpenRangeHeaderRoundTrip(s, |files[song.audioUrl]|);
  }

  /** The handler does not validate the range against the file: an end at or past the
      size still announces E - S + 1 bytes, but the stream stops at the end of the file,
      so the body is shorter than `Content-Length` says (for an end the stream accepts). */
  lemma OverlongRangeIsShort(song: Song, files: map<string, seq<byte>>, s: nat, e: nat)
    requires song.audioUrl in files && s < |files[song.audioUrl]| <= e <= MaxSafeInteger
    ensures WellFormedRange(RangeHeader(s, e))
    ensures var file := files[song.audioUrl];
      var r := StreamSong(Some(song), files, RangeHeader(s, e));
      && r.Partial?
      && r.body == file[s..]
      && r.contentLength == e - s + 1 > |r.body|
  {
    RangeHeaderRoundTrip(s, e, |files[song.audioUrl]|);
  }

  /** A start after the end (including any open range of an empty file) makes the read
      stream throw, which the handler reports as a 500. */
  lemma InvertedRangeFails(song: Song, files: map<string, seq<byte>>, s: nat, e: nat)
    requires song.audioUrl in files && e < s
    ensures WellFormedRange(RangeHeader(s, e))
    ensures StreamSong(Some(song), files, RangeHeader(s, e)) == ServerError
    ensures files[song.audioUrl] == [] ==> StreamSong(Some(song), files, OpenRangeHeader(s)) == ServerError
  {
    RangeHeaderRoundTrip(s, e, |files[song.audioUrl]|);
    OpenRangeHeaderRoundTrip(s, |files[song.audioUrl]|);
  }

  /** A start above `MaxSafeInteger`, or a finite end above it, is a 500 whatever the
      file: the stream rejects such a start or end. So the rounding `parseInt` applies to
      digit strings above 2^53 reaches a reply only through an end that becomes
      `Infinity`. */
  lemma UnsafeRangeFails(song: Song, files: map<string, seq<byte>>, s: nat, e: nat)
    requires song.audioUrl in files
    requires s > MaxSafeInteger || MaxSafeInteger < e < InfinityBound
    ensures WellFormedRange(RangeHeader(s, e))
    ensures StreamSong(Some(song), files, RangeHeader(s, e)) == ServerError
    ensures s > MaxSafeInteger || MaxSafeInteger + 1 < |files[song.audioUrl]| <= InfinityBound ==>
              StreamSong(Some(song), files, OpenRangeHeader(s)) == ServerError
  {
    RangeHeaderRoundTrip(s, e, |files[song.audioUrl]|);
    OpenRangeHeaderRoundTrip(s, |files[song.audioUrl]|);
  }

  /** An end that `parseInt` rounds to `Infinity`, after a start the stream accepts, is a
      206 whose stream runs from the start to the end of the file, with `Content-Range`
      `bytes S-Infinity/<size>` and `Content-Length` `Infinity`, however short the file. */
  lemma InfiniteEndReadsToEnd(song: Song, files: map<string, seq<byte>>, s: nat, e: nat)
    requires song.audioUrl in files && s <= MaxSafeInteger && e >= InfinityBound
    ensures WellFormedRange(RangeHeader(s, e))
    ensures var file := files[song.audioUrl];
      var r := StreamSong(Some(song), files, RangeHeader(s, e));
      && r.EndlessPartial?
      && (s < |file| ==> r.body == file[s..])
      && (s >= |file| ==> r.body == [])
      && r.contentRange == "bytes " + Decimal(s) + "-Infinity/" + Decimal(|file|)
      && r.acceptRanges == "bytes"
      && r.contentType == ContentType(song)
  {
    RangeHeaderRoundTrip(s, e, |files[song.audioUrl]|);
  }
}
