/** The metadata record the indexer builds from a parse result (`metaLite` in the path scan,
    `data` in the upload endpoint): tags fall back to literal defaults when falsy, and the
    duration is kept only when it is a number.

    The tag parser itself (`music-metadata`) is not modelled: its result is an input. */
module Tags {
  import opened Common
  import opened Covers

  /** `format.duration`, seen through `typeof ... === 'number'`. */
  datatype Duration = Number(seconds: real) | NotNumber

  /** The fields of `meta.common` the indexer reads; a missing string tag is "". */
  datatype CommonTags = CommonTags(title: string, artist: string, album: string, pictures: seq<Picture>)

  datatype Format = Format(duration: Duration)

  /** What the parser returns; `common` or `format` may be missing. */
  datatype Parsed = Parsed(common: Option<CommonTags>, format: Option<Format>)

  /** The stored metadata of one track. `duration` is `None` for JSON `null`. */
  datatype TrackMeta = TrackMeta(title: string, artist: string, album: string,
                                 duration: Option<real>, coverUrl: Option<string>)

  const Unknown := "Unknown"

  /** `meta.common || {}`. */
  function CommonOf(p: Parsed): CommonTags {
    p.common.GetOr(CommonTags("", "", "", []))
  }

  /** `(common.picture && common.picture[0]) || null`. */
  function FirstPicture(p: Parsed): Option<Picture> {
    var pics := CommonOf(p).pictures;
    if pics == [] then None else Some(pics[0])
  }

  /** `typeof format.duration === 'number' ? format.duration : null`, with
      `format = meta.format || {}`. */
  function DurationOf(p: Parsed): Option<real> {
    match p.format
    case Some(Format(Number(s))) => Some(s)
    case _ => None
  }

  /** The record built from a parse result, the name to fall back on for the title, and
      the cover reference. */
  function Lite(p: Parsed, fallbackName: string, coverUrl: Option<string>): TrackMeta {
    var common := CommonOf(p);
    TrackMeta(Or(common.title, fallbackName), Or(common.artist, Unknown),
              Or(common.album, Unknown), DurationOf(p), coverUrl)
  }

  /** A non-empty tag is kept verbatim; an empty or missing title becomes the fallback name
      and an empty or missing artist or album becomes `Unknown`, so artist and album are
      never empty; the duration is present exactly when the parser reported a number. */
  lemma LiteFallbacks(p: Parsed, fallbackName: string, coverUrl: Option<string>)
    ensures var r := Lite(p, fallbackName, coverUrl);
      var c := CommonOf(p);
      && (c.title != "" ==> r.title == c.title) && (c.title == "" ==> r.title == fallbackName)
      && (c.artist != "" ==> r.artist == c.artist) && (c.artist == "" ==> r.artist == "Unknown")
      && (c.album != "" ==> r.album == c.album) && (c.album == "" ==> r.album == "Unknown")
      && r.artist != "" && r.album != ""
      && (r.duration.Some? <==> p.format.Some? && p.format.value.duration.Number?)
      && (r.duration.Some? ==> r.duration.value == p.format.value.duration.seconds)
      && r.coverUrl == coverUrl
  {
  }

  /** A parse result without `common` behaves like one with no tags at all. */
  lemma MissingCommonIsEmpty(p: Parsed, fallbackName: string, coverUrl: Option<string>)
    requires p.common.None?
    ensures Lite(p, fallbackName, coverUrl) ==
            TrackMeta(fallbackName, "Unknown", "Unknown", DurationOf(p), coverUrl)
    ensures FirstPicture(p).None?
  {
  }
}
