/**
 * The image handler (`imageHandler` in cmd/server/main.go): from the album and
 * image names and the `thumbnail` query flag, decide which object to presign,
 * probing the thumbnail bucket first when a thumbnail is asked for and falling
 * back to the original only when that object does not exist.
 */
module Media {
  import opened Wrappers
  import opened Http
  import opened Store

  /** Lifetime of every presigned URL: one hour, in seconds. */
  const PresignTtl: nat := 3600

  /** The spellings `strconv.ParseBool` reads as true and as false. */
  const TrueSpellings: set<string> := {"1", "t", "T", "TRUE", "true", "True"}
  const FalseSpellings: set<string> := {"0", "f", "F", "FALSE", "false", "False"}

  /** Go's `strconv.ParseBool`: None stands for its syntax error. */
  function ParseBool(s: string): (r: Option<bool>)
    ensures r == Some(true) <==> s in TrueSpellings
    ensures r == Some(false) <==> s in FalseSpellings
    ensures r == None <==> s !in TrueSpellings && s !in FalseSpellings
  {
    match s
    case "1" => Some(true)
    case "t" => Some(true)
    case "T" => Some(true)
    case "TRUE" => Some(true)
    case "true" => Some(true)
    case "True" => Some(true)
    case "0" => Some(false)
    case "f" => Some(false)
    case "F" => Some(false)
    case "FALSE" => Some(false)
    case "false" => Some(false)
    case "False" => Some(false)
    case _ => None
  }

  /** gin's `DefaultQuery`: the (first) value of a query parameter, or the default when it is absent. */
  function DefaultQuery(query: map<string, string>, key: string, default: string): (v: string)
    ensures key in query ==> v == query[key]
    ensures key !in query ==> v == default
  {
    if key in query then query[key] else default
  }

  /**
   * The `thumbnail` flag: the parameter defaults to "false" and a value that
   * does not parse reads as false, so the flag is set exactly when the
   * parameter is present and spelt as a true value.
   */
  function ThumbnailFlag(query: map<string, string>): (thumbnail: bool)
    ensures "thumbnail" !in query ==> !thumbnail
    ensures thumbnail <==> "thumbnail" in query && query["thumbnail"] in TrueSpellings
  {
    match ParseBool(DefaultQuery(query, "thumbnail", "false"))
    case Some(b) => b
    case None => false
  }

  /** The key of the full-resolution original in the media bucket. */
  function ImagePath(album: string, image: string): string
  {
    album + "/" + image
  }

  /** The key of the thumbnail in the thumbnail bucket. */
  function ThumbPath(album: string, image: string): (k: string)
    ensures k != ImagePath(album, image)
  {
    assert |ImagePath(album, image) + ".jpg"| != |ImagePath(album, image)|;
    ImagePath(album, image) + ".jpg"
  }

  /** How the handler ends: a 303 to the presigned URL, nothing (presign failed), or `log.Fatal` on a probe error. */
  datatype ImageResponse = Redirect(status: int, location: string) | NoResponse | Fatal(code: string)

  /** The store calls the handler made, in order, and how it answered. */
  datatype ImageRun = ImageRun(calls: seq<StoreCall>, response: ImageResponse)

  /** The answer given once presigning returned `url`: a redirect, or no response at all when presigning failed. */
  function RedirectTo(url: Option<string>): (r: ImageResponse)
    ensures url.Some? <==> r.Redirect?
    ensures url.Some? ==> r == Redirect(StatusSeeOther, url.value)
    ensures url.None? ==> r == NoResponse
  {
    match url
    case Some(u) => Redirect(StatusSeeOther, u)
    case None => NoResponse
  }

  /** Presign (bucket, key) for one hour after the calls already made, and answer accordingly. */
  function PresignAndRedirect(before: seq<StoreCall>, bucket: string, key: string, store: ObjectStore): ImageRun
  {
    ImageRun(before + [PresignedGetObject(bucket, key, PresignTtl)], RedirectTo(store.presign(bucket, key, PresignTtl)))
  }

  function ImageHandler(cfg: Config, album: string, image: string, query: map<string, string>, store: ObjectStore): (run: ImageRun)
    // Without the flag the original is presigned and nothing is probed.
    ensures !ThumbnailFlag(query) ==>
              run.calls == [PresignedGetObject(cfg.mediaBucket, ImagePath(album, image), PresignTtl)]
    // With the flag the first call is the one thumbnail probe.
    ensures ThumbnailFlag(query) ==>
              |run.calls| >= 1 && run.calls[0] == StatObject(cfg.thumbnailBucket, ThumbPath(album, image)) &&
              StatObject(cfg.thumbnailBucket, ThumbPath(album, image)) !in run.calls[1..]
    // The thumbnail exists: the thumbnail is presigned.
    ensures ThumbnailFlag(query) && store.stat(cfg.thumbnailBucket, ThumbPath(album, image)) == StatOk ==>
              run.calls[1..] == [PresignedGetObject(cfg.thumbnailBucket, ThumbPath(album, image), PresignTtl)]
    // The thumbnail does not exist: fall back to the original.
    ensures ThumbnailFlag(query) && store.stat(cfg.thumbnailBucket, ThumbPath(album, image)) == StatErr(NoSuchKey) ==>
              run.calls[1..] == [PresignedGetObject(cfg.mediaBucket, ImagePath(album, image), PresignTtl)]
    // The original is served for a thumbnail request only when the probe said NoSuchKey.
    ensures ThumbnailFlag(query) && PresignedGetObject(cfg.mediaBucket, ImagePath(album, image), PresignTtl) in run.calls ==>
              store.stat(cfg.thumbnailBucket, ThumbPath(album, image)) == StatErr(NoSuchKey)
    // Any other probe error is fatal, with nothing presigned.
    ensures run.response.Fatal? <==>
              ThumbnailFlag(query) && store.stat(cfg.thumbnailBucket, ThumbPath(album, image)).StatErr? &&
              store.stat(cfg.thumbnailBucket, ThumbPath(album, image)).code != NoSuchKey
    ensures run.response.Fatal? ==>
              run.calls == [StatObject(cfg.thumbnailBucket, ThumbPath(album, image))] &&
              run.response.code == store.stat(cfg.thumbnailBucket, ThumbPath(album, image)).code
    // Otherwise exactly one presign is made, last, and its outcome decides the answer.
    ensures !run.response.Fatal? ==>
              |run.calls| >= 1 && run.calls[|run.calls| - 1].PresignedGetObject? &&
              (forall i | 0 <= i < |run.calls| - 1 :: !run.calls[i].PresignedGetObject?) &&
              var last := run.calls[|run.calls| - 1];
              run.response == RedirectTo(store.presign(last.bucket, last.key, last.ttl))
    // Every presign is for one hour.
    ensures forall call | call in run.calls && call.PresignedGetObject? :: call.ttl == PresignTtl
  {
    var thumbnail := ThumbnailFlag(query);
    var imgPath := ImagePath(album, image);
    if thumbnail then
      var thumbPath := ThumbPath(album, image);
      var probe := [StatObject(cfg.thumbnailBucket, thumbPath)];
      match store.stat(cfg.thumbnailBucket, thumbPath)
      case StatErr(code) =>
        if code == NoSuchKey then PresignAndRedirect(probe, cfg.mediaBucket, imgPath, store)
        else ImageRun(probe, Fatal(code))
      case StatOk => PresignAndRedirect(probe, cfg.thumbnailBucket, thumbPath, store)
    else
      PresignAndRedirect([], cfg.mediaBucket, imgPath, store)
  }
}
