/**
 * The object store as the server sees it: the two bucket names it is
 * configured with and the three minio calls it makes, as oracles.
 */
module Store {
  import opened Wrappers

  /** The error code minio reports when an object does not exist. */
  const NoSuchKey: string := "NoSuchKey"

  /** Bucket names read at start-up (S3_BUCKET_MEDIA, S3_BUCKET_THUMBNAILS). */
  datatype Config = Config(mediaBucket: string, thumbnailBucket: string)

  /** Outcome of `StatObject`: the object exists, or the error code of the failure. */
  datatype StatResult = StatOk | StatErr(code: string)

  /** One element of the `ListObjects` channel: a key, or an element whose `Err` is set. */
  datatype ListItem = Entry(key: string) | ListError(message: string)

  /**
   * The collaborators: `stat(bucket, key)` is `StatObject`, `presign(bucket, key, ttl)`
   * is `PresignedGetObject` (the URL text, or None when it fails) and
   * `list(bucket, prefix)` is the non-recursive `ListObjects` stream.
   */
  datatype ObjectStore = ObjectStore(
    stat: (string, string) -> StatResult,
    presign: (string, string, nat) -> Option<string>,
    list: (string, string) -> seq<ListItem>)

  /** A call made on the object store, recorded so that contracts can say which calls happen and in what order. */
  datatype StoreCall =
    | StatObject(bucket: string, key: string)
    | PresignedGetObject(bucket: string, key: string, ttl: nat)
}
