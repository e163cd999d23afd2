/**
 * The worker's two bindings as values: the KV namespace `KV` (string keys to
 * string values) and the R2 bucket `BUCKET` (object keys to stored bodies),
 * and the key conventions the worker uses in KV.
 */
module Stores {

  newtype byte = b: int | 0 <= b < 256

  /** The bytes of a stored object. */
  type Blob = seq<byte>

  type KvStore = map<string, string>

  type BucketStore = map<string, Blob>

  /** KV entries `USER_<name>` hold the password of user `<name>`. */
  const UserPrefix: string := "USER_"

  /** KV entries `LAST_USED_<key>` hold the time object `<key>` was last read or written. */
  const LastUsedPrefix: string := "LAST_USED_"

  /** The KV entry that tracks object `key`. */
  function TimestampName(key: string): string {
    LastUsedPrefix + key
  }
}
