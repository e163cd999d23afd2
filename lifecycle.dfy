/**
 * How the two handlers meet: the timestamp a successful GET or PUT writes is
 * the one the next sweep reads back.
 */
module Lifecycle {
  import opened Wrappers
  import opened JsNumbers
  import opened Stores
  import opened Gateway
  import opened Expiration

  /**
   * After a request answered 200 at time `t`, a sweep at time `now` whose
   * listing includes the object's timestamp entry keeps the object, with the
   * contents the request left, exactly when `now - t` is at most one week.
   */
  lemma AccessThenSweep(req: Request, t: int, kv: KvStore, bucket: BucketStore, bucketBound: bool,
                        atob: string -> Option<string>, listed: seq<string>, now: int)
    requires Answered(Fetch(req, t, kv, bucket, bucketBound, atob), 200)
    requires PrefixListing(listed)
    requires TimestampName(ObjectKey(req.pathname)) in listed
    ensures var h := Fetch(req, t, kv, bucket, bucketBound, atob);
            var key := ObjectKey(req.pathname);
            var after := Sweep(h.kv, h.bucket, listed, now).1;
            (key in after <==> now - t <= ExpirationTime) &&
            (key in after ==> after[key] == h.bucket[key])
  {
    var h := Fetch(req, t, kv, bucket, bucketBound, atob);
    var key := ObjectKey(req.pathname);
    var name := TimestampName(key);
    assert key in h.bucket && name in h.kv && h.kv[name] == IntToString(t);
    TimestampExpiry(t, now);
    SweepObjects(h.kv, h.bucket, listed, now, key);
  }
}
