/**
 * The scheduled handler: every `LAST_USED_` entry in the listing whose
 * timestamp is unreadable or more than a week old is removed, together with
 * the object it tracks.
 */
module Expiration {
  import opened Wrappers
  import opened JsStrings
  import opened JsNumbers
  import opened Stores

  /** One week in milliseconds. */
  const ExpirationTime: int := 7 * 24 * 60 * 60 * 1000

  /** A timestamp entry with value `lastUsed` is due for removal at time `now`. */
  predicate Expired(lastUsed: string, now: int) {
    match ParseInt(lastUsed)
    case NaN => true
    case Num(t) => now - t > ExpirationTime
  }

  /** `name.replace("LAST_USED_", "")`: the object a timestamp entry tracks. */
  function BlobKey(name: string): string {
    ReplaceFirst(name, LastUsedPrefix, "")
  }

  /** The listed entries of `kv` that are expired at `now`. */
  function ExpiredNames(kv: KvStore, listed: seq<string>, now: int): set<string> {
    set name | name in listed && name in kv && Expired(kv[name], now)
  }

  /** The objects those entries track. */
  function ExpiredBlobs(kv: KvStore, listed: seq<string>, now: int): set<string> {
    set name | name in ExpiredNames(kv, listed, now) :: BlobKey(name)
  }

  /** What one sweep over the listing `listed` leaves of the two stores. */
  function Sweep(kv: KvStore, bucket: BucketStore, listed: seq<string>, now: int): (KvStore, BucketStore) {
    (kv - ExpiredNames(kv, listed, now), bucket - ExpiredBlobs(kv, listed, now))
  }

  /** Every listed name is a timestamp entry, as a listing under the prefix `LAST_USED_` is. */
  predicate PrefixListing(listed: seq<string>) {
    forall i :: 0 <= i < |listed| ==> StartsWith(listed[i], LastUsedPrefix)
  }

  /** Extending the listing by one name adds at most that name. */
  lemma ExpiredNamesSnoc(kv: KvStore, listed: seq<string>, name: string, now: int)
    ensures ExpiredNames(kv, listed + [name], now) ==
            ExpiredNames(kv, listed, now) +
            (if name in kv && Expired(kv[name], now) then {name} else {})
    ensures ExpiredBlobs(kv, listed + [name], now) ==
            ExpiredBlobs(kv, listed, now) +
            (if name in kv && Expired(kv[name], now) then {BlobKey(name)} else {})
  {
    var extended := listed + [name];
    assert forall n :: n in extended <==> n in listed || n == name;
  }

  /**
   * One more name in the listing: the stores after it are the stores before
   * it, less the entry and its object when the entry is still there and expired.
   */
  lemma SweepStep(kv0: KvStore, bucket0: BucketStore, done: seq<string>, name: string, now: int,
                  kv: KvStore, bucket: BucketStore)
    requires kv == kv0 - ExpiredNames(kv0, done, now)
    requires bucket == bucket0 - ExpiredBlobs(kv0, done, now)
    ensures name in kv ==> name in kv0 && kv[name] == kv0[name]
    ensures var expired := name in kv && Expired(kv[name], now);
            kv0 - ExpiredNames(kv0, done + [name], now) == (if expired then kv - {name} else kv) &&
            bucket0 - ExpiredBlobs(kv0, done + [name], now) == (if expired then bucket - {BlobKey(name)} else bucket)
  {
    var names, blobs := ExpiredNames(kv0, done, now), ExpiredBlobs(kv0, done, now);
    ExpiredNamesSnoc(kv0, done, name, now);
    if name in kv {
      assert name !in names;
      if Expired(kv[name], now) {
        MinusOneMore(kv0, names, name);
        MinusOneMore(bucket0, blobs, BlobKey(name));
      }
    } else if name in kv0 && Expired(kv0[name], now) {
      assert name in names;
      assert names + {name} == names;
      assert BlobKey(name) in blobs;
      assert blobs + {BlobKey(name)} == blobs;
    }
  }

  lemma MinusOneMore<V>(m: map<string, V>, gone: set<string>, x: string)
    ensures m - (gone + {x}) == (m - gone) - {x}
  {
  }

  // ---------------------------------------------------------------------
  // What a sweep leaves behind

  /** A timestamp written as `${t}` is expired exactly when it is more than a week before `now`. */
  lemma TimestampExpiry(t: int, now: int)
    ensures Expired(IntToString(t), now) <==> now - t > ExpirationTime
  {
    ParseIntToString(t);
  }

  /**
   * A listed entry is removed exactly when it is present and expired; every
   * other entry, listed or not, keeps its value.
   */
  lemma SweepTimestamps(kv: KvStore, bucket: BucketStore, listed: seq<string>, now: int, name: string)
    ensures var kv' := Sweep(kv, bucket, listed, now).0;
            (name in kv' <==> name in kv && !(name in listed && Expired(kv[name], now))) &&
            (name in kv' ==> kv'[name] == kv[name])
  {
  }

  /** A timestamp entry names the object obtained by dropping its prefix. */
  lemma BlobKeyOfTimestamp(key: string)
    ensures BlobKey(TimestampName(key)) == key
  {
    ReplacePrefix(LastUsedPrefix, key);
  }

  lemma TimestampOfBlobKey(name: string)
    requires StartsWith(name, LastUsedPrefix)
    ensures TimestampName(BlobKey(name)) == name
  {
    var key := name[|LastUsedPrefix|..];
    assert name == LastUsedPrefix + key;
    BlobKeyOfTimestamp(key);
  }

  /**
   * With a listing under `LAST_USED_`, an object is deleted exactly when its
   * own timestamp entry is listed, present and expired; objects without a
   * timestamp entry and objects whose entry is fresh or unlisted are kept
   * with their contents.
   */
  lemma SweepObjects(kv: KvStore, bucket: BucketStore, listed: seq<string>, now: int, key: string)
    requires PrefixListing(listed)
    ensures var bucket' := Sweep(kv, bucket, listed, now).1;
            var name := TimestampName(key);
            (key in bucket' <==> key in bucket && !(name in listed && name in kv && Expired(kv[name], now))) &&
            (key in bucket' ==> bucket'[key] == bucket[key])
  {
    var name := TimestampName(key);
    var names := ExpiredNames(kv, listed, now);
    BlobKeyOfTimestamp(key);
    if key in ExpiredBlobs(kv, listed, now) {
      var n :| n in names && BlobKey(n) == key;
      TimestampOfBlobKey(n);
    }
    if name in names {
      assert key in ExpiredBlobs(kv, listed, now);
    }
  }

  /** With a listing under `LAST_USED_`, the `USER_` credential entries are never touched. */
  lemma SweepKeepsCredentials(kv: KvStore, bucket: BucketStore, listed: seq<string>, now: int, name: string)
    requires PrefixListing(listed)
    requires StartsWith(name, UserPrefix) && name in kv
    ensures var kv' := Sweep(kv, bucket, listed, now).0;
            name in kv' && kv'[name] == kv[name]
  {
    forall i | 0 <= i < |listed| ensures listed[i] != name {
      assert listed[i][..|LastUsedPrefix|] == LastUsedPrefix;
      assert name[..|UserPrefix|] == UserPrefix;
      assert listed[i][0] != name[0];
    }
  }

  /** A second sweep over the same listing at the same time finds nothing more to delete. */
  lemma SweepIdempotent(kv: KvStore, bucket: BucketStore, listed: seq<string>, now: int)
    ensures var (kv', bucket') := Sweep(kv, bucket, listed, now);
            Sweep(kv', bucket', listed, now) == (kv', bucket')
  {
    var (kv', bucket') := Sweep(kv, bucket, listed, now);
    assert ExpiredNames(kv', listed, now) == {};
    assert ExpiredBlobs(kv', listed, now) == {};
    assert kv' - {} == kv';
    assert bucket' - {} == bucket';
  }

  /** The worker's environment: the KV namespace and the R2 bucket. */
  class Env {
    var kv: KvStore
    var bucket: BucketStore

    constructor (kv: KvStore, bucket: BucketStore)
      ensures this.kv == kv && this.bucket == bucket
    {
      this.kv := kv;
      this.bucket := bucket;
    }

    /** `env.KV.get(name)`, `None` for `null`. */
    function KvGet(name: string): (r: Option<string>)
      reads this
      ensures r.Some? <==> name in kv
      ensures r.Some? ==> r.value == kv[name]
    {
      if name in kv then Some(kv[name]) else None
    }

    /** `env.KV.delete(name)`: deleting an absent entry is not an error. */
    method KvDelete(name: string)
      modifies this
      ensures kv == old(kv) - {name} && bucket == old(bucket)
    {
      kv := kv - {name};
    }

    /** `env.BUCKET.delete(key)`: deleting an absent object is not an error. */
    method BucketDelete(key: string)
      modifies this
      ensures bucket == old(bucket) - {key} && kv == old(kv)
    {
      bucket := bucket - {key};
    }

    /**
     * `scheduled` at time `now`, with `listed` the names
     * `env.KV.list({ prefix: "LAST_USED_" })` returned: each listed entry
     * still present is read, and when its value is not a number or is more
     * than a week before `now` the tracked object and the entry are deleted.
     */
    method Scheduled(listed: seq<string>, now: int)
      modifies this
      ensures (kv, bucket) == Sweep(old(kv), old(bucket), listed, now)
    {
      ghost var kv0 := kv;
      ghost var bucket0 := bucket;
      for i := 0 to |listed|
        invariant kv == kv0 - ExpiredNames(kv0, listed[..i], now)
        invariant bucket == bucket0 - ExpiredBlobs(kv0, listed[..i], now)
      {
        var name := listed[i];
        assert listed[..i + 1] == listed[..i] + [name];
        SweepStep(kv0, bucket0, listed[..i], name, now, kv, bucket);
        var lastUsedString := KvGet(name);
        if lastUsedString.None? {
          continue;
        }
        var lastUsed := ParseInt(lastUsedString.value);
        if lastUsed.NaN? || now - lastUsed.value > ExpirationTime {
          BucketDelete(BlobKey(name));
          KvDelete(name);
        }
      }
      assert listed[..|listed|] == listed;
    }
  }
}
