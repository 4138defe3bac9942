/**
 * The object-storage service as the collector and the extraction job use it:
 * a set of buckets and, per (bucket, key), the last payload put there.
 * Payload serialisation is abstracted: an object holds a typed value.
 */
module ObjectStorage {

  /** The bucket of raw segments (the collector writes, the extraction job reads). */
  const RawBucket := "crypto-raw"
  /** The bucket of whale batches. */
  const CleanBucket := "crypto-clean"

  /** The bucket set after `ensure_bucket(name)`: created only when absent. */
  function WithBucket(buckets: set<string>, name: string): (r: set<string>)
    ensures name in r && buckets <= r && r - buckets <= {name}
    ensures name in buckets ==> r == buckets
  {
    if name in buckets then buckets else buckets + {name}
  }

  /** Ensuring a bucket twice leaves the state of ensuring it once. */
  lemma WithBucketIdempotent(buckets: set<string>, name: string)
    ensures WithBucket(WithBucket(buckets, name), name) == WithBucket(buckets, name)
  {
  }

  class ObjectStore<V> {
    var buckets: set<string>
    var objects: map<(string, string), V>

    constructor (buckets: set<string>)
      ensures this.buckets == buckets && objects == map[]
    {
      this.buckets := buckets;
      objects := map[];
    }

    /** `ensure_bucket`: `make_bucket` is called exactly when `bucket_exists` is false. */
    method EnsureBucket(name: string) returns (created: bool)
      modifies this
      ensures created <==> name !in old(buckets)
      ensures buckets == WithBucket(old(buckets), name)
      ensures objects == old(objects)
    {
      created := name !in buckets;
      if created {
        buckets := buckets + {name};
      }
    }

    /** One atomic put: the key now holds `payload`, nothing else changes. */
    method Put(bucket: string, key: string, payload: V)
      requires bucket in buckets
      modifies this
      ensures objects == old(objects)[(bucket, key) := payload]
      ensures buckets == old(buckets)
    {
      objects := objects[(bucket, key) := payload];
    }
  }
}
