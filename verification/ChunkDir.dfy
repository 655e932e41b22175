/** The shared state behind a chunk cache as an object: each method is one critical section of
    the source, and does to the fields what the transition system of `ChunkCache` does to its
    tables in one step. */
module ChunkDirectory {
  import opened Prelude
  import Lru

  class LoadLock {
    constructor () {}
  }

  class ChunkDir {
    var loading: map<Sha, LoadLock>
    var decoded: Lru.Cache

    ghost predicate Valid()
      reads this
    {
      Lru.Valid(decoded, Lru.DECODED_CACHE_ENTRIES)
    }

    constructor ()
      ensures Valid() && loading == map[] && decoded == Lru.Cache([], map[])
    {
      loading := map[];
      decoded := Lru.Cache([], map[]);
    }

    /** `strong` are the lock objects somebody still holds: a weak entry upgrades only to one of
        those, and any other entry is overwritten by a new object. */
    method ChunkLock(sha: Sha, strong: set<LoadLock>) returns (lock: LoadLock)
      requires Valid()
      modifies this`loading
      ensures Valid()
      ensures lock in strong <==> sha in old(loading) && old(loading)[sha] in strong
      ensures lock in strong ==> lock == old(loading)[sha] && loading == old(loading)
      ensures lock !in strong ==> fresh(lock) && loading == old(loading)[sha := lock]
    {
      if sha in loading && loading[sha] in strong {
        return loading[sha];
      }
      lock := new LoadLock();
      loading := loading[sha := lock];
    }

    /** A hit returns the bytes and makes them the newest entry; nothing is ever dropped. */
    method CacheHit(sha: Sha) returns (bytes: Option<Bytes>)
      requires Valid()
      modifies this`decoded
      ensures Valid()
      ensures bytes == Lru.Lookup(old(decoded), sha)
      ensures decoded == Lru.Promote(old(decoded), sha) && decoded.values == old(decoded).values
    {
      Lru.PromoteValid(decoded, Lru.DECODED_CACHE_ENTRIES, sha);
      bytes := Lru.Lookup(decoded, sha);
      decoded := Lru.Promote(decoded, sha);
    }

    /** Afterwards `sha` is held, and every other entry is either kept or dropped. */
    method CacheDecoded(sha: Sha, bytes: Bytes)
      requires Valid()
      modifies this`decoded
      ensures Valid()
      ensures decoded == Lru.Put(old(decoded), Lru.DECODED_CACHE_ENTRIES, sha, bytes)
      ensures Lru.Lookup(decoded, sha) == Some(bytes)
    {
      Lru.PutValid(decoded, Lru.DECODED_CACHE_ENTRIES, sha, bytes);
      decoded := Lru.Put(decoded, Lru.DECODED_CACHE_ENTRIES, sha, bytes);
    }
  }
}
