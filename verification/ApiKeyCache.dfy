/** The in-memory validation cache of API keys; times are readings of one monotonic clock. */
module ApiKeyCache {
  import opened Options

  /** The text of a UUID: always 36 characters. */
  type KeyId = s: string | |s| == 36 witness "00000000-0000-0000-0000-000000000000"

  datatype Entry = Entry(valid: bool, expiresAt: int)

  type Cache = map<string, Entry>

  function CacheKey(id: KeyId, digest: string): string {
    id + ":" + digest
  }

  predicate StartsWith(s: string, prefix: string) {
    |prefix| <= |s| && s[..|prefix|] == prefix
  }

  function Verdict(cache: Cache, key: string, now: int): Option<bool> {
    if key !in cache || now > cache[key].expiresAt then None else Some(cache[key].valid)
  }

  /** Reading an expired entry removes it. */
  function AfterGet(cache: Cache, key: string, now: int): Cache {
    if key in cache && now > cache[key].expiresAt then cache - {key} else cache
  }

  function Invalidated(cache: Cache, id: KeyId): Cache {
    map k | k in cache && !StartsWith(k, id + ":") :: cache[k]
  }

  /** The text prefix selects exactly the entries of that key id, whatever follows it. */
  lemma PrefixSelectsId(id: KeyId, other: KeyId, digest: string)
    ensures StartsWith(CacheKey(other, digest), id + ":") <==> other == id
  {
    var k := CacheKey(other, digest);
    assert k[..37] == other + ":";
    assert (other + ":")[..36] == other && (id + ":")[..36] == id;
  }

  /** Invalidation removes every entry of the id and no other. */
  lemma InvalidationIsExact(cache: Cache, id: KeyId, other: KeyId, digest: string)
    ensures CacheKey(other, digest) in Invalidated(cache, id) <==> CacheKey(other, digest) in cache && other != id
    ensures CacheKey(other, digest) in Invalidated(cache, id) ==>
      Invalidated(cache, id)[CacheKey(other, digest)] == cache[CacheKey(other, digest)]
  {
    PrefixSelectsId(id, other, digest);
  }

  class ValidationCache {
    const ttl: int
    const sha256: string -> string
    var entries: Cache

    constructor (ttl: int, sha256: string -> string)
      ensures this.ttl == ttl && this.sha256 == sha256 && entries == map[]
    {
      this.ttl, this.sha256, entries := ttl, sha256, map[];
    }

    method GetValid(id: KeyId, secret: string, now: int) returns (verdict: Option<bool>)
      modifies this`entries
      ensures verdict == Verdict(old(entries), CacheKey(id, sha256(secret)), now)
      ensures entries == AfterGet(old(entries), CacheKey(id, sha256(secret)), now)
    {
      var key := CacheKey(id, sha256(secret));
      if key !in entries { return None; }
      var entry := entries[key];
      if now > entry.expiresAt {
        entries := entries - {key};
        return None;
      }
      return Some(entry.valid);
    }

    method SetValid(id: KeyId, secret: string, valid: bool, now: int)
      modifies this`entries
      ensures entries == old(entries)[CacheKey(id, sha256(secret)) := Entry(valid, now + ttl)]
    {
      entries := entries[CacheKey(id, sha256(secret)) := Entry(valid, now + ttl)];
    }

    method Invalidate(id: KeyId)
      modifies this`entries
      ensures entries == Invalidated(old(entries), id)
    {
      var prefix := id + ":";
      ghost var before := entries;
      var doomed := set k | k in entries && StartsWith(k, prefix);
      var todo := doomed;
      while todo != {}
        invariant todo <= doomed
        invariant entries == before - (doomed - todo)
        decreases todo
      {
        var k :| k in todo;
        todo := todo - {k};
        entries := entries - {k};
      }
    }

    method ClearAll()
      modifies this`entries
      ensures entries == map[]
    {
      entries := map[];
    }
  }
}
