/**
 * The TTL key/value cache the cache adapter talks to (Laravel's cache
 * `Repository`, reduced to the three calls the adapter makes). Each key holds
 * an integer and the millisecond instant at which it expires; expiry is
 * observed lazily, when the key is read.
 */
module CacheRepository {
  import opened Wrappers

  datatype Item = Item(value: int, expiresAt: int)

  type Store = map<string, Item>

  /** `get($key)`: the value while it has not expired, otherwise nothing
      (the caller supplies the default). */
  function Lookup(s: Store, key: string, now: int): Option<int> {
    if key in s && now < s[key].expiresAt then Some(s[key].value) else None
  }

  /** `set($key, $value, $ttl)` with a TTL of `ttl` ms; like the repository's
      `put`, a TTL that is not positive removes the key. */
  function Stored(s: Store, key: string, value: int, ttl: int, now: int): Store {
    if ttl <= 0 then s - {key} else s[key := Item(value, now + ttl)]
  }

  class Repository {
    var items: Store

    constructor ()
      ensures items == map[]
    {
      items := map[];
    }

    method Get(key: string, now: int) returns (v: Option<int>)
      ensures v.Some? <==> key in items && now < items[key].expiresAt
      ensures v.Some? ==> v.value == items[key].value
    {
      if key in items && now < items[key].expiresAt {
        v := Some(items[key].value);
      } else {
        v := None;
      }
    }

    method Set(key: string, value: int, ttl: int, now: int)
      modifies this
      ensures items == Stored(old(items), key, value, ttl, now)
    {
      if ttl <= 0 {
        items := items - {key};
      } else {
        items := items[key := Item(value, now + ttl)];
      }
    }

    method Forget(key: string)
      modifies this
      ensures items == old(items) - {key}
    {
      items := items - {key};
    }
  }

  /** Reading a key right after writing it gives the written value until
      the TTL runs out, and nothing afterwards; other keys read as before. */
  lemma StoredThenLookup(s: Store, key: string, value: int, ttl: int, now: int, later: int, other: string)
    requires other != key
    ensures Lookup(Stored(s, key, value, ttl, now), key, later) ==
      (if ttl > 0 && later < now + ttl then Some(value) else None)
    ensures Lookup(Stored(s, key, value, ttl, now), other, later) == Lookup(s, other, later)
  {
  }

  /** A forgotten key reads as nothing; other keys read as before. */
  lemma ForgetThenLookup(s: Store, key: string, now: int, other: string)
    requires other != key
    ensures Lookup(s - {key}, key, now) == None
    ensures Lookup(s - {key}, other, now) == Lookup(s, other, now)
  {
  }
}
