/**
 * The two result caches: NodeCache in the JavaScript server (clock in
 * milliseconds, one TTL for every entry, an entry survives up to and
 * including its expiry instant and is deleted when a read finds it
 * expired) and diskcache in the Python server (clock in seconds, expiry
 * given per `set`, an entry is live only strictly before its expiry).
 * Expiry is lazy in both: nothing is swept.
 */
module Caches {
  import opened Wrappers

  datatype Entry<V> = Entry(value: V, expiry: nat)

  type Store<V> = map<string, Entry<V>>

  /** The store after writing `value` under `key` at time `now` for `ttl`. */
  function Put<V>(m: Store<V>, key: string, value: V, now: nat, ttl: nat): (r: Store<V>)
    ensures r.Keys == m.Keys + {key}
  {
    m[key := Entry(value, now + ttl)]
  }

  /** NodeCache's view: an entry is present until its expiry instant has passed. */
  function NodeFind<V>(m: Store<V>, key: string, now: nat): (r: Option<V>)
    ensures r.Some? ==> key in m && now <= m[key].expiry && r.value == m[key].value
  {
    if key in m && now <= m[key].expiry then Some(m[key].value) else None
  }

  /** diskcache's view: an entry is present strictly before its expiry. */
  function DiskFind<V>(m: Store<V>, key: string, now: nat): (r: Option<V>)
    ensures r.Some? ==> key in m && now < m[key].expiry && r.value == m[key].value
  {
    if key in m && now < m[key].expiry then Some(m[key].value) else None
  }

  /** A NodeCache entry written at `t` is read back unchanged for the whole
      window `t .. t + ttl` and is absent afterwards; other keys are unaffected. */
  lemma NodePutFind<V>(m: Store<V>, key: string, value: V, t: nat, ttl: nat, k: string, now: nat)
    ensures NodeFind(Put(m, key, value, t, ttl), k, now) ==
      if k != key then NodeFind(m, k, now)
      else if now <= t + ttl then Some(value) else None
  {
  }

  /** A diskcache entry written at `t` is read back unchanged strictly before
      `t + ttl` and is absent from then on; other keys are unaffected. */
  lemma DiskPutFind<V>(m: Store<V>, key: string, value: V, t: nat, ttl: nat, k: string, now: nat)
    ensures DiskFind(Put(m, key, value, t, ttl), k, now) ==
      if k != key then DiskFind(m, k, now)
      else if now < t + ttl then Some(value) else None
  {
  }

  /** `new NodeCache({ stdTTL })`. */
  class NodeCache<V> {
    /** The TTL in milliseconds. */
    const ttl: nat
    var entries: Store<V>

    constructor (stdTtlSeconds: nat)
      ensures ttl == stdTtlSeconds * 1000 && entries == map[]
    {
      ttl := stdTtlSeconds * 1000;
      entries := map[];
    }

    /** `cache.get(key)` at time `now` (ms). A read that finds the entry
        expired deletes it. */
    method Get(key: string, now: nat) returns (r: Option<V>)
      modifies this
      ensures r == NodeFind(old(entries), key, now)
      ensures entries == if key in old(entries) && r.None? then old(entries) - {key} else old(entries)
    {
      r := NodeFind(entries, key, now);
      if key in entries && r.None? {
        entries := entries - {key};
      }
    }

    /** `cache.set(key, value)` at time `now` (ms), with the standard TTL. */
    method Set(key: string, value: V, now: nat)
      modifies this
      ensures entries == Put(old(entries), key, value, now, ttl)
    {
      entries := Put(entries, key, value, now, ttl);
    }
  }

  /** `dc.Cache(directory)`. */
  class DiskCache<V> {
    var entries: Store<V>

    constructor ()
      ensures entries == map[]
    {
      entries := map[];
    }

    /** `key in cache` at time `now` (s). */
    method Contains(key: string, now: nat) returns (b: bool)
      ensures b == DiskFind(entries, key, now).Some?
    {
      b := DiskFind(entries, key, now).Some?;
    }

    /** `cache[key]` at time `now` (s); `None` stands for the `KeyError`
        raised for a missing or expired key. */
    method Lookup(key: string, now: nat) returns (r: Option<V>)
      ensures r == DiskFind(entries, key, now)
    {
      r := DiskFind(entries, key, now);
    }

    /** `cache.set(key, value, expire=expire)` at time `now` (s). */
    method Set(key: string, value: V, now: nat, expire: nat)
      modifies this
      ensures entries == Put(old(entries), key, value, now, expire)
    {
      entries := Put(entries, key, value, now, expire);
    }
  }
}
