/**
 * The in-memory cache with a capacity bound and per-entry expiry.  The clock
 * is passed in as `now`, in nanoseconds; a time-to-live is in seconds.
 */
module MemoryCache {
  import opened Wrappers

  const NanosPerSecond := 1_000_000_000

  datatype CacheItem = CacheItem(value: string, expiresAt: Option<int>)

  /** The entry Set stores: no expiry unless the time-to-live is positive. */
  function NewItem(value: string, ttl: int, now: int): (item: CacheItem)
    ensures item.value == value
    ensures item.expiresAt.Some? <==> ttl > 0
    ensures ttl > 0 ==> item.expiresAt.value - now == ttl * NanosPerSecond
  {
    CacheItem(value, if ttl > 0 then Some(now + ttl * NanosPerSecond) else None)
  }

  /** An entry is served at time t unless t is strictly after its expiry. */
  predicate Live(item: CacheItem, t: int) {
    item.expiresAt.None? || t <= item.expiresAt.value
  }

  /** An entry stored at `now` is served exactly up to and including now + ttl seconds. */
  lemma LiveUntilExpiry(value: string, ttl: int, now: int, t: int)
    ensures Live(NewItem(value, ttl, now), t) <==> (ttl <= 0 || t <= now + ttl * NanosPerSecond)
  {
  }

  class MemoryCacheStore {
    var data: map<string, CacheItem>
    const maxEntries: int

    /** The size the cache never exceeds: one entry even for a capacity below one. */
    function Capacity(): nat {
      if maxEntries < 1 then 1 else maxEntries
    }

    predicate Valid()
      reads this
    {
      |data| <= Capacity()
    }

    constructor (maxEntries: int)
      ensures Valid() && data == map[] && this.maxEntries == maxEntries
    {
      data := map[];
      this.maxEntries := maxEntries;
    }

    /** Get at time now: the value and true iff the key is present and not expired. */
    function Get(key: string, now: int): (r: (string, bool))
      reads this
      ensures r.1 <==> key in data && Live(data[key], now)
      ensures r.1 ==> r.0 == data[key].value
      ensures !r.1 ==> r.0 == ""
    {
      if key !in data then ("", false)
      else if !Live(data[key], now) then ("", false)
      else (data[key].value, true)
    }

    /**
     * Set: when the cache is at capacity one arbitrary entry, possibly not
     * the key being set, is dropped first; then the key gets the new entry.
     */
    method Set(key: string, value: string, ttl: int, now: int)
      requires Valid()
      modifies this
      ensures Valid()
      ensures key in data && data[key] == NewItem(value, ttl, now)
      ensures |old(data)| < maxEntries || |old(data)| == 0 ==> data == old(data)[key := NewItem(value, ttl, now)]
      ensures |old(data)| >= maxEntries && |old(data)| > 0 ==>
        exists k :: k in old(data) && data == (old(data) - {k})[key := NewItem(value, ttl, now)]
    {
      if |data| >= maxEntries && |data| > 0 {
        var k :| k in data;
        data := data - {k};
      }
      data := data[key := NewItem(value, ttl, now)];
    }

    /** Delete: removes the key and nothing else. */
    method Delete(key: string)
      requires Valid()
      modifies this
      ensures Valid() && data == old(data) - {key}
    {
      data := data - {key};
    }

    /** Clear: removes every entry. */
    method Clear()
      modifies this
      ensures Valid() && data == map[]
    {
      data := map[];
    }
  }
}
