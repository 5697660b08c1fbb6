/**
 * The expiring byte cache of internal/pokecache/cache.go.
 *
 * A `Cache` owns a map from a request key (a URL) to an `Entry` holding the
 * payload and the instant it was stored, and a fixed `interval`.  Time is an
 * integer number of nanoseconds handed in by the caller as `now`.  The mutex
 * of the original only makes each operation atomic; the model is single
 * threaded, so every method below is one atomic step.
 */
module PokeCache {

  /** A Go `[]byte`; the nil slice is the empty sequence. */
  type Bytes = seq<bv8>

  /** `CacheEntry`: the stored payload and the instant it was stored. */
  datatype Entry = Entry(createdAt: int, val: Bytes)

  /** The test of the reaping pass: the entry is strictly older than `interval` at `now`. */
  predicate IsStale(e: Entry, now: int, interval: int)
  {
    now - e.createdAt > interval
  }

  /**
   * The entries one reaping pass at `now` leaves behind: exactly the entries
   * that are not stale, each with its value and timestamp untouched.
   */
  function Expire(m: map<string, Entry>, now: int, interval: int): (r: map<string, Entry>)
    ensures r.Keys <= m.Keys
    ensures forall k :: k in r ==> r[k] == m[k] && !IsStale(r[k], now, interval)
    ensures forall k :: k in m && !IsStale(m[k], now, interval) ==> k in r
  {
    map k | k in m && !IsStale(m[k], now, interval) :: m[k]
  }

  /** Reaping twice at the same instant removes nothing the first pass left. */
  lemma ExpireIdempotent(m: map<string, Entry>, now: int, interval: int)
    ensures Expire(Expire(m, now, interval), now, interval) == Expire(m, now, interval)
  {
  }

  /**
   * A pass at `t1` followed by one at a later `t2` leaves what a single pass
   * at `t2` leaves: an entry stale at `t1` is stale at `t2` as well.
   */
  lemma ExpireLater(m: map<string, Entry>, t1: int, t2: int, interval: int)
    requires t1 <= t2
    ensures Expire(Expire(m, t1, interval), t2, interval) == Expire(m, t2, interval)
  {
  }

  class Cache {
    /** The `cache` field: key to entry. */
    var entries: map<string, Entry>
    /** Fixed at construction and never written again. */
    const interval: int

    /** `NewCache`: an empty cache; the interval is stored as given, without any check. */
    constructor (interval: int)
      ensures entries == map[] && this.interval == interval
    {
      this.interval := interval;
      entries := map[];
    }

    /** `Add`: insert or overwrite the entry for `key`, stamped with `now`. */
    method Add(key: string, val: Bytes, now: int)
      modifies this
      ensures entries == old(entries)[key := Entry(now, val)]
      ensures entries.Keys == old(entries).Keys + {key}
      ensures forall k :: k in old(entries) && k != key ==> entries[k] == old(entries)[k]
    {
      entries := entries[key := Entry(now, val)];
    }

    /**
     * `Get`: the stored value and `true` when `key` is present, whatever the
     * entry's age; the empty value and `false` otherwise.  Nothing changes.
     */
    method Get(key: string) returns (val: Bytes, found: bool)
      ensures found <==> key in entries
      ensures found ==> val == entries[key].val
      ensures !found ==> val == []
    {
      if key !in entries {
        return [], false;
      }
      return entries[key].val, true;
    }

    /**
     * `reapLoop`: one pass over the entries, in no particular order, deleting
     * each entry that is older than `interval` at `now`.
     */
    method Reap(now: int)
      modifies this
      ensures entries == Expire(old(entries), now, interval)
    {
      var pending := entries.Keys;
      while pending != {}
        invariant pending <= entries.Keys <= old(entries).Keys
        invariant forall k :: k in entries ==> entries[k] == old(entries)[k]
        invariant forall k :: k in old(entries) && k !in pending ==>
                    (k in entries <==> !IsStale(old(entries)[k], now, interval))
        decreases pending
      {
        var key :| key in pending;
        if IsStale(entries[key], now, interval) {
          entries := entries - {key};
        }
        pending := pending - {key};
      }
    }
  }
}
