/**
 * What a caller of the cache can rely on, derived from the contracts of
 * `Cache` alone: each method below drives a freshly built cache through a
 * short sequence of calls and states what the last observation must be.
 */
module CacheScenarios {
  import opened PokeCache

  /** A new cache holds nothing: every lookup misses. */
  method NewCacheMisses(interval: int, key: string) returns (val: Bytes, found: bool)
    ensures !found && val == []
  {
    var c := new Cache(interval);
    val, found := c.Get(key);
  }

  /** Round trip: a value just added is returned by `Get`, stamped with the time of the `Add`. */
  method AddThenGet(interval: int, key: string, v: Bytes, now: int) returns (val: Bytes, found: bool, stamp: int)
    ensures found && val == v && stamp == now
  {
    var c := new Cache(interval);
    c.Add(key, v, now);
    val, found := c.Get(key);
    stamp := c.entries[key].createdAt;
  }

  /** Last write wins: the second `Add` for a key replaces the value and refreshes the timestamp. */
  method OverwriteThenGet(interval: int, key: string, v1: Bytes, v2: Bytes, t1: int, t2: int)
    returns (val: Bytes, found: bool, stamp: int)
    ensures found && val == v2 && stamp == t2
  {
    var c := new Cache(interval);
    c.Add(key, v1, t1);
    c.Add(key, v2, t2);
    val, found := c.Get(key);
    stamp := c.entries[key].createdAt;
  }

  /** Adding under one key leaves the entry of another key as it was. */
  method AddOtherKey(interval: int, key: string, other: string, v: Bytes, w: Bytes, t1: int, t2: int)
    returns (val: Bytes, found: bool, stamp: int)
    requires key != other
    ensures found && val == v && stamp == t1
  {
    var c := new Cache(interval);
    c.Add(key, v, t1);
    c.Add(other, w, t2);
    val, found := c.Get(key);
    stamp := c.entries[key].createdAt;
  }

  /** `Get` does not look at the age: with no pass of the reaper, a stale entry is still served. */
  method StaleEntryStillServed(interval: int, key: string, v: Bytes, t: int, later: int)
    returns (val: Bytes, found: bool, stale: bool)
    requires later - t > interval
    ensures found && val == v && stale
  {
    var c := new Cache(interval);
    c.Add(key, v, t);
    val, found := c.Get(key);
    stale := IsStale(c.entries[key], later, c.interval);
  }

  /** An entry exactly `interval` old survives a pass of the reaper: the comparison is strict. */
  method ReapAtBoundaryKeeps(interval: int, key: string, v: Bytes, t: int) returns (val: Bytes, found: bool)
    ensures found && val == v
  {
    var c := new Cache(interval);
    c.Add(key, v, t);
    c.Reap(t + interval);
    val, found := c.Get(key);
  }

  /** One instant later the same entry is stale and the pass deletes it. */
  method ReapPastBoundaryDeletes(interval: int, key: string, v: Bytes, t: int) returns (val: Bytes, found: bool)
    ensures !found && val == []
  {
    var c := new Cache(interval);
    c.Add(key, v, t);
    c.Reap(t + interval + 1);
    val, found := c.Get(key);
  }

  /**
   * A pass deletes a stale entry and keeps a fresh one beside it, and a second
   * pass at the same instant changes nothing.
   */
  method ReapKeepsFreshOnly(interval: int, staleKey: string, freshKey: string, v: Bytes, w: Bytes, t1: int, t2: int, now: int)
    returns (staleFound: bool, freshVal: Bytes, freshFound: bool, settled: bool)
    requires staleKey != freshKey
    requires now - t1 > interval && now - t2 <= interval
    ensures !staleFound && freshFound && freshVal == w && settled
  {
    var c := new Cache(interval);
    c.Add(staleKey, v, t1);
    c.Add(freshKey, w, t2);
    c.Reap(now);
    var afterFirst := c.entries;
    c.Reap(now);
    ExpireIdempotent(afterFirst, now, interval);
    settled := c.entries == afterFirst;
    var _, f := c.Get(staleKey);
    staleFound := f;
    freshVal, freshFound := c.Get(freshKey);
  }
}
