/** The in-process cache of packages/cache/src/memory.cache.ts. Every operation is a run-to-completion
    call; the clock readings it makes are parameters. */
module MemoryCache {
  import opened Wrappers
  import opened Text

  /** A stored JSON text with the number it converts to, None when that is not finite. */
  datatype Value = Value(text: string, number: Option<int>)

  datatype Entry = Entry(value: Value, expiresAt: Option<int>)

  predicate Expired(e: Entry, now: int) {
    e.expiresAt.Some? && e.expiresAt.value <= now
  }

  /** The entry a reader at `now` sees. */
  function Live(entries: map<string, Entry>, key: string, now: int): Option<Entry> {
    if key in entries && !Expired(entries[key], now) then Some(entries[key]) else None
  }

  function Number(n: int): Value {
    Value(Digits(n), Some(n))
  }

  /** What incr answers; None is its refusal of a value that is not numeric. */
  function Next(entries: map<string, Entry>, key: string, now: int): Option<int> {
    var e := Live(entries, key, now);
    if e.None? then Some(1)
    else if e.value.value.number.None? then None
    else Some(e.value.value.number.value + 1)
  }

  function Incremented(entries: map<string, Entry>, key: string, now: int): map<string, Entry> {
    var e, n := Live(entries, key, now), Next(entries, key, now);
    if n.None? then entries
    else entries[key := Entry(Number(n.value), if e.Some? then e.value.expiresAt else None)]
  }

  /** expire looks the entry up at `now` and stamps it from a second, later reading. */
  function Armed(entries: map<string, Entry>, key: string, ttlMs: int, now: int, stamp: int): map<string, Entry> {
    var e := Live(entries, key, now);
    if e.None? then entries else entries[key := e.value.(expiresAt := Some(stamp + ttlMs))]
  }

  /** The same to every reader from `now` on: expired entries may or may not have been dropped. */
  ghost predicate SameFrom(a: map<string, Entry>, b: map<string, Entry>, now: int) {
    forall key, t: int :: now <= t ==> Live(a, key, t) == Live(b, key, t)
  }

  class Cache {
    var entries: map<string, Entry>

    constructor ()
      ensures entries == map[]
    {
      entries := map[];
    }

    // live: an expired entry is dropped on the way.
    method Lookup(key: string, now: int) returns (e: Option<Entry>)
      modifies this
      ensures e == Live(old(entries), key, now)
      ensures entries == if e.None? then old(entries) - {key} else old(entries)
      ensures SameFrom(entries, old(entries), now)
    {
      if key !in entries {
        assert entries - {key} == entries;
        return None;
      }
      if entries[key].expiresAt.Some? && entries[key].expiresAt.value <= now {
        entries := entries - {key};
        return None;
      }
      return Some(entries[key]);
    }

    method Get(key: string, now: int) returns (v: Option<Value>)
      modifies this
      ensures v == if Live(old(entries), key, now).Some? then Some(Live(old(entries), key, now).value.value) else None
      ensures SameFrom(entries, old(entries), now)
    {
      var e := Lookup(key, now);
      v := if e.None? then None else Some(e.value.value);
    }

    method Set(key: string, value: Value, ttlMs: Option<int>, now: int)
      modifies this
      ensures entries == old(entries)[key := Entry(value, if ttlMs.Some? then Some(now + ttlMs.value) else None)]
    {
      var expiresAt := if ttlMs.Some? then Some(now + ttlMs.value) else None;
      entries := entries[key := Entry(value, expiresAt)];
    }

    method Del(key: string)
      modifies this
      ensures entries == old(entries) - {key}
    {
      entries := entries - {key};
    }

    method Incr(key: string, now: int) returns (n: Option<int>)
      modifies this
      ensures n == Next(old(entries), key, now)
      ensures SameFrom(entries, Incremented(old(entries), key, now), now)
    {
      var e := Lookup(key, now);
      if e.None? {
        n := Some(1);
        entries := entries[key := Entry(Number(1), None)];
      } else if e.value.value.number.Some? {
        n := Some(e.value.value.number.value + 1);
        entries := entries[key := Entry(Number(n.value), e.value.expiresAt)];
      } else {
        n := None;
      }
    }

    method Expire(key: string, ttlMs: int, now: int, stamp: int)
      requires now <= stamp
      modifies this
      ensures SameFrom(entries, Armed(old(entries), key, ttlMs, now, stamp), now)
    {
      var e := Lookup(key, now);
      if e.Some? {
        entries := entries[key := e.value.(expiresAt := Some(stamp + ttlMs))];
      }
    }

    method Close()
      modifies this
      ensures entries == map[]
    {
      entries := map[];
    }
  }
}
