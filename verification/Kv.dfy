/**
 * The in-memory key/value store (src/shared/kv.ts, MemoryStore). Values are of any type V: the
 * strings of the source, whose reading as a number and back is the store's `bump`. Times are in
 * milliseconds, TTLs in seconds; the clock is a parameter. An expiry of 0 means never.
 */
module Kv {
  import opened Wrappers

  datatype Entry<+V> = Entry(value: V, expiresAt: int)

  type Store<V> = map<string, Entry<V>>

  predicate Expired<V>(e: Entry<V>, now: int) {
    e.expiresAt != 0 && e.expiresAt < now
  }

  predicate IsLive<V>(s: Store<V>, key: string, now: int) {
    key in s && !Expired(s[key], now)
  }

  /** What `live` leaves behind: an expired entry is deleted when it is looked at. */
  function Pruned<V>(s: Store<V>, key: string, now: int): (r: Store<V>)
    ensures key in r <==> IsLive(s, key, now)
    ensures forall k :: k != key ==> ((k in r <==> k in s) && (k in s ==> r[k] == s[k]))
    ensures key in r ==> r[key] == s[key]
  {
    if key in s && Expired(s[key], now) then s - {key} else s
  }

  function Lookup<V>(s: Store<V>, key: string, now: int): Option<V> {
    if IsLive(s, key, now) then Some(s[key].value) else None
  }

  function PutNx<V>(s: Store<V>, key: string, value: V, ttlSec: int, now: int): (Store<V>, bool) {
    if IsLive(s, key, now) then (s, false)
    else (s[key := Entry(value, now + ttlSec * 1000)], true)
  }

  function Expiry(ttlSec: Option<int>, now: int): int {
    if ttlSec.Some? && ttlSec.value != 0 then now + ttlSec.value * 1000 else 0
  }

  function Put<V>(s: Store<V>, key: string, value: V, ttlSec: Option<int>, now: int): Store<V> {
    s[key := Entry(value, Expiry(ttlSec, now))]
  }

  function Drop<V>(s: Store<V>, key: string): Store<V> {
    s - {key}
  }

  /** Counts up inside the entry's own window: only the first write sets the expiry. */
  function Count<V>(s: Store<V>, key: string, first: V, bump: V -> V, ttlSec: int, now: int): (Store<V>, V) {
    if IsLive(s, key, now)
    then (s[key := s[key].(value := bump(s[key].value))], bump(s[key].value))
    else (s[key := Entry(first, now + ttlSec * 1000)], first)
  }

  class MemoryStore<V> {
    const first: V
    const bump: V -> V
    var store: Store<V>

    constructor (first: V, bump: V -> V)
      ensures store == map[] && this.first == first && this.bump == bump
    {
      this.first, this.bump := first, bump;
      store := map[];
    }

    method Live(key: string, now: int) returns (entry: Option<Entry<V>>)
      modifies this
      ensures store == Pruned(old(store), key, now)
      ensures entry == if IsLive(old(store), key, now) then Some(old(store)[key]) else None
    {
      if key !in store {
        return None;
      }
      if store[key].expiresAt != 0 && store[key].expiresAt < now {
        store := store - {key};
        return None;
      }
      return Some(store[key]);
    }

    method IncrWithTtl(key: string, ttlSec: int, now: int) returns (next: V)
      modifies this
      ensures (store, next) == Count(old(store), key, first, bump, ttlSec, now)
    {
      var entry := Live(key, now);
      match entry
      case None =>
        store := store[key := Entry(first, now + ttlSec * 1000)];
        next := first;
        assert store == old(store)[key := Entry(first, now + ttlSec * 1000)];
      case Some(e) =>
        next := bump(e.value);
        store := store[key := e.(value := next)];
    }

    method Get(key: string, now: int) returns (value: Option<V>)
      modifies this
      ensures store == Pruned(old(store), key, now)
      ensures value == Lookup(old(store), key, now)
    {
      var entry := Live(key, now);
      value := if entry.Some? then Some(entry.value.value) else None;
    }

    method SetNx(key: string, value: V, ttlSec: int, now: int) returns (written: bool)
      modifies this
      ensures (store, written) == PutNx(old(store), key, value, ttlSec, now)
    {
      var entry := Live(key, now);
      if entry.Some? {
        return false;
      }
      store := store[key := Entry(value, now + ttlSec * 1000)];
      assert store == old(store)[key := Entry(value, now + ttlSec * 1000)];
      return true;
    }

    method Set(key: string, value: V, ttlSec: Option<int>, now: int)
      modifies this
      ensures store == Put(old(store), key, value, ttlSec, now)
    {
      store := store[key := Entry(value, if ttlSec.Some? && ttlSec.value != 0 then now + ttlSec.value * 1000 else 0)];
    }

    method Del(key: string)
      modifies this
      ensures store == Drop(old(store), key)
    {
      store := store - {key};
    }
  }
}
