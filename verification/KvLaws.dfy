/** What the key/value store promises (src/shared/kv.ts), proved of the specification of its operations. */
module KvLaws {
  import opened Wrappers
  import opened Kv

  /** What was written is read back until its TTL has passed, to the millisecond; without a TTL, for good. */
  lemma StandsUntilItsTtl<V>(s: Store<V>, key: string, value: V, ttlSec: Option<int>, now: int, later: int)
    requires 0 < now <= later && (ttlSec.Some? ==> 0 <= ttlSec.value)
    ensures Lookup(Put(s, key, value, ttlSec, now), key, later)
         == if ttlSec == None || ttlSec == Some(0) || later - now <= 1000 * ttlSec.value then Some(value) else None
    ensures Lookup(Drop(s, key), key, later) == None
  {
  }

  /** A reservation succeeds exactly when nothing is read back, and then stands like any write; else it changes nothing. */
  lemma ReservesTheAbsent<V>(s: Store<V>, key: string, value: V, ttlSec: int, now: int, later: int)
    requires 0 < now <= later && 0 <= ttlSec
    ensures var (t, written) := PutNx(s, key, value, ttlSec, now);
      && (written <==> Lookup(s, key, now) == None)
      && (written ==> Lookup(t, key, later) == if later - now <= 1000 * ttlSec then Some(value) else None)
      && (!written ==> t == s)
  {
  }

  /** The first count opens a window of its TTL; later ones go up by one step and leave its end where it is. */
  lemma CountsWithinItsWindow<V>(s: Store<V>, key: string, first: V, bump: V -> V, ttlSec: int, now: int, later: int)
    requires 0 < now <= later && 0 <= ttlSec
    ensures var (t, count) := Count(s, key, first, bump, ttlSec, now);
      match Lookup(s, key, now)
      case None => count == first && Lookup(t, key, later) == if later - now <= 1000 * ttlSec then Some(first) else None
      case Some(v) => count == bump(v) && Lookup(t, key, later) == if Lookup(s, key, later).Some? then Some(bump(v)) else None
  {
  }

  /** Two stores that answer every later read alike, from `now` on. */
  ghost predicate SameFrom<V>(a: Store<V>, b: Store<V>, now: int) {
    forall k :: IsLive(a, k, now) == IsLive(b, k, now) && (IsLive(a, k, now) ==> a[k] == b[k])
  }

  /** Deleting what has expired is invisible to any read at the same time or later. */
  lemma PruningIsInvisible<V>(s: Store<V>, key: string, now: int, later: int, k: string)
    requires now <= later
    ensures SameFrom(s, Pruned(s, key, now), later)
    ensures Lookup(Pruned(s, key, now), k, later) == Lookup(s, k, later)
  {
  }

  /** Every operation on one key leaves every other key's entry as it was. */
  lemma OtherKeysUntouched<V>(s: Store<V>, key: string, k: string, value: V, bump: V -> V, ttlSec: int, ttl: Option<int>, now: int)
    requires k != key
    ensures forall r :: r in [Pruned(s, key, now), PutNx(s, key, value, ttlSec, now).0, Put(s, key, value, ttl, now),
                              Drop(s, key), Count(s, key, value, bump, ttlSec, now).0]
              ==> (k in r <==> k in s) && (k in s ==> r[k] == s[k])
  {
  }
}
