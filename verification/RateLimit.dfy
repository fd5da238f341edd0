/**
 * The fixed-window rate limiter (src/middleware/rateLimit.ts) over the key/value store. Requests are
 * hits of any keys in clock order; each key has its own window length, as its tier gives it.
 */
module RateLimit {
  import opened Kv
  import opened Sets

  datatype Hit = Hit(key: string, at: int)

  type Windows = string -> nat

  function Bump(n: int): int { n + 1 }

  /** The store after the first hits, and the count a hit is answered with. */
  function StoreAfter(hits: seq<Hit>, window: Windows): Store<int> {
    if hits == [] then map[]
    else
      var n := |hits| - 1;
      Count(StoreAfter(hits[..n], window), hits[n].key, 1, Bump, window(hits[n].key), hits[n].at).0
  }

  function CountFor(hits: seq<Hit>, window: Windows, i: nat): int
    requires i < |hits|
  {
    Count(StoreAfter(hits[..i], window), hits[i].key, 1, Bump, window(hits[i].key), hits[i].at).1
  }

  predicate Admitted(hits: seq<Hit>, window: Windows, max: nat, i: nat)
    requires i < |hits|
  {
    CountFor(hits, window, i) <= max
  }

  /** The clock starts after the epoch and does not go back. */
  ghost predicate InOrder(hits: seq<Hit>) {
    && (forall i :: 0 <= i < |hits| ==> 0 < hits[i].at)
    && (forall i, j :: 0 <= i < j < |hits| ==> hits[i].at <= hits[j].at)
  }

  class RateLimiter {
    const kv: MemoryStore<int>
    const windowSec: nat
    const max: nat

    constructor (kv: MemoryStore<int>, windowSec: nat, max: nat)
      ensures this.kv == kv && this.windowSec == windowSec && this.max == max
    {
      this.kv, this.windowSec, this.max := kv, windowSec, max;
    }

    /** Counts the request; over the limit is the RateLimitError. `remaining` is the header's value. */
    method Handle(key: string, now: int) returns (admitted: bool, remaining: nat)
      requires kv.first == 1 && kv.bump == Bump
      modifies kv
      ensures var (store, count) := Count(old(kv.store), key, 1, Bump, windowSec, now);
        kv.store == store && (admitted <==> count <= max) && remaining == if count < max then max - count else 0
    {
      var count := kv.IncrWithTtl(key, windowSec, now);
      remaining := if max - count > 0 then max - count else 0;
      if count > max {
        return false, remaining;
      }
      admitted := true;
    }
  }

  // ---------------------------------------------------------------- windows, from the hits alone

  /** The last hit of a key among the first n; -1 if there is none. */
  function Last(hits: seq<Hit>, n: nat, key: string): (p: int)
    requires n <= |hits|
    ensures -1 <= p < n && (0 <= p ==> hits[p].key == key)
    ensures forall j :: p < j < n ==> hits[j].key != key
  {
    if n == 0 then -1 else if hits[n - 1].key == key then n - 1 else Last(hits, n - 1, key)
  }

  function LengthMs(window: Windows, key: string): nat { 1000 * window(key) }

  /** The hit that opened the window hit i falls in: i itself, if the window before it has closed. */
  function Opener(hits: seq<Hit>, window: Windows, i: nat): (o: nat)
    requires i < |hits|
    ensures o <= i && hits[o].key == hits[i].key
  {
    var p := Last(hits, i, hits[i].key);
    if p >= 0 && hits[i].at <= hits[Opener(hits, window, p)].at + LengthMs(window, hits[i].key)
    then Opener(hits, window, p)
    else i
  }

  /** The hits of i's key up to i that share i's window. */
  function SoFar(hits: seq<Hit>, window: Windows, i: nat): set<nat>
    requires i < |hits|
  {
    set j: nat | j <= i && hits[j].key == hits[i].key && Opener(hits, window, j) == Opener(hits, window, i)
  }

  lemma {:induction false} OpenerIsOpen(hits: seq<Hit>, window: Windows, i: nat)
    requires i < |hits|
    ensures Opener(hits, window, Opener(hits, window, i)) == Opener(hits, window, i)
    ensures hits[i].at <= hits[Opener(hits, window, i)].at + LengthMs(window, hits[i].key)
  {
    if Opener(hits, window, i) != i {
      OpenerIsOpen(hits, window, Last(hits, i, hits[i].key));
    }
  }

  /** Windows of one key do not overlap in the sequence of hits. */
  lemma {:induction false} WindowsAreRuns(hits: seq<Hit>, window: Windows, i: nat, j: nat)
    requires i < j < |hits| && hits[i].key == hits[j].key
    ensures Opener(hits, window, j) == Opener(hits, window, i) || Opener(hits, window, j) > i
  {
    if Opener(hits, window, j) != j {
      var p := Last(hits, j, hits[j].key);
      if p != i {
        WindowsAreRuns(hits, window, i, p);
      }
    }
  }

  lemma {:induction false} OpenersApart(hits: seq<Hit>, window: Windows, a: nat, b: nat)
    requires InOrder(hits) && a < b < |hits| && hits[a].key == hits[b].key
    requires Opener(hits, window, a) == a && Opener(hits, window, b) == b
    ensures hits[b].at > hits[a].at + LengthMs(window, hits[a].key)
  {
    var p := Last(hits, b, hits[b].key);
    if p != a {
      WindowsAreRuns(hits, window, a, p);
    }
  }

  lemma {:induction false} SharesWindow(hits: seq<Hit>, window: Windows, i: nat, j: nat)
    requires i < |hits| && j <= i && hits[j].key == hits[i].key
    ensures Opener(hits, window, i) == i && j < i ==> Opener(hits, window, j) != Opener(hits, window, i)
    ensures var p := Last(hits, i, hits[i].key);
      Opener(hits, window, i) != i ==> 0 <= p && Opener(hits, window, i) == Opener(hits, window, p) && (j == i || j <= p)
  {
  }

  lemma {:induction false} SoFarGrows(hits: seq<Hit>, window: Windows, i: nat)
    requires i < |hits|
    ensures Opener(hits, window, i) == i ==> SoFar(hits, window, i) == {i}
    ensures Opener(hits, window, i) != i ==>
              var p := Last(hits, i, hits[i].key);
              0 <= p && SoFar(hits, window, i) == SoFar(hits, window, p) + {i}
  {
    var o, p := Opener(hits, window, i), Last(hits, i, hits[i].key);
    SoFarGrowsAt(hits, window, i, i);
    var now, before := SoFar(hits, window, i), if o != i then SoFar(hits, window, p) else {};
    forall j: nat ensures j in now <==> j == i || j in before {
      SoFarGrowsAt(hits, window, i, j);
    }
    assert now == before + {i};
  }

  lemma {:induction false} SoFarGrowsAt(hits: seq<Hit>, window: Windows, i: nat, j: nat)
    requires i < |hits|
    ensures var o, p := Opener(hits, window, i), Last(hits, i, hits[i].key);
      && (o != i ==> 0 <= p)
      && (j in SoFar(hits, window, i) <==> j == i || (o != i && j in SoFar(hits, window, p)))
  {
    SharesWindow(hits, window, i, i);
    if j <= i && hits[j].key == hits[i].key {
      SharesWindow(hits, window, i, j);
    }
  }

  /** The place in the window: 1 for the hit that opens it, one more than the key's previous hit for the others. */
  lemma {:induction false} PlaceGrows(hits: seq<Hit>, window: Windows, i: nat)
    requires i < |hits|
    ensures |SoFar(hits, window, i)| == if Opener(hits, window, i) == i then 1
                                        else |SoFar(hits, window, Last(hits, i, hits[i].key))| + 1
  {
    SoFarGrows(hits, window, i);
    var p := Last(hits, i, hits[i].key);
    if Opener(hits, window, i) != i {
      assert i !in SoFar(hits, window, p);
    }
  }

  // ---------------------------------------------------------------- the counter counts the window

  /** After n hits, a key's counter is the size of its last window so far, and runs out when that window does. */
  ghost predicate Tracks(s: Store<int>, hits: seq<Hit>, window: Windows, n: nat, key: string)
    requires n <= |hits|
  {
    var p := Last(hits, n, key);
    if p < 0 then key !in s
    else key in s && s[key] == Entry(|SoFar(hits, window, p)|, hits[Opener(hits, window, p)].at + LengthMs(window, key))
  }

  lemma TracksOn(s: Store<int>, hits: seq<Hit>, window: Windows, n: nat, key: string)
    requires InOrder(hits) && n < |hits| && Tracks(s, hits, window, n, key)
    ensures Tracks(Count(s, hits[n].key, 1, Bump, window(hits[n].key), hits[n].at).0, hits, window, n + 1, key)
  {
    if hits[n].key == key {
      PlaceGrows(hits, window, n);
    }
  }

  lemma StoreTracks(hits: seq<Hit>, window: Windows, n: nat, key: string)
    requires InOrder(hits) && n <= |hits|
    ensures Tracks(StoreAfter(hits[..n], window), hits, window, n, key)
  {
    if n > 0 {
      StoreTracks(hits, window, n - 1, key);
      TracksOn(StoreAfter(hits[..n - 1], window), hits, window, n - 1, key);
      assert hits[..n][..n - 1] == hits[..n - 1];
    }
  }

  /** A request is answered with its own place in its window. */
  lemma CountIsPlaceInWindow(hits: seq<Hit>, window: Windows, i: nat)
    requires InOrder(hits) && i < |hits|
    ensures CountFor(hits, window, i) == |SoFar(hits, window, i)|
  {
    StoreTracks(hits, window, i, hits[i].key);
    PlaceGrows(hits, window, i);
  }

  lemma {:induction false} LaterCountsMore(hits: seq<Hit>, window: Windows, i: nat, j: nat)
    requires i < j < |hits| && hits[i].key == hits[j].key && Opener(hits, window, i) == Opener(hits, window, j)
    ensures |SoFar(hits, window, i)| < |SoFar(hits, window, j)|
  {
    assert SoFar(hits, window, i) + {j} <= SoFar(hits, window, j);
    assert j !in SoFar(hits, window, i);
    SubsetSize(SoFar(hits, window, i) + {j}, SoFar(hits, window, j));
  }

  /** Each window admits its first `max` requests of the key, and no others. */
  lemma FirstMaxAdmitted(hits: seq<Hit>, window: Windows, max: nat, i: nat)
    requires InOrder(hits) && i < |hits|
    ensures Admitted(hits, window, max, i) <==> |SoFar(hits, window, i)| <= max
    ensures Admitted(hits, window, max, i) ==>
              forall j :: j in SoFar(hits, window, i) ==> Admitted(hits, window, max, j)
  {
    CountIsPlaceInWindow(hits, window, i);
    forall j | j in SoFar(hits, window, i) && Admitted(hits, window, max, i) ensures Admitted(hits, window, max, j) {
      CountIsPlaceInWindow(hits, window, j);
      if j < i {
        LaterCountsMore(hits, window, j, i);
      }
    }
  }

  // ---------------------------------------------------------------- the bound over any interval

  /** The admitted requests of a key in a closed interval as long as its window. */
  function AdmittedBetween(hits: seq<Hit>, window: Windows, max: nat, key: string, from: int): set<nat> {
    set i: nat | i < |hits| && hits[i].key == key && from <= hits[i].at <= from + LengthMs(window, key)
                 && Admitted(hits, window, max, i)
  }

  lemma InjectiveBound(s: set<nat>, f: nat -> int, lo: int, hi: int)
    requires lo <= hi + 1
    requires forall i :: i in s ==> lo <= f(i) <= hi
    requires forall i, j :: i in s && j in s && f(i) == f(j) ==> i == j
    ensures |s| <= hi + 1 - lo
    decreases hi + 1 - lo
  {
    if s != {} {
      if i :| i in s && f(i) == hi {
        InjectiveBound(s - {i}, f, lo, hi - 1);
      } else {
        InjectiveBound(s, f, lo, hi - 1);
      }
    }
  }

  /** Every hit of the interval outside the first one's window falls in one further window, opened inside the interval. */
  lemma {:induction false} SecondWindow(hits: seq<Hit>, window: Windows, i0: nat, i: nat, j: nat)
    requires InOrder(hits) && i0 < i < |hits| && i0 < j < |hits|
    requires hits[i0].key == hits[i].key == hits[j].key
    requires hits[i].at <= hits[i0].at + LengthMs(window, hits[i0].key)
          && hits[j].at <= hits[i0].at + LengthMs(window, hits[i0].key)
    requires Opener(hits, window, i) != Opener(hits, window, i0) && Opener(hits, window, j) != Opener(hits, window, i0)
    ensures Opener(hits, window, i) == Opener(hits, window, j)
  {
    var a, b := Opener(hits, window, i), Opener(hits, window, j);
    WindowsAreRuns(hits, window, i0, i);
    WindowsAreRuns(hits, window, i0, j);
    OpenerIsOpen(hits, window, i);
    OpenerIsOpen(hits, window, j);
    if a < b {
      OpenersApart(hits, window, a, b);
    } else if b < a {
      OpenersApart(hits, window, b, a);
    }
  }

  /** The place in its window, counted on from `max` for hits outside the window opened by o. */
  function Slot(hits: seq<Hit>, window: Windows, max: nat, o: nat, i: nat): int {
    if i >= |hits| then 0
    else |SoFar(hits, window, i)| + if Opener(hits, window, i) == o then 0 else max
  }

  lemma SlotInRange(hits: seq<Hit>, window: Windows, max: nat, o: nat, i: nat)
    requires InOrder(hits) && i < |hits| && Admitted(hits, window, max, i)
    ensures 1 <= |SoFar(hits, window, i)| <= max
  {
    FirstMaxAdmitted(hits, window, max, i);
    assert i in SoFar(hits, window, i);
    SubsetSize({i}, SoFar(hits, window, i));
  }

  lemma {:induction false} SlotsDiffer(hits: seq<Hit>, window: Windows, max: nat, key: string, from: int, i0: nat, i: nat, j: nat)
    requires InOrder(hits) && {i0, i, j} <= AdmittedBetween(hits, window, max, key, from) && i0 <= i < j
    ensures Slot(hits, window, max, Opener(hits, window, i0), i) != Slot(hits, window, max, Opener(hits, window, i0), j)
  {
    var o := Opener(hits, window, i0);
    assert {i0, i, j} <= AdmittedBetween(hits, window, max, key, from);
    SlotInRange(hits, window, max, o, i);
    SlotInRange(hits, window, max, o, j);
    if Opener(hits, window, i) == Opener(hits, window, j) {
      LaterCountsMore(hits, window, i, j);
    } else if Opener(hits, window, i) != o && Opener(hits, window, j) != o {
      SecondWindow(hits, window, i0, i, j);
    }
  }

  /** When the interval meets a second window, the hit that opened the first one came too early for it. */
  lemma {:induction false} OpenerTooEarly(hits: seq<Hit>, window: Windows, max: nat, key: string, from: int, i0: nat, j: nat)
    requires InOrder(hits) && {i0, j} <= AdmittedBetween(hits, window, max, key, from) && i0 <= j
    requires Opener(hits, window, j) != Opener(hits, window, i0)
    ensures Opener(hits, window, i0) !in AdmittedBetween(hits, window, max, key, from)
  {
    assert i0 in AdmittedBetween(hits, window, max, key, from) && j in AdmittedBetween(hits, window, max, key, from);
    var o, b := Opener(hits, window, i0), Opener(hits, window, j);
    WindowsAreRuns(hits, window, i0, j);
    OpenerIsOpen(hits, window, i0);
    OpenerIsOpen(hits, window, j);
    OpenersApart(hits, window, o, b);
    assert hits[b].at <= hits[j].at;
  }

  lemma SlotBound(s: set<nat>, hits: seq<Hit>, window: Windows, max: nat, o: nat, lo: int, hi: int)
    requires lo <= hi + 1
    requires forall i :: i in s ==> lo <= Slot(hits, window, max, o, i) <= hi
    requires forall i, j :: i in s && j in s && i < j ==> Slot(hits, window, max, o, i) != Slot(hits, window, max, o, j)
    ensures |s| <= hi + 1 - lo
  {
    InjectiveBound(s, (i: nat) => Slot(hits, window, max, o, i), lo, hi);
  }

  lemma {:induction false} SlotAtLeastTwo(hits: seq<Hit>, window: Windows, max: nat, key: string, from: int, i0: nat, i: nat, j: nat)
    requires InOrder(hits) && {i0, i, j} <= AdmittedBetween(hits, window, max, key, from) && i0 <= i && i0 <= j
    requires Opener(hits, window, j) != Opener(hits, window, i0)
    ensures 2 <= Slot(hits, window, max, Opener(hits, window, i0), i) <= 2 * max
  {
    var o := Opener(hits, window, i0);
    assert i in AdmittedBetween(hits, window, max, key, from) && j in AdmittedBetween(hits, window, max, key, from);
    OpenerTooEarly(hits, window, max, key, from, i0, j);
    SlotInRange(hits, window, max, o, i);
    if Opener(hits, window, i) == o && |SoFar(hits, window, i)| == 1 {
      FirstPlaceIsOpener(hits, window, i);
    }
  }

  /**
   * Any closed interval of one window's length sees at most 2 * max - 1 admissions of a key: when it
   * meets two windows, the request that opened the first one lies before it.
   */
  lemma AtMostTwoWindowsLessOne(hits: seq<Hit>, window: Windows, max: nat, key: string, from: int)
    requires InOrder(hits) && 0 < max
    ensures |AdmittedBetween(hits, window, max, key, from)| <= 2 * max - 1
  {
    var s := AdmittedBetween(hits, window, max, key, from);
    if s != {} {
      var i0 := Least(s);
      var o := Opener(hits, window, i0);
      SlotsAllDiffer(hits, window, max, key, from, i0);
      if j :| j in s && Opener(hits, window, j) != o {
        SlotsInTwoWindows(hits, window, max, key, from, i0, j);
        SlotBound(s, hits, window, max, o, 2, 2 * max);
      } else {
        forall i | i in s ensures 1 <= Slot(hits, window, max, o, i) <= max {
          SlotInRange(hits, window, max, o, i);
        }
        SlotBound(s, hits, window, max, o, 1, max);
      }
    }
  }

  lemma {:induction false} SlotsAllDiffer(hits: seq<Hit>, window: Windows, max: nat, key: string, from: int, i0: nat)
    requires var s := AdmittedBetween(hits, window, max, key, from);
      InOrder(hits) && i0 in s && forall i :: i in s ==> i0 <= i
    ensures var s, o := AdmittedBetween(hits, window, max, key, from), Opener(hits, window, i0);
      forall i, j :: i in s && j in s && i < j ==> Slot(hits, window, max, o, i) != Slot(hits, window, max, o, j)
  {
    var s, o := AdmittedBetween(hits, window, max, key, from), Opener(hits, window, i0);
    forall i, j | i in s && j in s && i < j ensures Slot(hits, window, max, o, i) != Slot(hits, window, max, o, j) {
      SlotsDiffer(hits, window, max, key, from, i0, i, j);
    }
  }

  lemma {:induction false} SlotsInTwoWindows(hits: seq<Hit>, window: Windows, max: nat, key: string, from: int, i0: nat, j: nat)
    requires var s := AdmittedBetween(hits, window, max, key, from);
      InOrder(hits) && i0 in s && j in s && (forall i :: i in s ==> i0 <= i)
    requires j < |hits| && i0 < |hits| && Opener(hits, window, j) != Opener(hits, window, i0)
    ensures var s, o := AdmittedBetween(hits, window, max, key, from), Opener(hits, window, i0);
      forall i :: i in s ==> 2 <= Slot(hits, window, max, o, i) <= 2 * max
  {
    var s, o := AdmittedBetween(hits, window, max, key, from), Opener(hits, window, i0);
    forall i | i in s ensures 2 <= Slot(hits, window, max, o, i) <= 2 * max {
      assert {i0, i, j} <= s;
      SlotAtLeastTwo(hits, window, max, key, from, i0, i, j);
    }
  }

  lemma {:induction false} FirstPlaceIsOpener(hits: seq<Hit>, window: Windows, i: nat)
    requires i < |hits| && |SoFar(hits, window, i)| == 1
    ensures Opener(hits, window, i) == i
  {
    var o := Opener(hits, window, i);
    OpenerIsOpen(hits, window, i);
    if o != i {
      SubsetSize({o, i}, SoFar(hits, window, i));
    }
  }

  lemma Least(s: set<nat>) returns (m: nat)
    requires s != {}
    ensures m in s && forall i :: i in s ==> m <= i
    decreases |s|
  {
    m :| m in s;
    var rest := s - {m};
    if rest != {} {
      var k := Least(rest);
      assert forall i :: i in s ==> i == m || i in rest;
      if k < m {
        m := k;
      }
    } else {
      assert forall i :: i in s ==> i == m || i in rest;
    }
  }

  function FourHits(): seq<Hit> { [Hit("k", 1), Hit("k", 1001), Hit("k", 1002), Hit("k", 1002)] }

  function OneSecond(key: string): nat { 1 }

  lemma FourHitsWindows()
    ensures Opener(FourHits(), OneSecond, 0) == 0 && Opener(FourHits(), OneSecond, 1) == 0
    ensures Opener(FourHits(), OneSecond, 2) == 2 && Opener(FourHits(), OneSecond, 3) == 2
  {
    var hits := FourHits();
    assert Last(hits, 0, "k") == -1 && Last(hits, 1, "k") == 0 && Last(hits, 2, "k") == 1 && Last(hits, 3, "k") == 2;
  }

  lemma FourHitsPlaces()
    ensures |SoFar(FourHits(), OneSecond, 1)| == 2 && |SoFar(FourHits(), OneSecond, 2)| == 1 && |SoFar(FourHits(), OneSecond, 3)| == 2
  {
    FourHitsWindows();
    assert Last(FourHits(), 1, "k") == 0 && Last(FourHits(), 3, "k") == 2;
    PlaceGrows(FourHits(), OneSecond, 0);
    PlaceGrows(FourHits(), OneSecond, 1);
    PlaceGrows(FourHits(), OneSecond, 2);
    PlaceGrows(FourHits(), OneSecond, 3);
  }

  /** The bound is reached: windows of one second and a limit of two admit three requests within one second. */
  lemma BoundIsReached()
    ensures InOrder(FourHits()) && {1, 2, 3} <= AdmittedBetween(FourHits(), OneSecond, 2, "k", 1001)
  {
    FourHitsPlaces();
    EarlyEnough(FourHits(), OneSecond, 2, 1, 1001);
    EarlyEnough(FourHits(), OneSecond, 2, 2, 1001);
    EarlyEnough(FourHits(), OneSecond, 2, 3, 1001);
  }

  lemma EarlyEnough(hits: seq<Hit>, window: Windows, max: nat, i: nat, from: int)
    requires InOrder(hits) && i < |hits| && |SoFar(hits, window, i)| <= max
    requires from <= hits[i].at <= from + LengthMs(window, hits[i].key)
    ensures i in AdmittedBetween(hits, window, max, hits[i].key, from)
  {
    FirstMaxAdmitted(hits, window, max, i);
  }
}
