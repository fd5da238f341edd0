/**
 * Penny allocation by largest remainder (src/shared/money.ts, allocate and splitEvenly).
 * The method is proved against the relation IsAllocation, which is shown to have at most one
 * solution; what the allocation promises is proved about the relation.
 */
module Allocation {
  import opened Sums

  function Weight(w: int): nat {
    if w < 0 then 0 else w
  }

  function Weights(weights: seq<int>): (ws: seq<int>)
    ensures |ws| == |weights| && forall i :: 0 <= i < |ws| ==> ws[i] == Weight(weights[i])
  {
    seq(|weights|, i requires 0 <= i < |weights| => Weight(weights[i]))
  }

  function TotalWeight(weights: seq<int>): int {
    Sum(Weights(weights))
  }

  /** The discarded fraction of leg i's exact share, in units of 1 / totalWeight. */
  function Fraction(magnitude: nat, weights: seq<int>, total: int, i: nat): nat
    requires i < |weights| && 0 < total
  {
    magnitude * Weight(weights[i]) % total
  }

  function Floor(magnitude: nat, weights: seq<int>, total: int, i: nat): nat
    requires i < |weights| && 0 < total
  {
    DivNonNegative(magnitude * Weight(weights[i]), total);
    magnitude * Weight(weights[i]) / total
  }

  /** Leg i comes before leg j when leftover cents are handed out. */
  predicate Before(magnitude: nat, weights: seq<int>, total: int, i: nat, j: nat)
    requires i < |weights| && j < |weights| && 0 < total
  {
    var fi, fj := Fraction(magnitude, weights, total, i), Fraction(magnitude, weights, total, j);
    fi > fj || (fi == fj && i < j)
  }

  /** Every leg gets its floor or one more, the cents add up, and the extra cents go to the first in line. */
  ghost predicate IsLargestRemainder(magnitude: nat, weights: seq<int>, parts: seq<int>) {
    var total := TotalWeight(weights);
    && 0 < total
    && |parts| == |weights|
    && Sum(parts) == magnitude
    && (forall i :: 0 <= i < |parts| ==>
          var f := Floor(magnitude, weights, total, i); parts[i] == f || parts[i] == f + 1)
    && (forall i, j :: 0 <= i < |parts| && 0 <= j < |parts|
          && parts[i] == Floor(magnitude, weights, total, i) + 1
          && parts[j] == Floor(magnitude, weights, total, j)
          ==> Before(magnitude, weights, total, i, j))
  }

  function Signed(negative: bool, parts: seq<int>): seq<int> {
    if negative then Negated(parts) else parts
  }

  ghost predicate IsAllocation(totalCents: int, weights: seq<int>, parts: seq<int>) {
    && |parts| == |weights|
    && if TotalWeight(weights) <= 0 || totalCents == 0
       then forall i :: 0 <= i < |parts| ==> parts[i] == 0
       else IsLargestRemainder(Abs(totalCents), weights, Signed(totalCents < 0, parts))
  }

  // ---------------------------------------------------------------- the sort

  datatype Entry = Entry(index: nat, fraction: nat, weight: nat)

  predicate Precedes(a: Entry, b: Entry) {
    a.fraction > b.fraction || (a.fraction == b.fraction && a.index < b.index)
  }

  ghost predicate Sorted(s: seq<Entry>) {
    forall i, j :: 0 <= i < j < |s| ==> Precedes(s[i], s[j])
  }

  function Insert(e: Entry, s: seq<Entry>): seq<Entry> {
    if s == [] || Precedes(e, s[0]) then [e] + s else [s[0]] + Insert(e, s[1..])
  }

  function Sort(s: seq<Entry>): seq<Entry> {
    if s == [] then [] else Insert(s[0], Sort(s[1..]))
  }

  function Fractions(s: seq<Entry>): (r: seq<int>)
    ensures |r| == |s| && forall i :: 0 <= i < |s| ==> r[i] == s[i].fraction
  {
    seq(|s|, i requires 0 <= i < |s| => s[i].fraction)
  }

  lemma {:induction false} InsertKeeps(e: Entry, s: seq<Entry>)
    ensures multiset(Insert(e, s)) == multiset(s) + multiset{e}
    ensures Sum(Fractions(Insert(e, s))) == e.fraction + Sum(Fractions(s))
  {
    if s == [] || Precedes(e, s[0]) {
      assert Fractions(Insert(e, s))[1..] == Fractions(s);
    } else {
      InsertKeeps(e, s[1..]);
      assert s == [s[0]] + s[1..];
      assert Fractions(Insert(e, s))[1..] == Fractions(Insert(e, s[1..]));
      assert Fractions(s)[1..] == Fractions(s[1..]);
    }
  }

  lemma {:induction false} InsertSorts(e: Entry, s: seq<Entry>)
    requires Sorted(s) && forall k :: 0 <= k < |s| ==> s[k].index != e.index
    ensures Sorted(Insert(e, s))
  {
    if s == [] {
    } else if Precedes(e, s[0]) {
      var r := [e] + s;
      forall i, j | 0 <= i < j < |r| ensures Precedes(r[i], r[j]) {
        assert j == 1 || Precedes(s[0], s[j - 1]);
      }
    } else {
      var rest := Insert(e, s[1..]);
      InsertSorts(e, s[1..]);
      InsertKeeps(e, s[1..]);
      forall k | 0 <= k < |rest| ensures Precedes(s[0], rest[k]) {
        assert rest[k] in multiset(s[1..]) + multiset{e};
        assert rest[k] == e || rest[k] in s[1..];
      }
    }
  }

  lemma {:induction false} SortSorts(s: seq<Entry>)
    requires forall i, j :: 0 <= i < j < |s| ==> s[i].index != s[j].index
    ensures Sorted(Sort(s))
  {
    if s != [] {
      var rest, tail := Sort(s[1..]), s[1..];
      SortSorts(tail);
      SortKeeps(tail);
      forall k | 0 <= k < |rest| ensures rest[k].index != s[0].index {
        assert rest[k] in multiset(tail);
        var n :| 0 <= n < |tail| && tail[n] == rest[k];
        assert s[n + 1] == tail[n];
      }
      InsertSorts(s[0], rest);
    }
  }

  lemma {:induction false} SortKeeps(s: seq<Entry>)
    ensures multiset(Sort(s)) == multiset(s)
    ensures Sum(Fractions(Sort(s))) == Sum(Fractions(s))
  {
    if s != [] {
      SortKeeps(s[1..]);
      InsertKeeps(s[0], Sort(s[1..]));
      assert s == [s[0]] + s[1..];
      assert Fractions(s)[1..] == Fractions(s[1..]);
    }
  }

  // ---------------------------------------------------------------- the remainder is small

  /** The discarded fractions add up to exactly the leftover cents, in units of 1 / totalWeight. */
  lemma {:induction false} FractionsSum(magnitude: nat, ws: seq<int>, total: int, floors: seq<int>, fractions: seq<int>)
    requires 0 < total && |floors| == |fractions| == |ws|
    requires forall i :: 0 <= i < |ws| ==> 0 <= ws[i]
    requires forall i :: 0 <= i < |ws| ==> floors[i] == magnitude * ws[i] / total && fractions[i] == magnitude * ws[i] % total
    ensures Sum(fractions) == magnitude * Sum(ws) - total * Sum(floors)
  {
    if ws != [] {
      FractionsSum(magnitude, ws[1..], total, floors[1..], fractions[1..]);
      DivisionSplits(magnitude * ws[0], total);
      Distributes(magnitude, ws[0], Sum(ws[1..]));
      Distributes(total, floors[0], Sum(floors[1..]));
    }
  }

  lemma DivisionSplits(a: int, total: int)
    requires 0 < total
    ensures a % total == a - total * (a / total)
  {
  }

  lemma Distributes(m: int, a: int, b: int)
    ensures m * (a + b) == m * a + m * b
  {
  }

  /** Fractions that vanish from position k on add up to at most k * (total - 1). */
  lemma {:induction false} FractionsBound(f: seq<int>, k: nat, total: int)
    requires 0 < total && forall i :: 0 <= i < |f| ==> 0 <= f[i] < total
    requires forall i :: k <= i < |f| ==> f[i] == 0
    ensures Sum(f) <= k * (total - 1)
  {
    if f != [] {
      if k == 0 {
        FractionsBound(f[1..], 0, total);
      } else {
        FractionsBound(f[1..], k - 1, total);
        assert k * (total - 1) == (k - 1) * (total - 1) + (total - 1);
      }
    }
  }

  /** While cents are left, the entry whose turn it is has a nonzero fraction: the fallback has nothing to place. */
  lemma TurnHasFraction(order: seq<Entry>, total: int, leftover: nat, k: nat)
    requires 0 < total && Sorted(order) && forall i :: 0 <= i < |order| ==> order[i].fraction < total
    requires Sum(Fractions(order)) == total * leftover && k < leftover
    ensures k < |order| && order[k].fraction > 0
  {
    if k >= |order| || order[k].fraction == 0 {
      var f := Fractions(order);
      forall i | k <= i < |f| ensures f[i] == 0 {
        assert i == k || Precedes(order[k], order[i]);
      }
      FractionsBound(f, k, total);
      FewCents(total, leftover, k);
    }
  }

  lemma FewCents(total: int, leftover: nat, k: nat)
    requires 0 < total && k < leftover
    ensures k * (total - 1) < total * leftover
  {
    assert (leftover - k) * (total - 1) >= 0;
    assert total * leftover == leftover * (total - 1) + leftover;
  }

  /** One more cent on the legs named by the first k entries. */
  function HandOut(low: seq<int>, order: seq<Entry>, k: nat): (r: seq<int>)
    requires k <= |order| && forall m :: 0 <= m < |order| ==> order[m].index < |low|
    ensures |r| == |low|
  {
    if k == 0 then low
    else var r := HandOut(low, order, k - 1); var i := order[k - 1].index; r[i := r[i] + 1]
  }

  lemma {:induction false} HandOutGives(low: seq<int>, order: seq<Entry>, k: nat)
    requires k <= |order| && forall m :: 0 <= m < |order| ==> order[m].index < |low|
    requires forall m, n :: 0 <= m < n < |order| ==> order[m].index != order[n].index
    ensures Sum(HandOut(low, order, k)) == Sum(low) + k
    ensures forall m :: 0 <= m < |order| ==>
              HandOut(low, order, k)[order[m].index] == low[order[m].index] + if m < k then 1 else 0
  {
    if k > 0 {
      HandOutGives(low, order, k - 1);
      var r, i := HandOut(low, order, k - 1), order[k - 1].index;
      SumUpdate(r, i, r[i] + 1);
    }
  }

  /** The order in which leftover cents are handed out, as the source's sort produces it. */
  function Order(magnitude: nat, weights: seq<int>, total: int): seq<Entry>
    requires 0 < total
  {
    Sort(Entries(magnitude, weights, total))
  }

  function Entries(magnitude: nat, weights: seq<int>, total: int): (r: seq<Entry>)
    requires 0 < total
    ensures |r| == |weights|
    ensures forall i :: 0 <= i < |r| ==>
              r[i] == Entry(i, Fraction(magnitude, weights, total, i), Weight(weights[i]))
  {
    seq(|weights|, i requires 0 <= i < |weights| =>
      Entry(i, Fraction(magnitude, weights, total, i), Weight(weights[i])))
  }

  function Floors(magnitude: nat, weights: seq<int>, total: int): (r: seq<int>)
    requires 0 < total
    ensures |r| == |weights| && forall i :: 0 <= i < |r| ==> r[i] == Floor(magnitude, weights, total, i)
  {
    seq(|weights|, i requires 0 <= i < |weights| => Floor(magnitude, weights, total, i))
  }

  ghost predicate Listed(order: seq<Entry>, i: nat) {
    exists m :: 0 <= m < |order| && order[m].index == i
  }

  /** The sorted entries name every leg exactly once, with that leg's own fraction and weight. */
  lemma OrderCovers(magnitude: nat, weights: seq<int>, total: int)
    requires 0 < total
    ensures var order := Order(magnitude, weights, total);
      && Sorted(order)
      && (forall m :: 0 <= m < |order| ==>
            && order[m].index < |weights|
            && order[m].fraction == Fraction(magnitude, weights, total, order[m].index)
            && order[m].weight == Weight(weights[order[m].index]))
      && (forall m, n :: 0 <= m < n < |order| ==> order[m].index != order[n].index)
      && (forall i :: 0 <= i < |weights| ==> Listed(order, i))
  {
    var entries := Entries(magnitude, weights, total);
    var order := Order(magnitude, weights, total);
    SortSorts(entries);
    SortKeeps(entries);
    forall m | 0 <= m < |order|
      ensures && order[m].index < |weights|
              && order[m].fraction == Fraction(magnitude, weights, total, order[m].index)
              && order[m].weight == Weight(weights[order[m].index])
    {
      assert order[m] in multiset(entries);
    }
    forall m, n | 0 <= m < n < |order| ensures order[m].index != order[n].index {
      assert Precedes(order[m], order[n]);
    }
    forall i | 0 <= i < |weights| ensures Listed(order, i) {
      assert entries[i] in multiset(order);
      var m :| 0 <= m < |order| && order[m] == entries[i];
      assert order[m].index == i;
    }
  }

  /** The leftover after flooring, and why it is never negative. */
  lemma LeftoverFromFractions(magnitude: nat, weights: seq<int>, total: int)
    requires 0 < total == TotalWeight(weights)
    ensures var leftover := magnitude - Sum(Floors(magnitude, weights, total));
      0 <= leftover && Sum(Fractions(Order(magnitude, weights, total))) == total * leftover
  {
    var entries := Entries(magnitude, weights, total);
    var low := Floors(magnitude, weights, total);
    FractionsSum(magnitude, Weights(weights), total, low, Fractions(entries));
    SortSorts(entries);
    SortKeeps(entries);
    NonNegativeSum(Fractions(entries));
    ScaledLeftover(magnitude, total, Sum(low), Sum(Fractions(entries)));
  }

  lemma ScaledLeftover(magnitude: nat, total: int, low: int, fractions: int)
    requires 0 < total && 0 <= fractions == magnitude * total - total * low
    ensures 0 <= magnitude - low && fractions == total * (magnitude - low)
  {
    assert fractions == total * (magnitude - low);
    NonNegativeFactor(total, magnitude - low);
  }

  lemma NonNegativeFactor(a: int, b: int)
    requires 0 < a && 0 <= a * b
    ensures 0 <= b
  {
  }

  lemma {:induction false} NonNegativeSum(f: seq<int>)
    requires forall i :: 0 <= i < |f| ==> 0 <= f[i]
    ensures 0 <= Sum(f)
  {
    if f != [] {
      NonNegativeSum(f[1..]);
    }
  }

  /** Giving one cent to each of the first `leftover` entries in order is the largest-remainder choice. */
  lemma {:induction false} HandedOutInOrder(magnitude: nat, weights: seq<int>, total: int, k: nat)
    requires 0 < total == TotalWeight(weights)
    requires k == magnitude - Sum(Floors(magnitude, weights, total))
    requires k <= |Order(magnitude, weights, total)|
    requires forall m :: 0 <= m < |Order(magnitude, weights, total)| ==> Order(magnitude, weights, total)[m].index < |weights|
    ensures IsLargestRemainder(magnitude, weights,
                               HandOut(Floors(magnitude, weights, total), Order(magnitude, weights, total), k))
  {
    var order := Order(magnitude, weights, total);
    var parts := HandOut(Floors(magnitude, weights, total), order, k);
    OrderCovers(magnitude, weights, total);
    HandOutGives(Floors(magnitude, weights, total), order, k);
    forall i | 0 <= i < |parts|
      ensures var f := Floor(magnitude, weights, total, i); parts[i] == f || parts[i] == f + 1
    {
      assert Listed(order, i);
      var m :| 0 <= m < |order| && order[m].index == i;
    }
    forall i, j | 0 <= i < |parts| && 0 <= j < |parts|
      && parts[i] == Floor(magnitude, weights, total, i) + 1
      && parts[j] == Floor(magnitude, weights, total, j)
      ensures Before(magnitude, weights, total, i, j)
    {
      assert Listed(order, i) && Listed(order, j);
      var m :| 0 <= m < |order| && order[m].index == i;
      var n :| 0 <= n < |order| && order[n].index == j;
      assert m < k <= n;
      assert Precedes(order[m], order[n]);
    }
  }

  /** Neither skip in the hand-out loop, nor the fallback after it, is ever taken. */
  lemma TurnHasWeight(magnitude: nat, weights: seq<int>, total: int, leftover: nat, k: nat)
    requires 0 < total == TotalWeight(weights)
    requires leftover == magnitude - Sum(Floors(magnitude, weights, total)) && k < leftover
    ensures k < |Order(magnitude, weights, total)| && Order(magnitude, weights, total)[k].weight > 0
  {
    var order := Order(magnitude, weights, total);
    OrderCovers(magnitude, weights, total);
    LeftoverFromFractions(magnitude, weights, total);
    TurnHasFraction(order, total, leftover, k);
    if order[k].weight == 0 {
      ZeroFraction(magnitude, total);
    }
  }

  lemma ZeroFraction(magnitude: nat, total: int)
    requires 0 < total
    ensures magnitude * 0 % total == 0 && magnitude * 0 / total == 0
  {
  }

  lemma NegatedTwice(s: seq<int>)
    ensures Negated(Negated(s)) == s
  {
  }

  lemma HandOutNext(low: seq<int>, order: seq<Entry>, k: nat)
    requires k < |order| && forall m :: 0 <= m < |order| ==> order[m].index < |low|
    ensures var i := order[k].index;
      HandOut(low, order, k + 1) == HandOut(low, order, k)[i := HandOut(low, order, k)[i] + 1]
  {
  }

  method Allocate(totalCents: int, weights: seq<int>) returns (parts: seq<int>)
    ensures IsAllocation(totalCents, weights, parts)
  {
    if |weights| == 0 {
      return [];
    }
    var total := TotalWeight(weights);
    if total <= 0 || totalCents == 0 {
      return seq(|weights|, _ => 0);
    }
    var negative := totalCents < 0;
    var magnitude := Abs(totalCents);

    var low := Floors(magnitude, weights, total);
    var floors := new int[|weights|](i requires 0 <= i < |weights| => low[i]);
    assert floors[..] == low;
    var remainder := magnitude - Sum(low);
    var order := Order(magnitude, weights, total);

    OrderCovers(magnitude, weights, total);
    LeftoverFromFractions(magnitude, weights, total);
    ghost var leftover := remainder;

    var k := 0;
    while k < |order|
      invariant 0 <= k <= |order|
      invariant remainder == leftover - k >= 0
      invariant floors[..] == HandOut(low, order, k)
    {
      if remainder <= 0 {
        break;
      }
      var entry := order[k];
      TurnHasWeight(magnitude, weights, total, leftover, k);
      if entry.weight <= 0 {
        assert false;
      }
      HandOutNext(low, order, k);
      ghost var before := floors[..];
      floors[entry.index] := floors[entry.index] + 1;
      assert floors[..] == before[entry.index := before[entry.index] + 1];
      remainder := remainder - 1;
      k := k + 1;
    }
    if remainder > 0 {
      // The source would park the rest on the first nonzero leg here; there is never a rest.
      TurnHasWeight(magnitude, weights, total, leftover, k);
      assert false;
    }
    HandedOutInOrder(magnitude, weights, total, k);
    parts := Signed(negative, floors[..]);
    NegatedTwice(floors[..]);
  }
}
