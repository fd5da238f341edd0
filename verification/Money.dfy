/**
 * The rest of the money primitives (src/shared/money.ts): the house rounding of rates, even splits,
 * and ordered deductions. Amounts are integer cents; rates are integer basis points.
 */
module Money {
  import opened Wrappers
  import opened Sums
  import opened Allocation
  import opened AllocationLaws

  // ---------------------------------------------------------------- rates

  function ApplyBps(baseCents: int, bps: int): nat {
    if baseCents <= 0 || bps <= 0 then 0 else BpsFloor(baseCents, bps)
  }

  function BpsFloor(baseCents: nat, bps: nat): nat {
    DivNonNegative(baseCents * bps, 10_000);
    baseCents * bps / 10_000
  }

  /** A rate collects its exact amount rounded down, and nothing of or at what is not positive. */
  lemma RoundsDown(baseCents: int, bps: int)
    ensures if 0 < baseCents && 0 < bps
            then 10_000 * ApplyBps(baseCents, bps) <= baseCents * bps < 10_000 * (ApplyBps(baseCents, bps) + 1)
            else ApplyBps(baseCents, bps) == 0
  {
    if 0 < baseCents && 0 < bps {
      DividedDown(baseCents * bps, 10_000);
    }
  }

  lemma DividedDown(a: int, d: int)
    requires 0 < d
    ensures d * (a / d) <= a < d * (a / d + 1)
  {
  }

  /** Rounding down twice loses at most one cent against rounding down once. */
  lemma BpsSplit(a: nat, b: nat, bps: int)
    ensures ApplyBps(a, bps) + ApplyBps(b, bps) <= ApplyBps(a + b, bps) <= ApplyBps(a, bps) + ApplyBps(b, bps) + 1
  {
    if 0 < bps {
      assert (a + b) * bps == a * bps + b * bps;
      assert ApplyBps(a, bps) == a * bps / 10_000;
      assert ApplyBps(b, bps) == b * bps / 10_000;
    }
  }

  function Rated(parts: seq<int>, bps: int): (r: seq<int>)
    ensures |r| == |parts| && forall i :: 0 <= i < |r| ==> r[i] == ApplyBps(parts[i], bps)
  {
    seq(|parts|, i requires 0 <= i < |parts| => ApplyBps(parts[i], bps))
  }

  lemma {:induction false} RatedSum(parts: seq<int>, bps: int)
    requires parts != [] && forall i :: 0 <= i < |parts| ==> 0 <= parts[i]
    ensures 0 <= Sum(parts)
    ensures Sum(Rated(parts, bps)) <= ApplyBps(Sum(parts), bps) <= Sum(Rated(parts, bps)) + |parts| - 1
  {
    assert Rated(parts, bps)[1..] == Rated(parts[1..], bps);
    if |parts| > 1 {
      RatedSum(parts[1..], bps);
      BpsSplit(parts[0], Sum(parts[1..]), bps);
    } else {
      assert Sum(parts) == parts[0] + Sum(parts[1..]);
      assert Sum(Rated(parts, bps)) == ApplyBps(parts[0], bps) + Sum(Rated(parts[1..], bps));
    }
  }

  /**
   * Charging a rate on each leg of an allocation against charging it once on the whole: never more,
   * and short by less than one cent a leg.
   */
  lemma PartByPartAgainstOnce(totalCents: nat, weights: seq<int>, parts: seq<int>, bps: int)
    requires IsAllocation(totalCents, weights, parts) && 0 < TotalWeight(weights)
    ensures Sum(Rated(parts, bps)) <= ApplyBps(totalCents, bps) <= Sum(Rated(parts, bps)) + |parts| - 1
  {
    var total := TotalWeight(weights);
    forall i | 0 <= i < |parts| ensures 0 <= parts[i] {
      WithinOneCent(totalCents, weights, parts, i);
      assert totalCents * Weight(weights[i]) >= 0;
      FactorOrder(-1, parts[i], total);
    }
    SumsExactly(totalCents, weights, parts);
    RatedSum(parts, bps);
  }

  // ---------------------------------------------------------------- even splits

  function EvenShare(magnitude: nat, parts: int, i: nat): nat
    requires 0 < parts
  {
    DivNonNegative(magnitude, parts);
    magnitude / parts + if i < magnitude % parts then 1 else 0
  }

  function EvenShares(totalCents: int, parts: int): (r: seq<int>)
    ensures |r| == Weight(parts)
    ensures forall i :: 0 <= i < |r| ==>
              r[i] == (if totalCents < 0 then -1 else 1) * EvenShare(Abs(totalCents), parts, i)
  {
    if parts <= 0 then []
    else seq(parts, i requires 0 <= i => (if totalCents < 0 then -1 else 1) * EvenShare(Abs(totalCents), parts, i))
  }

  lemma {:induction false} EvenSum(s: seq<int>, base: int, extra: nat)
    requires extra <= |s|
    requires forall i :: 0 <= i < |s| ==> s[i] == base + if i < extra then 1 else 0
    ensures Sum(s) == |s| * base + extra
  {
    if s != [] {
      EvenSum(s[1..], base, if extra == 0 then 0 else extra - 1);
      assert |s| * base == (|s| - 1) * base + base;
    }
  }

  lemma EvenSharesAllocate(magnitude: nat, weights: seq<int>)
    requires weights != [] && forall i :: 0 <= i < |weights| ==> weights[i] == 1
    requires 0 < magnitude
    ensures IsLargestRemainder(magnitude, weights, EvenShares(magnitude, |weights|))
  {
    var n, shares := |weights|, EvenShares(magnitude, |weights|);
    SumConstant(Weights(weights), 1);
    EvenSum(shares, magnitude / n, magnitude % n);
    assert n * (magnitude / n) + magnitude % n == magnitude;
    assert forall i :: 0 <= i < n ==>
        Floor(magnitude, weights, n, i) == magnitude / n && Fraction(magnitude, weights, n, i) == magnitude % n;
  }

  lemma EvenSharesAreAllocation(totalCents: int, ones: seq<int>)
    requires ones != [] && forall i :: 0 <= i < |ones| ==> ones[i] == 1
    ensures IsAllocation(totalCents, ones, EvenShares(totalCents, |ones|))
  {
    SumConstant(Weights(ones), 1);
    var shares := EvenShares(totalCents, |ones|);
    if totalCents == 0 {
      ZeroFraction(1, |ones|);
    } else {
      EvenSharesAllocate(Abs(totalCents), ones);
      assert Signed(totalCents < 0, shares) == EvenShares(Abs(totalCents), |ones|);
    }
  }

  /** The earlier shares take the odd cents, one each. */
  method SplitEvenly(totalCents: int, parts: int) returns (r: seq<int>)
    ensures r == EvenShares(totalCents, parts)
  {
    if parts <= 0 {
      return [];
    }
    var ones := seq(parts, _ => 1);
    r := Allocate(totalCents, ones);
    EvenSharesAreAllocation(totalCents, ones);
    AllocationIsUnique(totalCents, ones, r, EvenShares(totalCents, parts));
  }

  lemma EvenSharesSum(totalCents: int, parts: int)
    requires 0 < parts
    ensures Sum(EvenShares(totalCents, parts)) == totalCents
  {
    var m := Abs(totalCents);
    EvenSum(EvenShares(m, parts), m / parts, m % parts);
    assert parts * (m / parts) + m % parts == m;
    SumScaled(EvenShares(m, parts), EvenShares(totalCents, parts), if totalCents < 0 then -1 else 1);
  }

  // ---------------------------------------------------------------- ordered deductions

  datatype Deduction = Deduction(name: string, cents: Option<int>, bps: Option<int>)

  datatype Leg = Leg(name: string, cents: nat)

  /** What a deduction takes when `remaining` is left: a rate of it or a fixed amount, never more than is left. */
  function Taken(remaining: nat, d: Deduction): (taken: nat)
    ensures taken <= remaining
  {
    var wanted := match d.bps
                  case Some(bps) => ApplyBps(remaining, bps)
                  case None => match d.cents case Some(c) => Weight(c) case None => 0;
    if wanted < remaining then wanted else remaining
  }

  function Legs(remaining: nat, ds: seq<Deduction>): (legs: seq<Leg>)
    ensures |legs| == |ds|
  {
    if ds == [] then []
    else [Leg(ds[0].name, Taken(remaining, ds[0]))] + Legs(remaining - Taken(remaining, ds[0]), ds[1..])
  }

  function Remaining(remaining: nat, ds: seq<Deduction>): nat {
    if ds == [] then remaining else Remaining(remaining - Taken(remaining, ds[0]), ds[1..])
  }

  function Cents(legs: seq<Leg>): (r: seq<int>)
    ensures |r| == |legs| && forall i :: 0 <= i < |r| ==> r[i] == legs[i].cents
  {
    seq(|legs|, i requires 0 <= i < |legs| => legs[i].cents)
  }

  /** The cents of the legs carrying one label, in leg order; 0 stands in for the other legs. */
  function CentsOf(legs: seq<Leg>, name: string): (r: seq<int>)
    ensures |r| == |legs| && forall i :: 0 <= i < |r| ==> r[i] == if legs[i].name == name then legs[i].cents else 0
  {
    seq(|legs|, i requires 0 <= i < |legs| => if legs[i].name == name then legs[i].cents else 0)
  }

  function AmountOf(byLabel: map<string, int>, name: string): int {
    if name in byLabel then byLabel[name] else 0
  }

  lemma LabelsAppend(legs: seq<Leg>, owner: string, taken: nat)
    ensures forall name :: Sum(CentsOf(legs + [Leg(owner, taken)], name))
                        == Sum(CentsOf(legs, name)) + if name == owner then taken else 0
  {
    forall name ensures Sum(CentsOf(legs + [Leg(owner, taken)], name))
                     == Sum(CentsOf(legs, name)) + if name == owner then taken else 0
    {
      var added := [if name == owner then taken else 0];
      SumAppend(CentsOf(legs, name), added);
      assert CentsOf(legs + [Leg(owner, taken)], name) == CentsOf(legs, name) + added;
    }
  }

  method TakeOne(remaining: nat, deduction: Deduction) returns (taken: nat)
    ensures taken == Taken(remaining, deduction)
  {
    var wanted := if deduction.bps.Some? then ApplyBps(remaining, deduction.bps.value)
                  else if deduction.cents.Some? && deduction.cents.value > 0 then deduction.cents.value else 0;
    taken := if wanted < remaining then wanted else remaining;
  }

  method DeductInOrder(grossCents: int, deductions: seq<Deduction>)
    returns (legs: seq<Leg>, remainingCents: nat, byLabel: map<string, int>)
    ensures legs == Legs(if grossCents > 0 then grossCents else 0, deductions)
    ensures remainingCents == Remaining(if grossCents > 0 then grossCents else 0, deductions)
    ensures forall name :: AmountOf(byLabel, name) == Sum(CentsOf(legs, name))
  {
    var remaining: nat := if grossCents > 0 then grossCents else 0;
    ghost var gross: nat := remaining;
    legs, byLabel := [], map[];
    assert forall name :: Sum(CentsOf(legs, name)) == 0;
    var k := 0;
    while k < |deductions|
      invariant 0 <= k <= |deductions|
      invariant legs + Legs(remaining, deductions[k..]) == Legs(gross, deductions)
      invariant Remaining(remaining, deductions[k..]) == Remaining(gross, deductions)
      invariant forall name :: AmountOf(byLabel, name) == Sum(CentsOf(legs, name))
    {
      var deduction := deductions[k];
      var taken := TakeOne(remaining, deduction);
      assert deductions[k..][1..] == deductions[k + 1..];
      remaining := remaining - taken;
      ghost var before := legs;
      legs := legs + [Leg(deduction.name, taken)];
      LabelsAppend(before, deduction.name, taken);
      byLabel := byLabel[deduction.name := AmountOf(byLabel, deduction.name) + taken];
      k := k + 1;
    }
    assert deductions[k..] == [];
    remainingCents := remaining;
  }

  /**
   * Each deduction in its turn, with r cents left by the ones before it. A rate takes its amount of r
   * rounded down, and wins over a fixed amount given with it; a fixed amount is never negative; neither
   * takes more than r, and a deduction with neither takes nothing.
   */
  lemma {:induction false} LegIs(gross: nat, ds: seq<Deduction>, k: nat)
    requires k < |ds|
    ensures var r, d, leg := Remaining(gross, ds[..k]), ds[k], Legs(gross, ds)[k];
      && leg.name == d.name
      && (match d.bps
          case Some(bps) =>
            if bps <= 0 || r == 0 then leg.cents == 0
            else leg.cents <= r && 10_000 * leg.cents <= r * bps && (leg.cents == r || r * bps < 10_000 * (leg.cents + 1))
          case None =>
            match d.cents
            case Some(cents) => leg.cents == if cents <= 0 then 0 else if cents <= r then cents else r
            case None => leg.cents == 0)
    ensures Remaining(gross, ds[..k + 1]) == Remaining(gross, ds[..k]) - Legs(gross, ds)[k].cents
    ensures Remaining(gross, ds[..0]) == gross
  {
    if k == 0 {
      assert ds[..1][1..] == [];
      if ds[0].bps.Some? {
        RoundsDown(gross, ds[0].bps.value);
        BelowRate(gross, Taken(gross, ds[0]), ds[0].bps.value);
      }
    } else {
      var left := gross - Taken(gross, ds[0]);
      LegIs(left, ds[1..], k - 1);
      assert ds[..k][1..] == ds[1..][..k - 1] && ds[..k + 1][1..] == ds[1..][..k];
    }
  }

  lemma BelowRate(r: nat, taken: nat, bps: int)
    requires taken == if ApplyBps(r, bps) < r then ApplyBps(r, bps) else r
    ensures 0 < bps && 0 < r ==> 10_000 * taken <= r * bps
  {
    RoundsDown(r, bps);
  }

  /** Nothing is created or lost. */
  lemma {:induction false} DeductionsConserve(gross: nat, ds: seq<Deduction>)
    ensures Sum(Cents(Legs(gross, ds))) + Remaining(gross, ds) == gross
  {
    if ds != [] {
      var taken := Taken(gross, ds[0]);
      DeductionsConserve(gross - taken, ds[1..]);
      assert Cents(Legs(gross, ds))[1..] == Cents(Legs(gross - taken, ds[1..]));
    }
  }

  /** Deductions appended later cannot touch what earlier claimants got. */
  lemma {:induction false} LaterDeductionsWait(gross: nat, ds: seq<Deduction>, more: seq<Deduction>)
    ensures Legs(gross, ds + more) == Legs(gross, ds) + Legs(Remaining(gross, ds), more)
    ensures Remaining(gross, ds + more) == Remaining(Remaining(gross, ds), more)
  {
    if ds == [] {
      assert ds + more == more;
    } else {
      assert (ds + more)[1..] == ds[1..] + more;
      LaterDeductionsWait(gross - Taken(gross, ds[0]), ds[1..], more);
    }
  }

  /** One deduction from a larger amount takes no less, and takes at most the difference more. */
  lemma TakenMonotone(a: nat, b: nat, d: Deduction)
    requires a <= b
    ensures 0 <= Taken(b, d) - Taken(a, d) <= b - a
  {
    match d.bps
    case None =>
    case Some(bps) =>
      if 0 < bps <= 10_000 {
        BpsAtMostBase(b - a, bps);
        BpsSplit(a, b - a, bps);
        BpsStep(a, b - a, bps);
        BpsAtMostBase(a, bps);
        BpsAtMostBase(b, bps);
      } else if 10_000 < bps {
        BpsAtLeastBase(a, bps);
        BpsAtLeastBase(b, bps);
      }
  }

  lemma BpsAtMostBase(base: nat, bps: nat)
    requires bps <= 10_000
    ensures ApplyBps(base, bps) <= base
  {
    assert base * bps <= base * 10_000 by { assert base * (10_000 - bps) >= 0; }
  }

  lemma BpsAtLeastBase(base: nat, bps: nat)
    requires 10_000 <= bps
    ensures base <= ApplyBps(base, bps)
  {
    assert base * 10_000 <= base * bps by { assert base * (bps - 10_000) >= 0; }
  }

  lemma BpsStep(a: nat, step: nat, bps: nat)
    requires bps <= 10_000
    ensures ApplyBps(a + step, bps) <= ApplyBps(a, bps) + step
  {
    assert (a + step) * bps == a * bps + step * bps;
    assert step * bps <= step * 10_000 by { assert step * (10_000 - bps) >= 0; }
    if 0 < bps {
      DivMonotone((a + step) * bps, a * bps + step * 10_000, 10_000);
      assert ApplyBps(a, bps) == a * bps / 10_000;
      assert ApplyBps(a + step, bps) == (a + step) * bps / 10_000;
    }
  }

  /** More money in means no claimant, and no remainder, gets less: rates above 100% included. */
  lemma {:induction false} DeductionsMonotone(a: nat, b: nat, ds: seq<Deduction>)
    requires a <= b
    ensures forall i :: 0 <= i < |ds| ==> Legs(a, ds)[i].cents <= Legs(b, ds)[i].cents
    ensures Remaining(a, ds) <= Remaining(b, ds)
  {
    if ds != [] {
      TakenMonotone(a, b, ds[0]);
      DeductionsMonotone(a - Taken(a, ds[0]), b - Taken(b, ds[0]), ds[1..]);
    }
  }

  // ---------------------------------------------------------------- reconciliation

  /** assertReconciles: the amount the legs are off by is the error it throws with. */
  function AssertReconciles(totalCents: int, legs: seq<int>): Result<(), int> {
    var sum := Sum(legs);
    if sum != totalCents then Err(sum - totalCents) else Ok(())
  }

  /** An allocation reconciles unless there was nobody to give a nonzero total to. */
  lemma AllocationReconciles(totalCents: int, weights: seq<int>, parts: seq<int>)
    requires IsAllocation(totalCents, weights, parts)
    ensures AssertReconciles(totalCents, parts).Ok? <==> 0 < TotalWeight(weights) || totalCents == 0
  {
    if 0 < TotalWeight(weights) {
      SumsExactly(totalCents, weights, parts);
    } else {
      SumConstant(parts, 0);
    }
  }
}
