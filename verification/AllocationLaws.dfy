/** What an allocation promises (src/shared/money.ts, lines 67-121), proved of the relation IsAllocation. */
module AllocationLaws {
  import opened Sums
  import opened Allocation

  /** Only positive weights count: they are what they are, and any other is none. */
  lemma {:induction false} OnlyPositiveWeightsCount(weights: seq<int>)
    ensures forall i :: 0 <= i < |weights| ==> Weight(weights[i]) == if weights[i] > 0 then weights[i] else 0
    ensures TotalWeight(weights) == Sum(seq(|weights|, i requires 0 <= i < |weights| => if weights[i] > 0 then weights[i] else 0))
    ensures 0 < TotalWeight(weights) <==> exists i :: 0 <= i < |weights| && weights[i] > 0
  {
    assert Weights(weights) == seq(|weights|, i requires 0 <= i < |weights| => if weights[i] > 0 then weights[i] else 0);
    PositiveSumIff(Weights(weights));
    assert forall i :: 0 <= i < |weights| ==> (0 < Weights(weights)[i] <==> 0 < weights[i]);
  }

  lemma {:induction false} PositiveSumIff(s: seq<int>)
    requires forall i :: 0 <= i < |s| ==> 0 <= s[i]
    ensures 0 <= Sum(s)
    ensures 0 < Sum(s) <==> exists i :: 0 <= i < |s| && 0 < s[i]
  {
    if s != [] {
      PositiveSumIff(s[1..]);
      if 0 < s[0] {
        assert s[0] > 0;
      } else if i :| 0 <= i < |s[1..]| && 0 < s[1..][i] {
        assert s[i + 1] > 0;
      } else {
        forall i | 0 <= i < |s| ensures s[i] <= 0 {
          assert i == 0 || s[i] == s[1..][i - 1];
        }
      }
    }
  }

  /** With a total of zero, or nobody of positive weight, everyone gets nothing: one part a leg all the same. */
  lemma NothingToAllocate(totalCents: int, weights: seq<int>, parts: seq<int>)
    requires IsAllocation(totalCents, weights, parts)
    ensures |parts| == |weights|
    ensures totalCents == 0 || (forall i :: 0 <= i < |weights| ==> weights[i] <= 0) ==> forall i :: 0 <= i < |parts| ==> parts[i] == 0
  {
    OnlyPositiveWeightsCount(weights);
  }

  /** The extra cents go to the largest discarded fractions, ties to the earlier leg, in the amount's own sign. */
  lemma ExtraCentsInOrder(magnitude: nat, weights: seq<int>, parts: seq<int>, i: nat, j: nat)
    requires IsAllocation(magnitude, weights, parts) && 0 < magnitude && i < |parts| && j < |parts|
    requires 0 < TotalWeight(weights) && 0 <= weights[i] && 0 <= weights[j]
    requires parts[j] * TotalWeight(weights) > magnitude * weights[j]
    requires var fi, fj := magnitude * weights[i] % TotalWeight(weights), magnitude * weights[j] % TotalWeight(weights);
      fi > fj || (fi == fj && i < j)
    ensures parts[i] * TotalWeight(weights) > magnitude * weights[i]
  {
    var total := TotalWeight(weights);
    ErrorOf(magnitude, weights, parts, i);
    ErrorOf(magnitude, weights, parts, j);
    assert Before(magnitude, weights, total, i, j);
  }

  /** How far each leg is from its exact share, in units of 1 / totalWeight. */
  function Errors(totalCents: int, weights: seq<int>, parts: seq<int>): (r: seq<int>)
    requires |parts| == |weights|
    ensures |r| == |parts|
    ensures forall i :: 0 <= i < |r| ==> r[i] == parts[i] * TotalWeight(weights) - totalCents * Weight(weights[i])
  {
    seq(|parts|, i requires 0 <= i < |parts| => parts[i] * TotalWeight(weights) - totalCents * Weight(weights[i]))
  }

  function Magnitudes(s: seq<int>): (r: seq<int>)
    ensures |r| == |s| && forall i :: 0 <= i < |r| ==> r[i] == Abs(s[i])
  {
    seq(|s|, i requires 0 <= i < |s| => Abs(s[i]))
  }

  /** The total distance from exact proportionality: what largest remainder minimises. */
  function Deviation(totalCents: int, weights: seq<int>, parts: seq<int>): int
    requires |parts| == |weights|
  {
    Sum(Magnitudes(Errors(totalCents, weights, parts)))
  }

  lemma {:induction false} ErrorsSum(totalCents: int, weights: seq<int>, parts: seq<int>)
    requires |parts| == |weights|
    ensures Sum(Errors(totalCents, weights, parts)) == TotalWeight(weights) * (Sum(parts) - totalCents)
  {
    var total, ws, errors := TotalWeight(weights), Weights(weights), Errors(totalCents, weights, parts);
    ErrorsAdd(errors, total, parts, totalCents, ws);
    assert total * (Sum(parts) - totalCents) == total * Sum(parts) - totalCents * total;
  }

  lemma {:induction false} ErrorsAdd(errors: seq<int>, total: int, parts: seq<int>, totalCents: int, ws: seq<int>)
    requires |errors| == |parts| == |ws|
    requires forall i :: 0 <= i < |errors| ==> errors[i] == parts[i] * total - totalCents * ws[i]
    ensures Sum(errors) == total * Sum(parts) - totalCents * Sum(ws)
  {
    if errors != [] {
      ErrorsAdd(errors[1..], total, parts[1..], totalCents, ws[1..]);
      assert total * (parts[0] + Sum(parts[1..])) == total * parts[0] + total * Sum(parts[1..]);
      assert totalCents * (ws[0] + Sum(ws[1..])) == totalCents * ws[0] + totalCents * Sum(ws[1..]);
    }
  }

  /** A leg's error is minus its discarded fraction, or that plus one whole unit when it got an extra cent. */
  lemma ErrorOf(magnitude: nat, weights: seq<int>, parts: seq<int>, i: nat)
    requires IsLargestRemainder(magnitude, weights, parts) && i < |parts|
    ensures var total := TotalWeight(weights);
      var f := Fraction(magnitude, weights, total, i);
      && 0 <= f < total
      && (parts[i] == Floor(magnitude, weights, total, i) ==> Errors(magnitude, weights, parts)[i] == 0 - f)
      && (parts[i] == Floor(magnitude, weights, total, i) + 1 ==> Errors(magnitude, weights, parts)[i] == total - f)
  {
    var total := TotalWeight(weights);
    var share := magnitude * Weight(weights[i]);
    assert share == share / total * total + share % total;
    assert (share / total + 1) * total == share / total * total + total;
  }

  lemma ExtraCentHasFraction(magnitude: nat, weights: seq<int>, parts: seq<int>, i: nat)
    requires IsLargestRemainder(magnitude, weights, parts) && i < |parts|
    requires parts[i] == Floor(magnitude, weights, TotalWeight(weights), i) + 1
    ensures Fraction(magnitude, weights, TotalWeight(weights), i) > 0 && weights[i] > 0
  {
    ZeroFraction(magnitude, TotalWeight(weights));
    var total := TotalWeight(weights);
    if Fraction(magnitude, weights, total, i) == 0 {
      var errors := Errors(magnitude, weights, parts);
      var zeros := seq(|parts|, _ => 0);
      forall j | 0 <= j < |parts| ensures zeros[j] <= errors[j] && (j == i ==> zeros[j] < errors[j]) {
        ErrorOf(magnitude, weights, parts, j);
        if parts[j] == Floor(magnitude, weights, total, j) {
          assert Before(magnitude, weights, total, i, j);
        }
      }
      SumMonotone(zeros, errors);
      SumConstant(zeros, 0);
      ErrorsSum(magnitude, weights, parts);
    }
  }

  lemma QuotaForMagnitude(magnitude: nat, weights: seq<int>, parts: seq<int>, i: nat)
    requires IsLargestRemainder(magnitude, weights, parts) && i < |parts|
    ensures Abs(parts[i] * TotalWeight(weights) - magnitude * Weight(weights[i])) < TotalWeight(weights)
    ensures Weight(weights[i]) == 0 ==> parts[i] == 0
  {
    var total := TotalWeight(weights);
    ErrorOf(magnitude, weights, parts, i);
    ZeroFraction(magnitude, total);
    if parts[i] == Floor(magnitude, weights, total, i) + 1 {
      ExtraCentHasFraction(magnitude, weights, parts, i);
    }
  }

  lemma MirroredError(part: int, total: int, amount: int, weight: int)
    ensures Abs((-part) * total - (-amount) * weight) == Abs(part * total - amount * weight)
  {
    assert (-part) * total == -(part * total) && (-amount) * weight == -(amount * weight);
  }

  /** The quota rule, and nothing for a leg of weight zero. */
  lemma WithinOneCent(totalCents: int, weights: seq<int>, parts: seq<int>, i: nat)
    requires IsAllocation(totalCents, weights, parts) && 0 < TotalWeight(weights) && i < |parts|
    ensures Abs(parts[i] * TotalWeight(weights) - totalCents * Weight(weights[i])) < TotalWeight(weights)
    ensures Weight(weights[i]) == 0 ==> parts[i] == 0
  {
    if totalCents != 0 {
      QuotaForMagnitude(Abs(totalCents), weights, Signed(totalCents < 0, parts), i);
      MirroredError(parts[i], TotalWeight(weights), totalCents, Weight(weights[i]));
    }
  }

  lemma {:induction false} SumsExactly(totalCents: int, weights: seq<int>, parts: seq<int>)
    requires IsAllocation(totalCents, weights, parts) && 0 < TotalWeight(weights)
    ensures Sum(parts) == totalCents
  {
    if totalCents == 0 {
      SumConstant(parts, 0);
    } else {
      SumNegated(parts);
    }
  }

  lemma NegationCommutes(totalCents: int, weights: seq<int>, parts: seq<int>)
    ensures IsAllocation(totalCents, weights, parts) <==> IsAllocation(-totalCents, weights, Negated(parts))
  {
    assert Negated(Negated(parts)) == parts;
  }

  /** Two legs cannot swap their extra cent: each would have to come before the other. */
  lemma NoSwap(magnitude: nat, weights: seq<int>, p: seq<int>, q: seq<int>, i: nat, j: nat)
    requires IsLargestRemainder(magnitude, weights, p) && IsLargestRemainder(magnitude, weights, q)
    requires i < |p| && j < |p|
    ensures !(p[i] < q[i] && q[j] < p[j])
  {
    var total := TotalWeight(weights);
    assert !(Before(magnitude, weights, total, i, j) && Before(magnitude, weights, total, j, i));
  }

  lemma SameRemainderChoice(magnitude: nat, weights: seq<int>, p: seq<int>, q: seq<int>)
    requires IsLargestRemainder(magnitude, weights, p) && IsLargestRemainder(magnitude, weights, q)
    ensures p == q
  {
    forall i, j | 0 <= i < |p| && 0 <= j < |p| ensures !(p[i] < q[i] && q[j] < p[j]) {
      NoSwap(magnitude, weights, p, q, i, j);
    }
    if forall i :: 0 <= i < |p| ==> p[i] <= q[i] {
      SumMonotone(p, q);
    } else {
      SumMonotone(q, p);
    }
  }

  /** The relation Allocate is proved against leaves it no choice. */
  lemma AllocationIsUnique(totalCents: int, weights: seq<int>, p: seq<int>, q: seq<int>)
    requires IsAllocation(totalCents, weights, p) && IsAllocation(totalCents, weights, q)
    ensures p == q
  {
    if TotalWeight(weights) > 0 && totalCents != 0 {
      SameRemainderChoice(Abs(totalCents), weights, Signed(totalCents < 0, p), Signed(totalCents < 0, q));
      assert Negated(Negated(p)) == p && Negated(Negated(q)) == q;
    }
  }

  // ---------------------------------------------------------------- fairness between legs

  lemma DivMonotone(x: nat, y: nat, d: int)
    requires x <= y && 0 < d
    ensures x / d <= y / d
  {
    assert y / d * d + d > y && x >= x / d * d;
    FactorOrder(x / d, y / d + 1, d);
  }

  lemma FactorOrder(a: int, b: int, d: int)
    requires 0 < d && a * d < b * d
    ensures a < b
  {
  }

  lemma HeavierShare(magnitude: nat, a: nat, b: nat, total: int)
    requires a <= b && 0 < total
    ensures magnitude * a / total <= magnitude * b / total
    ensures magnitude * a / total == magnitude * b / total ==> magnitude * a % total <= magnitude * b % total
    ensures 0 < magnitude && a < b && magnitude * a / total == magnitude * b / total
        ==> magnitude * a % total < magnitude * b % total
  {
    var x, y := magnitude * a, magnitude * b;
    assert magnitude * (b - a) >= 0;
    assert x <= y;
    assert x == x / total * total + x % total && y == y / total * total + y % total;
    DivMonotone(x, y, total);
    if 0 < magnitude && a < b {
      assert magnitude * (b - a) > 0;
    }
  }

  /**
   * A heavier leg never gets less of the amount, and of two legs of equal weight the earlier one gets the
   * same or one cent more of it; of a negative total, that many cents more are taken.
   */
  lemma HeavierNeverGetsLess(totalCents: int, weights: seq<int>, parts: seq<int>, i: nat, j: nat)
    requires IsAllocation(totalCents, weights, parts) && i < |parts| && j < |parts|
    ensures weights[i] > weights[j] ==> if totalCents >= 0 then parts[i] >= parts[j] else parts[i] <= parts[j]
    ensures weights[i] == weights[j] && i < j ==>
              if totalCents >= 0 then parts[j] <= parts[i] <= parts[j] + 1 else parts[j] - 1 <= parts[i] <= parts[j]
  {
    if totalCents >= 0 {
      HeavierOfAmount(totalCents, weights, parts, i, j);
    } else {
      NegationCommutes(totalCents, weights, parts);
      HeavierOfAmount(-totalCents, weights, Negated(parts), i, j);
    }
  }

  lemma HeavierOfAmount(totalCents: nat, weights: seq<int>, parts: seq<int>, i: nat, j: nat)
    requires IsAllocation(totalCents, weights, parts) && i < |parts| && j < |parts|
    ensures weights[i] > weights[j] ==> parts[i] >= parts[j]
    ensures weights[i] == weights[j] && i < j ==> parts[j] <= parts[i] <= parts[j] + 1
  {
    var total := TotalWeight(weights);
    if 0 < total && totalCents != 0 {
      if weights[i] >= weights[j] {
        HeavierShare(totalCents, Weight(weights[j]), Weight(weights[i]), total);
        if Weight(weights[i]) == Weight(weights[j]) && weights[i] > weights[j] {
          WithinOneCent(totalCents, weights, parts, i);
          WithinOneCent(totalCents, weights, parts, j);
        } else if weights[i] > weights[j] || i < j {
          assert !Before(totalCents, weights, total, j, i)
              || Floor(totalCents, weights, total, i) > Floor(totalCents, weights, total, j);
        }
      }
    }
  }

  // ---------------------------------------------------------------- optimality

  /** Floors of the exact shares, and the steps a rival vector takes away from them. */
  function Steps(magnitude: nat, weights: seq<int>, parts: seq<int>): (r: seq<int>)
    requires |parts| == |weights| && 0 < TotalWeight(weights)
    ensures |r| == |parts|
    ensures forall i :: 0 <= i < |r| ==> r[i] == parts[i] - Floor(magnitude, weights, TotalWeight(weights), i)
  {
    seq(|parts|, i requires 0 <= i < |parts| => parts[i] - Floor(magnitude, weights, TotalWeight(weights), i))
  }

  /** The fraction of the best-placed leg that got no extra cent; 0 when every leg got one. */
  lemma Threshold(magnitude: nat, weights: seq<int>, parts: seq<int>) returns (theta: nat)
    requires IsLargestRemainder(magnitude, weights, parts)
    ensures theta < TotalWeight(weights)
    ensures forall i :: 0 <= i < |parts| ==>
              if parts[i] == Floor(magnitude, weights, TotalWeight(weights), i)
              then Fraction(magnitude, weights, TotalWeight(weights), i) <= theta
              else theta <= Fraction(magnitude, weights, TotalWeight(weights), i)
  {
    var total := TotalWeight(weights);
    theta := 0;
    ghost var best := -1;
    for k := 0 to |parts|
      invariant theta < total
      invariant -1 <= best < k
      invariant best == -1 ==> theta == 0
      invariant 0 <= best ==> parts[best] == Floor(magnitude, weights, total, best)
                              && theta == Fraction(magnitude, weights, total, best)
      invariant forall i :: 0 <= i < k && parts[i] == Floor(magnitude, weights, total, i)
                  ==> Fraction(magnitude, weights, total, i) <= theta
    {
      var f := Fraction(magnitude, weights, total, k);
      if parts[k] == Floor(magnitude, weights, total, k) && f >= theta {
        theta, best := f, k;
      }
    }
    forall i | 0 <= i < |parts| && parts[i] != Floor(magnitude, weights, total, i)
      ensures theta <= Fraction(magnitude, weights, total, i)
    {
      if 0 <= best {
        assert Before(magnitude, weights, total, i, best);
      }
    }
  }

  /** One leg's cost, priced at the threshold, is least at the step largest remainder takes. */
  lemma CheapestStep(total: int, f: nat, theta: nat, chosen: int, d: int)
    requires 0 <= f < total && theta < total
    requires (chosen == 0 && f <= theta) || (chosen == 1 && theta <= f)
    ensures Abs(chosen * total - f) - (total - 2 * theta) * chosen <= Abs(d * total - f) - (total - 2 * theta) * d
  {
    var price := total - 2 * theta;
    Price(total, theta, d);
    assert chosen * total == (if chosen == 0 then 0 else total);
    assert price * chosen == (if chosen == 0 then 0 else price);
    if d >= 1 {
      Scaled(d - 1, total, theta);
      assert d * total == (d - 1) * total + total && d * theta == (d - 1) * theta + theta;
    } else {
      Scaled(-d, total, theta);
      assert d * total == -((-d) * total) && d * theta == -((-d) * theta);
    }
  }

  lemma Price(total: int, theta: int, d: int)
    ensures (total - 2 * theta) * d == d * total - 2 * (d * theta)
  {
  }

  lemma Scaled(e: nat, total: int, theta: nat)
    requires theta < total
    ensures 0 <= e * theta <= e * total
  {
  }

  lemma {:induction false} PricedSum(costs: seq<int>, steps: seq<int>, rivalCosts: seq<int>, rivalSteps: seq<int>, price: int)
    requires |costs| == |steps| == |rivalCosts| == |rivalSteps|
    requires forall i :: 0 <= i < |costs| ==> costs[i] - price * steps[i] <= rivalCosts[i] - price * rivalSteps[i]
    ensures Sum(costs) - price * Sum(steps) <= Sum(rivalCosts) - price * Sum(rivalSteps)
  {
    if costs != [] {
      PricedSum(costs[1..], steps[1..], rivalCosts[1..], rivalSteps[1..], price);
      assert price * (steps[0] + Sum(steps[1..])) == price * steps[0] + price * Sum(steps[1..]);
      assert price * (rivalSteps[0] + Sum(rivalSteps[1..])) == price * rivalSteps[0] + price * Sum(rivalSteps[1..]);
    }
  }

  lemma StepCost(magnitude: nat, weights: seq<int>, parts: seq<int>, i: nat)
    requires |parts| == |weights| && 0 < TotalWeight(weights) && i < |parts|
    ensures Errors(magnitude, weights, parts)[i]
         == Steps(magnitude, weights, parts)[i] * TotalWeight(weights) - Fraction(magnitude, weights, TotalWeight(weights), i)
  {
    var total := TotalWeight(weights);
    var share := magnitude * Weight(weights[i]);
    assert share == share / total * total + share % total;
    assert (parts[i] - share / total) * total == parts[i] * total - share / total * total;
  }

  lemma {:induction false} OptimalForMagnitude(magnitude: nat, weights: seq<int>, parts: seq<int>, rival: seq<int>)
    requires IsLargestRemainder(magnitude, weights, parts)
    requires |rival| == |weights| && Sum(rival) == magnitude
    ensures Deviation(magnitude, weights, parts) <= Deviation(magnitude, weights, rival)
  {
    var total := TotalWeight(weights);
    var theta := Threshold(magnitude, weights, parts);
    var price := total - 2 * theta;
    var costs, steps := Magnitudes(Errors(magnitude, weights, parts)), Steps(magnitude, weights, parts);
    var rivalCosts, rivalSteps := Magnitudes(Errors(magnitude, weights, rival)), Steps(magnitude, weights, rival);
    forall i | 0 <= i < |parts| ensures costs[i] - price * steps[i] <= rivalCosts[i] - price * rivalSteps[i] {
      StepCost(magnitude, weights, parts, i);
      StepCost(magnitude, weights, rival, i);
      CheapestStep(total, Fraction(magnitude, weights, total, i), theta, steps[i], rivalSteps[i]);
    }
    PricedSum(costs, steps, rivalCosts, rivalSteps, price);
    var low := Floors(magnitude, weights, total);
    SumDifference(parts, low, steps);
    SumDifference(rival, low, rivalSteps);
  }

  lemma DeviationNegated(totalCents: int, weights: seq<int>, parts: seq<int>)
    requires |parts| == |weights|
    ensures Deviation(-totalCents, weights, Negated(parts)) == Deviation(totalCents, weights, parts)
  {
    var a, b := Errors(-totalCents, weights, Negated(parts)), Errors(totalCents, weights, parts);
    forall i | 0 <= i < |parts| ensures a[i] == -b[i] {
      assert (-parts[i]) * TotalWeight(weights) == -(parts[i] * TotalWeight(weights));
      assert (-totalCents) * Weight(weights[i]) == -(totalCents * Weight(weights[i]));
    }
    assert Magnitudes(a) == Magnitudes(b);
  }

  /** No other whole-cent split of the same total is closer to exact proportionality. */
  lemma {:induction false} AllocationIsOptimal(totalCents: int, weights: seq<int>, parts: seq<int>, rival: seq<int>)
    requires IsAllocation(totalCents, weights, parts) && 0 < TotalWeight(weights)
    requires |rival| == |weights| && Sum(rival) == totalCents
    ensures Deviation(totalCents, weights, parts) <= Deviation(totalCents, weights, rival)
  {
    if totalCents == 0 {
      var zeros := Magnitudes(Errors(0, weights, parts));
      SumConstant(zeros, 0);
      NonNegativeSum(Magnitudes(Errors(0, weights, rival)));
    } else if totalCents < 0 {
      SumNegated(rival);
      OptimalForMagnitude(-totalCents, weights, Negated(parts), Negated(rival));
      DeviationNegated(totalCents, weights, parts);
      DeviationNegated(totalCents, weights, rival);
    } else {
      OptimalForMagnitude(totalCents, weights, parts, rival);
    }
  }
}
