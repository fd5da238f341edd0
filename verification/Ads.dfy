/**
 * One paid placement over its whole life (src/modules/ads/ads.service.ts): payment, activation, serving,
 * batch billing, the sweeps, pause and resume. Every database access is one atomic step; webhooks,
 * feed requests and settlement sweeps race at every await between their read and their write.
 */
module Ads {
  import opened Wrappers
  import opened Sets
  import opened Sums

  const IMPRESSION_BATCH := 25
  const DAY_MS := 86_400_000
  const ABANDON_MS := 3_600_000
  const QUERY_LIMIT := 50

  datatype Status = PendingPayment | Active | Paused | Exhausted | Ended

  /**
   * The stored row, and what the proofs remember with its `spent`: the impressions it accounts for, in
   * how many settlements, and whether one of them was cut off by the budget.
   */
  datatype Placement = Placement(
    isAd: bool, intent: Option<string>, status: Status, budget: nat, spent: int, cpm: nat,
    createdAt: int, startsAt: int, endsAt: Option<int>, tierDays: Option<nat>, paidAt: Option<int>,
    impressions: nat, unbilled: nat,
    billed: nat, settlements: nat, clamped: bool)

  /** A row as create leaves it. */
  predicate IsNew(p: Placement) {
    && p.status == PendingPayment && p.spent == 0 && p.paidAt == None
    && p.impressions == 0 && p.unbilled == 0
    && p.billed == 0 && p.settlements == 0 && !p.clamped
  }

  // ---------------------------------------------------------------- single-document steps

  /** The end of the window bought, counted from activation for a flat tier. */
  function WindowEnd(p: Placement, now: int): Option<int> {
    if p.tierDays.Some? && p.tierDays.value != 0 then Some(now + p.tierDays.value * DAY_MS) else p.endsAt
  }

  /** findOneAndUpdate on { status: pending_payment }: a duplicate webhook finds nothing to update. */
  function Activated(p: Placement, at: int, endsAt: Option<int>): (Placement, bool) {
    if p.status.PendingPayment?
    then (p.(status := Active, paidAt := Some(at), startsAt := at, endsAt := endsAt), true)
    else (p, false)
  }

  /** The serving query, at time `now`. */
  predicate Servable(p: Placement, now: int) {
    && p.isAd && p.status.Active? && p.startsAt <= now
    && (p.endsAt.None? || p.endsAt.value >= now)
    && p.spent < p.budget
  }

  function Shown(p: Placement): Placement {
    p.(impressions := p.impressions + 1, unbilled := p.unbilled + 1)
  }

  function WithPaused(p: Placement, paused: bool): Placement {
    p.(status := if paused then Paused else Active)
  }

  function SweptEnd(p: Placement, now: int): Placement {
    if p.status.Active? && p.endsAt.Some? && p.endsAt.value <= now then p.(status := Ended) else p
  }

  function SweptAbandoned(p: Placement, now: int): Placement {
    if p.status.PendingPayment? && p.createdAt <= now - ABANDON_MS then p.(status := Ended) else p
  }

  predicate Due(p: Placement) {
    p.isAd && p.unbilled >= IMPRESSION_BATCH
  }

  /** Math.round of the batch's price in cents. */
  function Cost(unbilled: nat, cpm: nat): nat {
    DivNonNegative(unbilled * cpm + 500, 1000);
    (unbilled * cpm + 500) / 1000
  }

  /** The settlement's update, computed from the row it read and applied to the row as it now is. */
  function Settled(p: Placement, copy: Placement): Placement {
    var due := copy.spent + Cost(copy.unbilled, copy.cpm);
    var spent := if copy.budget < due then copy.budget else due;
    p.(spent := spent, unbilled := 0, status := if spent >= copy.budget then Exhausted else p.status,
       billed := copy.billed + copy.unbilled, settlements := copy.settlements + 1,
       clamped := copy.clamped || copy.budget < due)
  }

  // ---------------------------------------------------------------- interleavings

  datatype Activation = Activation(at: int, endsAt: Option<int>)

  datatype Served = Served(at: int, row: Placement)

  /**
   * Work between its read and its write is kept by worker number. `log` has the row and the time of
   * every serving read; `activations` counts the updates that went through; `resumedUnpaid` is set when
   * a row that was never activated is resumed.
   */
  datatype State = State(row: Placement, now: int,
                         activating: map<nat, Activation>, serving: nat, settling: map<nat, Placement>,
                         log: seq<Served>, activations: nat, resumedUnpaid: bool)

  datatype Step =
    | Wait(ms: nat)
    | OpenCharge(intent: string)
    | ReadForActivation(w: nat)
    | Activate(w: nat)
    | ReadForServing
    | CountImpression
    | SweepEnded
    | SweepAbandoned
    | ReadForSettlement(w: nat)
    | Settle(w: nat)
    | SetPaused(paused: bool)

  function Apply(s: State, step: Step): State {
    match step
    case Wait(ms) => s.(now := s.now + ms)
    case OpenCharge(intent) => s.(row := s.row.(intent := Some(intent)))
    case ReadForActivation(w) =>
      if s.row.intent.Some? && s.row.status.PendingPayment?
      then s.(activating := s.activating[w := Activation(s.now, WindowEnd(s.row, s.now))])
      else s
    case Activate(w) =>
      if w in s.activating then
        var (row, done) := Activated(s.row, s.activating[w].at, s.activating[w].endsAt);
        s.(row := row, activating := s.activating - {w}, activations := s.activations + if done then 1 else 0)
      else s
    case ReadForServing =>
      if Servable(s.row, s.now) then s.(serving := s.serving + 1, log := s.log + [Served(s.now, s.row)]) else s
    case CountImpression =>
      if s.serving > 0 then s.(row := Shown(s.row), serving := s.serving - 1) else s
    case SweepEnded => s.(row := SweptEnd(s.row, s.now))
    case SweepAbandoned => s.(row := SweptAbandoned(s.row, s.now))
    case ReadForSettlement(w) => if Due(s.row) then s.(settling := s.settling[w := s.row]) else s
    case Settle(w) =>
      if w in s.settling then s.(row := Settled(s.row, s.settling[w]), settling := s.settling - {w}) else s
    case SetPaused(paused) =>
      s.(row := WithPaused(s.row, paused), resumedUnpaid := s.resumedUnpaid || (!paused && s.row.paidAt.None?))
  }

  function Run(s: State, steps: seq<Step>): State
    decreases |steps|
  {
    if steps == [] then s else Run(Apply(s, steps[0]), steps[1..])
  }

  function Start(p: Placement, now: int): State { State(p, now, map[], 0, map[], [], 0, false) }

  // ---------------------------------------------------------------- what every interleaving keeps

  /** 500 thousandths of a cent a settlement, as long as the budget cut nothing off. */
  predicate WithinRounding(p: Placement) {
    p.clamped || -500 * p.settlements <= 1000 * p.spent - p.cpm * p.billed <= 500 * p.settlements
  }

  predicate SoundMoney(p: Placement, budget: nat, cpm: nat) {
    p.budget == budget && p.cpm == cpm && 0 <= p.spent <= budget && WithinRounding(p)
  }

  ghost predicate MoneyInv(s: State, budget: nat, cpm: nat) {
    && SoundMoney(s.row, budget, cpm)
    && s.row.billed + s.row.unbilled <= s.row.impressions
    && (forall w :: w in s.settling ==>
          && SoundMoney(s.settling[w], budget, cpm)
          && s.settling[w].billed + s.settling[w].unbilled <= s.row.impressions
          && 0 < s.settling[w].unbilled)
  }

  lemma RoundingOfOne(unbilled: nat, cpm: nat)
    ensures -500 < 1000 * Cost(unbilled, cpm) - unbilled * cpm <= 500
  {
  }

  /** A batch of 25 impressions is due. Settling it charges its price per thousand, rounded half up, as far as the budget goes. */
  lemma SettlementIs(p: Placement)
    requires 0 <= p.spent <= p.budget
    ensures Due(p) <==> p.isAd && p.unbilled >= 25
    ensures var q, charge := Settled(p, p), Charge(p);
      && q.spent == p.spent + charge && 0 <= charge
      && (if q.spent < p.budget then p.unbilled * p.cpm - 500 < 1000 * charge <= p.unbilled * p.cpm + 500
          else q.spent == p.budget && 1000 * charge <= p.unbilled * p.cpm + 500)
      && q.status == (if q.spent >= p.budget then Exhausted else p.status)
      && q.unbilled == 0 && q.impressions == p.impressions && q.budget == p.budget && q.paidAt == p.paidAt
      && q.billed == p.billed + p.unbilled && q.settlements == p.settlements + 1
      && (q.clamped <==> p.clamped || p.unbilled * p.cpm + 500 >= 1000 * (p.budget - p.spent + 1))
  {
    RoundingOfOne(p.unbilled, p.cpm);
  }

  lemma SettlementIsSound(p: Placement, copy: Placement, budget: nat, cpm: nat)
    requires SoundMoney(p, budget, cpm) && SoundMoney(copy, budget, cpm)
    ensures SoundMoney(Settled(p, copy), budget, cpm)
  {
    RoundingOfOne(copy.unbilled, cpm);
    assert cpm * (copy.billed + copy.unbilled) == cpm * copy.billed + copy.unbilled * cpm;
  }

  lemma StepKeepsMoney(s: State, step: Step, budget: nat, cpm: nat)
    requires MoneyInv(s, budget, cpm)
    ensures MoneyInv(Apply(s, step), budget, cpm)
  {
    if step.Settle? && step.w in s.settling {
      SettlementIsSound(s.row, s.settling[step.w], budget, cpm);
    }
  }

  predicate InService(s: State) {
    || s.row.status.Active? || s.row.status.Exhausted?
    || 0 < s.row.impressions || 0 < s.serving || s.settling != map[]
  }

  /** Activation happened if and only if it is recorded, and a placement never returns to waiting for payment. */
  ghost predicate LifeInv(s: State) {
    && s.activations <= 1
    && (s.activations == 1 <==> s.row.paidAt.Some?)
    && (s.row.paidAt.Some? ==> !s.row.status.PendingPayment? && s.row.paidAt.value <= s.now)
    && (forall w :: w in s.activating ==> s.activating[w].at <= s.now)
    && (forall i :: 0 <= i < |s.log| ==> Servable(s.log[i].row, s.log[i].at) && s.log[i].at <= s.now)
    && (!s.resumedUnpaid ==>
          && (InService(s) ==> s.row.paidAt.Some?)
          && (forall i :: 0 <= i < |s.log| ==> s.log[i].row.paidAt.Some? && s.log[i].row.paidAt.value <= s.log[i].at))
  }

  lemma StepKeepsLife(s: State, step: Step)
    requires LifeInv(s)
    requires s.row.unbilled <= s.row.impressions
    ensures LifeInv(Apply(s, step))
  {
  }

  lemma {:induction false} RunKeeps(s: State, steps: seq<Step>, budget: nat, cpm: nat)
    requires MoneyInv(s, budget, cpm) && LifeInv(s)
    ensures MoneyInv(Run(s, steps), budget, cpm) && LifeInv(Run(s, steps))
    decreases |steps|
  {
    if steps != [] {
      StepKeepsMoney(s, steps[0], budget, cpm);
      StepKeepsLife(s, steps[0]);
      RunKeeps(Apply(s, steps[0]), steps[1..], budget, cpm);
    }
  }

  // ---------------------------------------------------------------- main results

  /** Under any race of sweeps, webhooks and resumes the budget is never exceeded and never un-spent below zero. */
  lemma {:induction false} BudgetHolds(p: Placement, now: int, steps: seq<Step>)
    requires IsNew(p)
    ensures var row := Run(Start(p, now), steps).row; row.budget == p.budget && 0 <= row.spent <= p.budget
  {
    RunKeeps(Start(p, now), steps, p.budget, p.cpm);
  }

  /** What was charged is within half a cent a settlement of the price of the impressions billed, none of them invented. */
  lemma {:induction false} BillingIsRounded(p: Placement, now: int, steps: seq<Step>)
    requires IsNew(p)
    ensures var row := Run(Start(p, now), steps).row;
      && row.billed + row.unbilled <= row.impressions
      && (!row.clamped ==> -500 * row.settlements <= 1000 * row.spent - p.cpm * row.billed <= 500 * row.settlements)
  {
    RunKeeps(Start(p, now), steps, p.budget, p.cpm);
  }

  lemma StepStaysActivated(s: State, step: Step)
    requires !s.row.status.PendingPayment?
    ensures Apply(s, step).activations == s.activations && !Apply(s, step).row.status.PendingPayment?
  {
  }

  lemma {:induction false} StaysActivated(s: State, steps: seq<Step>)
    requires !s.row.status.PendingPayment?
    ensures Run(s, steps).activations == s.activations && !Run(s, steps).row.status.PendingPayment?
    decreases |steps|
  {
    if steps != [] {
      StepStaysActivated(s, steps[0]);
      StaysActivated(Apply(s, steps[0]), steps[1..]);
    }
  }

  /** However many webhooks race, a placement is activated at most once, and never after it left pending_payment. */
  lemma {:induction false} ActivatedAtMostOnce(p: Placement, now: int, before: seq<Step>, after: seq<Step>)
    requires IsNew(p)
    ensures var s := Run(Start(p, now), before);
      && s.activations <= 1
      && (!s.row.status.PendingPayment? ==> Run(s, after).activations == s.activations)
  {
    RunKeeps(Start(p, now), before, p.budget, p.cpm);
    if !Run(Start(p, now), before).row.status.PendingPayment? {
      StaysActivated(Run(Start(p, now), before), after);
    }
  }

  /** Worker w's activation is neither used nor replaced; anything else may happen. */
  predicate LeavesActivation(step: Step, w: nat) {
    (step.Activate? ==> step.w != w) && (step.ReadForActivation? ==> step.w != w)
  }

  lemma {:induction false} ActivationIsKept(s: State, steps: seq<Step>, w: nat)
    requires forall k :: 0 <= k < |steps| ==> LeavesActivation(steps[k], w)
    ensures w in Run(s, steps).activating <==> w in s.activating
    ensures w in s.activating ==> Run(s, steps).activating[w] == s.activating[w]
    decreases |steps|
  {
    if steps != [] {
      assert LeavesActivation(steps[0], w);
      ActivationIsKept(Apply(s, steps[0]), steps[1..], w);
    }
  }

  /**
   * A settled charge puts its placement on air if and only if the row waits for payment both when the
   * webhook reads it and when it writes. Otherwise the handler reports success and the row stays as it is.
   */
  lemma {:induction false} PaymentActivatesIff(s: State, w: nat, between: seq<Step>)
    requires s.row.intent.Some? && w !in s.activating
    requires forall k :: 0 <= k < |between| ==> LeavesActivation(between[k], w)
    ensures var t := Run(Apply(s, ReadForActivation(w)), between); var after := Apply(t, Activate(w));
      if s.row.status.PendingPayment? && t.row.status.PendingPayment?
      then after.activations == t.activations + 1
           && after.row == t.row.(status := Active, paidAt := Some(s.now), startsAt := s.now,
                                  endsAt := match s.row.tierDays
                                            case Some(days) => if days == 0 then s.row.endsAt else Some(s.now + days * 86_400_000)
                                            case None => s.row.endsAt)
      else after.row == t.row && after.activations == t.activations
  {
    ActivationIsKept(Apply(s, ReadForActivation(w)), between, w);
  }

  /** Payments that are lost: of a checkout an hour old once a sweep has passed, and of a placement paused before it was paid. */
  lemma {:induction false} LatePaymentIsLost(p: Placement, now: int)
    requires IsNew(p)
    ensures p.createdAt + ABANDON_MS <= now ==>
              var s := Run(Start(p, now), [OpenCharge("pi"), SweepAbandoned] + [ReadForActivation(0), Activate(0)]);
              s.activations == 0 && s.row.status.Ended? && s.row.paidAt == None
    ensures var s := Run(Start(p, now), [OpenCharge("pi"), SetPaused(true)] + [ReadForActivation(0), Activate(0)]);
              s.activations == 0 && s.row.status.Paused? && s.row.paidAt == None
  {
    var start, pay := Start(p, now), [ReadForActivation(0), Activate(0)];
    RunAppend(start, [OpenCharge("pi"), SweepAbandoned], pay);
    RunAppend(start, [OpenCharge("pi"), SetPaused(true)], pay);
    RunTwo(start, OpenCharge("pi"), SweepAbandoned);
    RunTwo(start, OpenCharge("pi"), SetPaused(true));
    RunTwo(Run(start, [OpenCharge("pi"), SweepAbandoned]), pay[0], pay[1]);
    RunTwo(Run(start, [OpenCharge("pi"), SetPaused(true)]), pay[0], pay[1]);
  }

  /** Everything served was an active ad, in its window and under budget, when it was read. */
  lemma {:induction false} ServedInWindowAndBudget(p: Placement, now: int, steps: seq<Step>, i: nat)
    requires IsNew(p) && i < |Run(Start(p, now), steps).log|
    ensures var at, row := Run(Start(p, now), steps).log[i].at, Run(Start(p, now), steps).log[i].row;
      && row.isAd && row.status.Active?
      && row.startsAt <= at && (row.endsAt.Some? ==> at <= row.endsAt.value)
      && row.spent < row.budget
  {
    RunKeeps(Start(p, now), steps, p.budget, p.cpm);
  }

  /** Once its window is over an ad is served no more, whether or not a sweep has been by; the next one ends it. */
  lemma {:induction false} WindowCloses(s: State, ms: nat)
    requires s.row.endsAt.Some? && s.row.endsAt.value < s.now + ms
    ensures Run(s, [Wait(ms), ReadForServing]).log == s.log
    ensures s.row.status.Active? ==> Run(s, [Wait(ms), SweepEnded]).row == s.row.(status := Ended)
  {
    RunTwo(s, Wait(ms), ReadForServing);
    RunTwo(s, Wait(ms), SweepEnded);
  }

  /** And every such ad is served when it is read, counting one impression to be billed. */
  lemma {:induction false} ReadOfAServableRow(s: State)
    requires s.row.isAd && s.row.status.Active? && s.row.startsAt <= s.now && s.row.spent < s.row.budget
    requires s.row.endsAt.Some? ==> s.now <= s.row.endsAt.value
    ensures var t := Run(s, [ReadForServing, CountImpression]);
      && t.log == s.log + [Served(s.now, s.row)]
      && t.row == s.row.(impressions := s.row.impressions + 1, unbilled := s.row.unbilled + 1)
  {
    RunTwo(s, ReadForServing, CountImpression);
  }

  /** On air without having been paid for. */
  predicate OnAirUnpaid(s: State) {
    s.row.status.Active? && s.row.paidAt.None?
  }

  /** Only resuming a row that was never activated puts it on air unpaid; pausing one does not. */
  lemma GoesOnAirUnpaidIff(s: State, step: Step)
    requires s.row.status.Active? ==> s.row.paidAt.Some?
    ensures Apply(s, step).row.status.Active? && Apply(s, step).row.paidAt.None? <==> step == SetPaused(false) && s.row.paidAt.None?
  {
  }

  ghost predicate EverOnAirUnpaid(s: State, steps: seq<Step>)
    decreases |steps|
  {
    OnAirUnpaid(s) || (steps != [] && EverOnAirUnpaid(Apply(s, steps[0]), steps[1..]))
  }

  /** Some step of the run resumes the row while it has not been activated. */
  ghost predicate ResumesUnpaid(s: State, steps: seq<Step>)
    decreases |steps|
  {
    steps != [] && ((steps[0] == SetPaused(false) && s.row.paidAt.None?) || ResumesUnpaid(Apply(s, steps[0]), steps[1..]))
  }

  /** Over a whole run, a row is on air unpaid at some time if and only if it is resumed before it is activated. */
  lemma {:induction false} EverOnAirUnpaidIff(s: State, steps: seq<Step>)
    requires s.row.status.Active? ==> s.row.paidAt.Some?
    ensures EverOnAirUnpaid(s, steps) <==> ResumesUnpaid(s, steps)
    decreases |steps|
  {
    if steps != [] {
      GoesOnAirUnpaidIff(s, steps[0]);
      if !OnAirUnpaid(Apply(s, steps[0])) {
        EverOnAirUnpaidIff(Apply(s, steps[0]), steps[1..]);
      }
    }
  }

  lemma {:induction false} ResumesUnpaidIsRecorded(s: State, steps: seq<Step>)
    ensures Run(s, steps).resumedUnpaid <==> s.resumedUnpaid || ResumesUnpaid(s, steps)
    decreases |steps|
  {
    if steps != [] {
      ResumesUnpaidIsRecorded(Apply(s, steps[0]), steps[1..]);
    }
  }

  /** Everything served was also paid for by then, unless an unpaid row was resumed. */
  lemma {:induction false} ServedWasPaidFor(p: Placement, now: int, steps: seq<Step>, i: nat)
    requires IsNew(p) && i < |Run(Start(p, now), steps).log| && !ResumesUnpaid(Start(p, now), steps)
    ensures var e := Run(Start(p, now), steps).log[i]; e.row.paidAt.Some? && e.row.paidAt.value <= e.at
  {
    RunKeeps(Start(p, now), steps, p.budget, p.cpm);
    ResumesUnpaidIsRecorded(Start(p, now), steps);
  }

  /** That exception is real: resuming an unpaid ad puts it on air. */
  lemma ResumeServesUnpaid(p: Placement, now: int)
    requires IsNew(p) && p.isAd && 0 < p.budget && p.startsAt <= now && p.endsAt == None
    ensures var s := Run(Start(p, now), [SetPaused(false), ReadForServing]);
      |s.log| == 1 && s.log[0].row.paidAt == None && s.activations == 0
  {
    var steps := [SetPaused(false), ReadForServing];
    RunFrom(Start(p, now), steps, 0);
    RunFrom(Apply(Start(p, now), steps[0]), steps, 1);
  }

  lemma {:induction false} RunFrom(s: State, steps: seq<Step>, k: nat)
    requires k < |steps|
    ensures Run(s, steps[k..]) == Run(Apply(s, steps[k]), steps[k + 1..])
    ensures k == 0 ==> steps[k..] == steps
    ensures k + 1 == |steps| ==> Run(s, steps[k..]) == Apply(s, steps[k])
  {
    assert steps[k..][1..] == steps[k + 1..];
  }

  /** Worker w's read of the row is neither used nor replaced; other workers may do anything. */
  predicate LeavesRead(step: Step, w: nat) {
    (step.Settle? ==> step.w != w) && (step.ReadForSettlement? ==> step.w != w)
  }

  lemma {:induction false} ReadIsKept(s: State, steps: seq<Step>, w: nat)
    requires w in s.settling && forall k :: 0 <= k < |steps| ==> LeavesRead(steps[k], w)
    ensures var t := Run(s, steps); w in t.settling && t.settling[w] == s.settling[w]
    decreases |steps|
  {
    if steps != [] {
      assert LeavesRead(steps[0], w);
      ReadIsKept(Apply(s, steps[0]), steps[1..], w);
    }
  }

  /** Impressions served, less those billed and those still to be billed. */
  function Dropped(p: Placement): int {
    p.impressions - p.billed - p.unbilled
  }

  /**
   * A settlement drops exactly the impressions counted between its read and its write: it resets the
   * counter to zero, not by the amount it bills. Nothing is lost if and only if none came in between.
   */
  lemma {:induction false} SettlementDropsWhatCameBetween(s: State, w: nat, between: seq<Step>)
    requires Due(s.row) && forall k :: 0 <= k < |between| ==> LeavesRead(between[k], w)
    ensures var t := Run(Apply(s, ReadForSettlement(w)), between);
      && Dropped(Apply(t, Settle(w)).row) == Dropped(s.row) + (t.row.impressions - s.row.impressions)
      && Apply(t, Settle(w)).row.impressions == t.row.impressions
  {
    ReadIsKept(Apply(s, ReadForSettlement(w)), between, w);
  }

  /** What settling a row from its own value charges. */
  function Charge(p: Placement): int {
    Settled(p, p).spent - p.spent
  }

  /**
   * A settlement writes what it computed from the row it read, whatever was charged since: charges made
   * in between are erased. So spending falls if and only if they came to more than its own batch.
   */
  lemma {:induction false} SettlementErasesChargesBetween(s: State, w: nat, between: seq<Step>)
    requires Due(s.row) && forall k :: 0 <= k < |between| ==> LeavesRead(between[k], w)
    ensures var t := Run(Apply(s, ReadForSettlement(w)), between); var after := Apply(t, Settle(w));
      && after.row.spent == s.row.spent + Charge(s.row)
      && (after.row.spent < t.row.spent <==> t.row.spent - s.row.spent > Charge(s.row))
  {
    ReadIsKept(Apply(s, ReadForSettlement(w)), between, w);
  }

  lemma OnlySettlementsCharge(s: State, step: Step)
    ensures !step.Settle? ==> Apply(s, step).row.spent == s.row.spent
  {
  }

  lemma {:induction false} SpentStands(s: State, steps: seq<Step>)
    requires forall k :: 0 <= k < |steps| ==> !steps[k].Settle?
    ensures Run(s, steps).row.spent == s.row.spent
    decreases |steps|
  {
    if steps != [] {
      assert !steps[0].Settle?;
      OnlySettlementsCharge(s, steps[0]);
      SpentStands(Apply(s, steps[0]), steps[1..]);
    }
  }

  /** With no other settlement written between its read and its write, a settlement never lowers what was spent. */
  lemma {:induction false} LoneSettlementKeepsCharges(p: Placement, now: int, before: seq<Step>, w: nat, between: seq<Step>)
    requires IsNew(p) && Due(Run(Start(p, now), before).row)
    requires forall k :: 0 <= k < |between| ==> LeavesRead(between[k], w) && !between[k].Settle?
    ensures var s := Run(Start(p, now), before); var t := Run(Apply(s, ReadForSettlement(w)), between);
      Apply(t, Settle(w)).row.spent >= t.row.spent == s.row.spent
  {
    var s := Run(Start(p, now), before);
    RunKeeps(Start(p, now), before, p.budget, p.cpm);
    SpentStands(Apply(s, ReadForSettlement(w)), between);
    SettlementErasesChargesBetween(s, w, between);
  }

  /** The ad shown n times, one after the other. */
  function Feed(n: nat): seq<Step> {
    if n == 0 then [] else Feed(n - 1) + [ReadForServing, CountImpression]
  }

  lemma {:induction false} RunAppend(s: State, a: seq<Step>, b: seq<Step>)
    ensures Run(s, a + b) == Run(Run(s, a), b)
    decreases |a|
  {
    if a == [] {
      assert a + b == b;
    } else {
      assert (a + b)[1..] == a[1..] + b;
      RunAppend(Apply(s, a[0]), a[1..], b);
    }
  }

  lemma {:induction false} FeedRun(s: State, n: nat)
    requires Servable(s.row, s.now) && s.serving == 0
    ensures var t := Run(s, Feed(n));
      && t.row == s.row.(impressions := s.row.impressions + n, unbilled := s.row.unbilled + n)
      && t.now == s.now && t.serving == 0 && t.settling == s.settling
  {
    if n > 0 {
      var m, one := Run(s, Feed(n - 1)), [ReadForServing, CountImpression];
      FeedRun(s, n - 1);
      RunAppend(s, Feed(n - 1), one);
      RunFrom(m, one, 0);
      RunFrom(Apply(m, ReadForServing), one, 1);
    }
  }

  /** An ad of 1000 cents at 1000 cents per thousand impressions. */
  function Sample(): Placement {
    Placement(true, None, PendingPayment, 1000, 0, 1000, 0, 0, None, None, None, 0, 0, 0, 0, false)
  }

  function PaidFor(): seq<Step> { [OpenCharge("pi"), ReadForActivation(0), Activate(0)] }

  /** A batch of n impressions, read and settled by worker 1. */
  function Batch(n: nat): seq<Step> { Feed(n) + [ReadForSettlement(1), Settle(1)] }

  /** Worker 0 reads the first batch before worker 1 settles it and a second one. */
  function StaleSweep(n: nat): seq<Step> {
    PaidFor() + (Feed(n) + TwoSweeps(n))
  }

  function TwoSweeps(n: nat): seq<Step> {
    [ReadForSettlement(0)] + ([ReadForSettlement(1), Settle(1)] + Batch(n))
  }

  /** The sample paid for and shown n times. */
  function ShownTimes(n: nat): Placement {
    Sample().(intent := Some("pi"), status := Active, paidAt := Some(1), startsAt := 1, impressions := n, unbilled := n)
  }

  /** After its first batch is settled. */
  function Once(n: nat): Placement {
    Settled(ShownTimes(n), ShownTimes(n))
  }

  /** Batches of any size that leave budget: the stale write takes spending back to what one batch costs. */
  lemma {:induction false} StaleSweepRun(n: nat)
    requires IMPRESSION_BATCH <= n && Once(n).spent < Sample().budget
    ensures var t := Run(Start(Sample(), 1), StaleSweep(n));
      && t.row.spent == Once(n).spent + Charge(Once(n).(unbilled := n))
      && Apply(t, Settle(0)).row.spent == Once(n).spent && Apply(t, Settle(0)).row.impressions == n + n
  {
    var start := Start(Sample(), 1);
    var paid := Run(start, PaidFor());
    PaidForRun();
    FeedRun(paid, n);
    RunAppend(start, PaidFor(), Feed(n) + TwoSweeps(n));
    RunAppend(paid, Feed(n), TwoSweeps(n));
    TwoSweepsRun(Run(paid, Feed(n)), n);
  }

  /** A concrete run in which spending falls: from 50 cents, for fifty impressions, back to 25. */
  lemma StaleSweepErasesCharge()
    ensures IsNew(Sample())
    ensures var t := Run(Start(Sample(), 1), StaleSweep(25));
      t.row.spent == 50 && Apply(t, Settle(0)).row.spent == 25 && Apply(t, Settle(0)).row.impressions == 50
  {
    OnceCosts();
    StaleSweepRun(25);
  }

  lemma OnceCosts()
    ensures Once(25).spent == 25 && Charge(Once(25).(unbilled := 25)) == 25
  {
  }

  /** Worker 1 charges its second batch on top of the first, while worker 0 still holds its copy. */
  lemma {:induction false} TwoSweepsRun(s: State, n: nat)
    requires IMPRESSION_BATCH <= n && Due(s.row)
    requires Servable(s.row, s.now) && s.serving == 0 && s.settling == map[]
    requires Settled(s.row, s.row).spent < s.row.budget
    ensures var t, once := Run(s, TwoSweeps(n)), Settled(s.row, s.row);
      && t.row.spent == once.spent + Charge(once.(unbilled := n))
      && t.row.impressions == s.row.impressions + n && t.settling == map[0 := s.row]
  {
    var settle := [ReadForSettlement(1), Settle(1)];
    var read := Apply(s, ReadForSettlement(0));
    RunAppend(s, [ReadForSettlement(0)], settle + Batch(n));
    RunFrom(s, [ReadForSettlement(0)], 0);
    RunAppend(read, settle, Batch(n));
    SettleRun(read);
    BatchRun(Run(read, settle), n);
  }

  lemma PaidForRun()
    ensures var t := Run(Start(Sample(), 1), PaidFor());
      && Servable(t.row, t.now) && t.serving == 0 && t.settling == map[]
      && t.row == Sample().(intent := Some("pi"), status := Active, paidAt := Some(1), startsAt := 1)
  {
    var steps := PaidFor();
    var s1 := Apply(Start(Sample(), 1), steps[0]);
    var s2 := Apply(s1, steps[1]);
    RunFrom(Start(Sample(), 1), steps, 0);
    RunFrom(s1, steps, 1);
    RunFrom(s2, steps, 2);
  }

  /** Worker 1 reads and settles a due row with nothing in between. */
  lemma {:induction false} SettleRun(s: State)
    requires Due(s.row)
    ensures var t := Run(s, [ReadForSettlement(1), Settle(1)]);
      t == s.(row := Settled(s.row, s.row), settling := s.settling - {1})
  {
    var steps := [ReadForSettlement(1), Settle(1)];
    RunFrom(s, steps, 0);
    RunFrom(Apply(s, steps[0]), steps, 1);
    assert s.settling[1 := s.row] - {1} == s.settling - {1};
  }

  lemma {:induction false} BatchRun(s: State, n: nat)
    requires Servable(s.row, s.now) && s.serving == 0 && s.row.unbilled == 0 && IMPRESSION_BATCH <= n
    ensures var t := Run(s, Batch(n));
      && t.row.spent == s.row.spent + Charge(s.row.(unbilled := n)) && t.row.impressions == s.row.impressions + n
      && t.settling == s.settling - {1}
  {
    FeedRun(s, n);
    RunAppend(s, Feed(n), [ReadForSettlement(1), Settle(1)]);
    SettleRun(Run(s, Feed(n)));
  }

  // ---------------------------------------------------------------- the auction

  /** Highest CPM first; ties by what is left of the budget. */
  predicate Outranks(a: Placement, b: Placement) {
    a.cpm > b.cpm || (a.cpm == b.cpm && a.budget - a.spent >= b.budget - b.spent)
  }

  predicate Distinct(ids: seq<nat>) {
    forall i, j :: 0 <= i < j < |ids| ==> ids[i] != ids[j]
  }

  predicate Ranked(rows: map<nat, Placement>, ids: seq<nat>) {
    && (forall id :: id in ids ==> id in rows)
    && (forall i, j :: 0 <= i < j < |ids| ==> Outranks(rows[ids[i]], rows[ids[j]]))
  }

  /** What the serving query matches, given the rows for this slot and city. */
  function ServableIds(rows: map<nat, Placement>, now: int, slot: set<nat>): set<nat> {
    set id | id in rows && id in slot && Servable(rows[id], now)
  }

  /** The rows passing the category and radius filter, in the order the query gave. */
  function Only(ids: seq<nat>, near: set<nat>): (r: seq<nat>)
    ensures forall id :: id in r <==> id in ids && id in near
    ensures |r| <= |ids| && (Distinct(ids) ==> Distinct(r))
  {
    if ids == [] then []
    else
      assert ids == [ids[0]] + ids[1..];
      (if ids[0] in near then [ids[0]] else []) + Only(ids[1..], near)
  }

  function Enter(rows: map<nat, Placement>, id: nat, ids: seq<nat>): (r: seq<nat>)
    requires id in rows && forall k :: k in ids ==> k in rows
    ensures |r| == |ids| + 1 && forall k :: k in r <==> k == id || k in ids
  {
    if ids == [] || Outranks(rows[id], rows[ids[0]]) then [id] + ids
    else
      assert ids == [ids[0]] + ids[1..];
      [ids[0]] + Enter(rows, id, ids[1..])
  }

  function SortByRank(rows: map<nat, Placement>, ids: seq<nat>): (r: seq<nat>)
    requires forall k :: k in ids ==> k in rows
    ensures |r| == |ids| && forall k :: k in r <==> k in ids
  {
    if ids == [] then []
    else
      assert ids == [ids[0]] + ids[1..];
      Enter(rows, ids[0], SortByRank(rows, ids[1..]))
  }

  lemma {:induction false} EnterRanks(rows: map<nat, Placement>, id: nat, ids: seq<nat>)
    requires id in rows && Ranked(rows, ids) && Distinct(ids) && id !in ids
    ensures Ranked(rows, Enter(rows, id, ids)) && Distinct(Enter(rows, id, ids))
  {
    if ids != [] {
      if Outranks(rows[id], rows[ids[0]]) {
        assert forall j :: 0 <= j < |ids| ==> Outranks(rows[id], rows[ids[j]]);
      } else {
        var rest := Enter(rows, id, ids[1..]);
        EnterRanks(rows, id, ids[1..]);
        forall j | 0 <= j < |rest| ensures Outranks(rows[ids[0]], rows[rest[j]]) && rest[j] != ids[0] {
          assert rest[j] == id || rest[j] in ids[1..];
        }
      }
    }
  }

  lemma {:induction false} SortRanks(rows: map<nat, Placement>, ids: seq<nat>)
    requires Distinct(ids) && forall k :: k in ids ==> k in rows
    ensures Ranked(rows, SortByRank(rows, ids)) && Distinct(SortByRank(rows, ids))
  {
    if ids != [] {
      SortRanks(rows, ids[1..]);
      assert ids[0] !in ids[1..];
      EnterRanks(rows, ids[0], SortByRank(rows, ids[1..]));
    }
  }

  /** The query fetched 50 of the servable rows, or all of fewer; `ranked` are those passing the filter, best first. */
  ghost predicate IsAuction(rows: map<nat, Placement>, now: int, slot: set<nat>, near: set<nat>, fetched: set<nat>, ranked: seq<nat>) {
    var servable := ServableIds(rows, now, slot);
    && fetched <= servable
    && |fetched| == (if |servable| < QUERY_LIMIT then |servable| else QUERY_LIMIT)
    && Ranked(rows, ranked) && Distinct(ranked)
    && (forall id :: id in ranked <==> id in fetched && id in near)
  }

  /** Spelled out: who can be ranked, that all who can are when the limit does not bite, and in what order. */
  lemma {:induction false} AuctionSpelledOut(rows: map<nat, Placement>, now: int, slot: set<nat>, near: set<nat>, fetched: set<nat>, ranked: seq<nat>)
    requires IsAuction(rows, now, slot, near, fetched, ranked)
    ensures forall id :: id in ranked ==>
              && id in rows && id in slot && id in near
              && rows[id].isAd && rows[id].status.Active? && rows[id].startsAt <= now
              && (rows[id].endsAt.Some? ==> now <= rows[id].endsAt.value) && rows[id].spent < rows[id].budget
    ensures |fetched| < 50 ==> forall id ::
              && id in rows && id in slot && id in near
              && rows[id].isAd && rows[id].status.Active? && rows[id].startsAt <= now
              && (rows[id].endsAt.Some? ==> now <= rows[id].endsAt.value) && rows[id].spent < rows[id].budget
              ==> id in ranked
    ensures forall i, j :: 0 <= i < j < |ranked| ==>
              || rows[ranked[i]].cpm > rows[ranked[j]].cpm
              || (rows[ranked[i]].cpm == rows[ranked[j]].cpm
                  && rows[ranked[i]].budget - rows[ranked[i]].spent >= rows[ranked[j]].budget - rows[ranked[j]].spent)
  {
    SubsetSize(fetched, ServableIds(rows, now, slot));
  }

  function Top(ranked: seq<nat>, n: nat): seq<nat> {
    if n < |ranked| then ranked[..n] else ranked
  }

  /** With at most 50 servable rows the auction is honest: no ad left out outranks one that was shown. */
  lemma {:induction false} AuctionIsHonest(rows: map<nat, Placement>, now: int, slot: set<nat>, near: set<nat>, fetched: set<nat>, ranked: seq<nat>, n: nat)
    requires IsAuction(rows, now, slot, near, fetched, ranked) && |ServableIds(rows, now, slot)| <= QUERY_LIMIT
    ensures forall c, u :: c in Top(ranked, n) && u in ServableIds(rows, now, slot) && u in near && u !in Top(ranked, n)
              ==> Outranks(rows[c], rows[u])
    ensures |Top(ranked, n)| == n || forall u :: u in ServableIds(rows, now, slot) && u in near ==> u in Top(ranked, n)
  {
    SubsetSize(fetched, ServableIds(rows, now, slot));
    forall c, u | c in Top(ranked, n) && u in ServableIds(rows, now, slot) && u in near && u !in Top(ranked, n)
      ensures Outranks(rows[c], rows[u])
    {
      var i :| 0 <= i < |Top(ranked, n)| && Top(ranked, n)[i] == c;
      assert u in ranked;
      var j :| 0 <= j < |ranked| && ranked[j] == u;
      assert j >= n;
    }
  }

  ghost predicate Eligible(rows: map<nat, Placement>, now: int, slot: set<nat>, near: set<nat>, id: nat) {
    id in ServableIds(rows, now, slot) && id in near
  }

  /** Whatever the query fetches and however many are shown, no eligible ad left out outranks one that is shown. */
  ghost predicate Honest(rows: map<nat, Placement>, now: int, slot: set<nat>, near: set<nat>) {
    forall fetched, ranked, n: nat, c, u ::
      (IsAuction(rows, now, slot, near, fetched, ranked)
       && c in Top(ranked, n) && u !in Top(ranked, n) && Eligible(rows, now, slot, near, u)) ==> Outranks(rows[c], rows[u])
  }

  /** k of the ids, `must` among them. */
  lemma {:induction false} Choose(ids: set<nat>, k: nat, must: nat) returns (chosen: seq<nat>)
    requires must in ids && 0 < k <= |ids|
    ensures Distinct(chosen) && |chosen| == k && must in chosen && forall id :: id in chosen ==> id in ids
    decreases k
  {
    if k == 1 {
      return [must];
    }
    var rest := ids - {must};
    assert |rest| == |ids| - 1;
    var other :| other in rest;
    chosen := Choose(ids - {other}, k - 1, must);
    chosen := chosen + [other];
  }

  /** A legal auction that fetches `shown` and not `hidden`, when more rows are servable than the query returns. */
  lemma AuctionWithout(rows: map<nat, Placement>, now: int, slot: set<nat>, near: set<nat>, shown: nat, hidden: nat)
    returns (fetched: set<nat>, ranked: seq<nat>)
    requires |ServableIds(rows, now, slot)| > QUERY_LIMIT && shown != hidden
    requires shown in ServableIds(rows, now, slot)
    ensures IsAuction(rows, now, slot, near, fetched, ranked) && hidden !in fetched && shown in fetched
    ensures hidden !in ranked && (shown in near ==> shown in ranked)
  {
    var servable := ServableIds(rows, now, slot);
    var others := servable - {hidden};
    assert servable <= others + {hidden};
    SubsetSize(servable, others + {hidden});
    var chosen := Choose(others, QUERY_LIMIT, shown);
    fetched := SetOf(chosen);
    DistinctSize(chosen);
    var passing := Only(chosen, near);
    SortRanks(rows, passing);
    ranked := SortByRank(rows, passing);
  }

  /**
   * With more than 50 servable rows, the query's unsorted limit may leave out an ad that pays strictly
   * more than every other: any other eligible ad can be shown without it.
   */
  lemma LimitMayHideTheBest(rows: map<nat, Placement>, now: int, slot: set<nat>, near: set<nat>, best: nat, other: nat, n: nat)
    returns (fetched: set<nat>, ranked: seq<nat>, c: nat)
    requires |ServableIds(rows, now, slot)| > QUERY_LIMIT && 0 < n && best != other
    requires Eligible(rows, now, slot, near, best) && Eligible(rows, now, slot, near, other)
    requires forall id :: id in ServableIds(rows, now, slot) && id != best ==> !Outranks(rows[id], rows[best])
    ensures IsAuction(rows, now, slot, near, fetched, ranked)
    ensures c in Top(ranked, n) && best !in Top(ranked, n) && c in rows && !Outranks(rows[c], rows[best])
  {
    fetched, ranked := AuctionWithout(rows, now, slot, near, other, best);
    c := ranked[0];
  }

  /** Every legal auction ranks every eligible ad if and only if the limit does not bite, or there is none. */
  lemma {:induction false} AllEligibleRankedIff(rows: map<nat, Placement>, now: int, slot: set<nat>, near: set<nat>)
    ensures (forall fetched, ranked, u :: IsAuction(rows, now, slot, near, fetched, ranked) && Eligible(rows, now, slot, near, u)
               ==> u in ranked)
       <==> |ServableIds(rows, now, slot)| <= QUERY_LIMIT || forall u :: !Eligible(rows, now, slot, near, u)
  {
    var servable := ServableIds(rows, now, slot);
    if |servable| <= QUERY_LIMIT {
      forall fetched, ranked, u | IsAuction(rows, now, slot, near, fetched, ranked) && Eligible(rows, now, slot, near, u)
        ensures u in ranked
      {
        SubsetSize(fetched, servable);
      }
    } else if u: nat :| Eligible(rows, now, slot, near, u) {
      var rest := servable - {u};
      assert |rest| == |servable| - 1;
      var shown :| shown in rest;
      var fetched, ranked := AuctionWithout(rows, now, slot, near, shown, u);
    }
  }

  /** The auction is honest for every number of ads shown if and only if at most 50 rows are servable or all eligible ads tie. */
  lemma {:induction false} HonestIff(rows: map<nat, Placement>, now: int, slot: set<nat>, near: set<nat>)
    ensures Honest(rows, now, slot, near)
       <==> |ServableIds(rows, now, slot)| <= 50
            || AllTie(rows, now, slot, near)
  {
    if |ServableIds(rows, now, slot)| <= QUERY_LIMIT {
      forall fetched, ranked, n: nat, c, u | IsAuction(rows, now, slot, near, fetched, ranked)
        && c in Top(ranked, n) && u !in Top(ranked, n) && Eligible(rows, now, slot, near, u)
        ensures Outranks(rows[c], rows[u])
      {
        AuctionIsHonest(rows, now, slot, near, fetched, ranked, n);
      }
    } else if c: nat, u: nat :| Eligible(rows, now, slot, near, c) && Eligible(rows, now, slot, near, u) && !Outranks(rows[c], rows[u]) {
      var fetched, ranked := AuctionWithout(rows, now, slot, near, c, u);
      assert Top(ranked, |ranked|) == ranked;
    }
  }

  /** The auction shows n ads: none left out, whatever was fetched, outranks one that is shown. */
  ghost predicate HonestAt(rows: map<nat, Placement>, now: int, slot: set<nat>, near: set<nat>, n: nat) {
    forall fetched, ranked, c, u ::
      (IsAuction(rows, now, slot, near, fetched, ranked)
       && c in Top(ranked, n) && u !in Top(ranked, n) && Eligible(rows, now, slot, near, u)) ==> Outranks(rows[c], rows[u])
  }

  /** An eligible ad that no eligible ad beats. */
  ghost predicate IsBest(rows: map<nat, Placement>, now: int, slot: set<nat>, near: set<nat>, id: nat) {
    && Eligible(rows, now, slot, near, id)
    && forall u :: Eligible(rows, now, slot, near, u) ==> Outranks(rows[id], rows[u])
  }

  ghost function Best(rows: map<nat, Placement>, now: int, slot: set<nat>, near: set<nat>): set<nat> {
    set id | id in ServableIds(rows, now, slot) && IsBest(rows, now, slot, near, id)
  }

  ghost predicate AllTie(rows: map<nat, Placement>, now: int, slot: set<nat>, near: set<nat>) {
    forall c, u :: Eligible(rows, now, slot, near, c) && Eligible(rows, now, slot, near, u) ==> Outranks(rows[c], rows[u])
  }

  lemma {:induction false} TopOf(rows: map<nat, Placement>, ids: set<nat>) returns (top: nat)
    requires ids != {} && ids <= rows.Keys
    ensures top in ids && forall id :: id in ids ==> Outranks(rows[top], rows[id])
    decreases |ids|
  {
    top :| top in ids;
    var rest := ids - {top};
    if rest != {} {
      var next := TopOf(rows, rest);
      assert forall id :: id in ids ==> id == top || id in rest;
      if !Outranks(rows[top], rows[next]) {
        top := next;
      }
    } else {
      assert forall id :: id in ids ==> id == top || id in rest;
    }
  }

  /** If at least n of the best are ranked, only best ones are among the first n. */
  lemma {:induction false} FirstAreBest(rows: map<nat, Placement>, now: int, slot: set<nat>, near: set<nat>, fetched: set<nat>, ranked: seq<nat>, n: nat, c: nat)
    requires IsAuction(rows, now, slot, near, fetched, ranked) && c in Top(ranked, n)
    requires n <= |Best(rows, now, slot, near) * fetched|
    ensures c in Best(rows, now, slot, near)
  {
    var best := Best(rows, now, slot, near);
    var i :| 0 <= i < |Top(ranked, n)| && Top(ranked, n)[i] == c;
    if c !in best {
      forall b | b in best * fetched ensures b in ranked[..i] {
        assert b in ranked;
        var j :| 0 <= j < |ranked| && ranked[j] == b;
        if j > i {
          BestIsClosed(rows, now, slot, near, c, b);
        }
        assert ranked[..i][j] == b;
      }
      DistinctSize(ranked[..i]);
      SubsetSize(best * fetched, SetOf(ranked[..i]));
    }
  }

  lemma BestIsClosed(rows: map<nat, Placement>, now: int, slot: set<nat>, near: set<nat>, c: nat, b: nat)
    requires Eligible(rows, now, slot, near, c) && IsBest(rows, now, slot, near, b) && Outranks(rows[c], rows[b])
    ensures IsBest(rows, now, slot, near, c)
  {
  }

  /** Enough tied best: however the query leaves rows out, n of them are fetched. */
  lemma {:induction false} EnoughBestIsHonest(rows: map<nat, Placement>, now: int, slot: set<nat>, near: set<nat>, n: nat)
    requires |ServableIds(rows, now, slot)| > QUERY_LIMIT
    requires |Best(rows, now, slot, near)| >= n + |ServableIds(rows, now, slot)| - QUERY_LIMIT
    ensures HonestAt(rows, now, slot, near, n)
  {
    var best, servable := Best(rows, now, slot, near), ServableIds(rows, now, slot);
    forall fetched, ranked, c, u | IsAuction(rows, now, slot, near, fetched, ranked)
      && c in Top(ranked, n) && u !in Top(ranked, n) && Eligible(rows, now, slot, near, u)
      ensures Outranks(rows[c], rows[u])
    {
      assert best * fetched + (servable - fetched) >= best;
      SubsetSize(best, best * fetched + (servable - fetched));
      assert |servable - fetched| == |servable| - |fetched|;
      FirstAreBest(rows, now, slot, near, fetched, ranked, n, c);
    }
  }

  /** Too few: 50 rows with an ad that is not best and as few best ones as possible, one of the best left out. */
  lemma FewBestFetched(servable: set<nat>, best: set<nat>, lesser: nat) returns (fetched: set<nat>, hidden: nat)
    requires best <= servable && |servable| > QUERY_LIMIT && lesser in servable - best && best != {}
    ensures fetched <= servable && |fetched| == QUERY_LIMIT && lesser in fetched
    ensures hidden in best - fetched
    ensures |best * fetched| <= if |best| > |servable| - QUERY_LIMIT then |best| - (|servable| - QUERY_LIMIT) else 0
  {
    var others := servable - best;
    assert |others| == |servable| - |best|;
    if |others| >= QUERY_LIMIT {
      var chosen := Choose(others, QUERY_LIMIT, lesser);
      fetched := SetOf(chosen);
      DistinctSize(chosen);
      assert best * fetched == {};
      hidden :| hidden in best;
    } else {
      var must :| must in best;
      var chosen := Choose(best, QUERY_LIMIT - |others|, must);
      DistinctSize(chosen);
      fetched := others + SetOf(chosen);
      assert best * fetched == SetOf(chosen);
      var left := best - SetOf(chosen);
      assert |left| == |best| - |SetOf(chosen)|;
      hidden :| hidden in left;
    }
  }

  /** A ranking of what was fetched. */
  lemma RankingOf(rows: map<nat, Placement>, now: int, slot: set<nat>, near: set<nat>, fetched: set<nat>, some: nat) returns (ranked: seq<nat>)
    requires fetched <= ServableIds(rows, now, slot) && some in fetched
    requires |fetched| == QUERY_LIMIT <= |ServableIds(rows, now, slot)|
    ensures IsAuction(rows, now, slot, near, fetched, ranked)
  {
    var listed := Choose(fetched, |fetched|, some);
    DistinctSize(listed);
    SubsetSize(SetOf(listed), fetched);
    var passing := Only(listed, near);
    SortRanks(rows, passing);
    ranked := SortByRank(rows, passing);
    forall id ensures id in ranked <==> id in fetched && id in near {
      assert id in SetOf(listed) <==> id in listed;
    }
  }

  /** With fewer of the best fetched than are shown, something else is shown. */
  lemma {:induction false} LesserIsShown(ranked: seq<nat>, n: nat, best: set<nat>, lesser: nat) returns (c: nat)
    requires Distinct(ranked) && lesser in ranked && lesser !in best && |best * SetOf(ranked)| < n
    ensures c in Top(ranked, n) && c !in best
  {
    var top := Top(ranked, n);
    if forall id :: id in top ==> id in best {
      DistinctSize(top);
      assert SetOf(top) <= best * SetOf(ranked);
      SubsetSize(SetOf(top), best * SetOf(ranked));
    }
    c :| c in top && c !in best;
  }

  lemma {:induction false} FewBestIsDishonest(rows: map<nat, Placement>, now: int, slot: set<nat>, near: set<nat>, n: nat)
    requires 0 < n && |ServableIds(rows, now, slot)| > QUERY_LIMIT && !AllTie(rows, now, slot, near)
    requires |Best(rows, now, slot, near)| < n + |ServableIds(rows, now, slot)| - QUERY_LIMIT
    ensures !HonestAt(rows, now, slot, near, n)
  {
    var servable, best := ServableIds(rows, now, slot), Best(rows, now, slot, near);
    var lesser: nat, over: nat :| Eligible(rows, now, slot, near, lesser) && Eligible(rows, now, slot, near, over)
                       && !Outranks(rows[lesser], rows[over]);
    var eligible := servable * near;
    assert lesser in eligible;
    var top := TopOf(rows, eligible);
    assert IsBest(rows, now, slot, near, top);
    assert top in best && lesser !in best;
    var fetched, hidden := FewBestFetched(servable, best, lesser);
    var ranked := RankingOf(rows, now, slot, near, fetched, lesser);
    SubsetSize(best * SetOf(ranked), best * fetched);
    var c := LesserIsShown(ranked, n, best, lesser);
    if Outranks(rows[c], rows[hidden]) {
      BestIsClosed(rows, now, slot, near, c, hidden);
    }
    assert hidden !in Top(ranked, n);
  }

  /**
   * One call's auction, for n ads shown, is honest if and only if at most 50 rows are servable, or all
   * eligible ads tie, or so many tie for best that n of them are fetched whichever rows are left out.
   */
  lemma HonestAtIff(rows: map<nat, Placement>, now: int, slot: set<nat>, near: set<nat>, n: nat)
    requires 0 < n
    ensures HonestAt(rows, now, slot, near, n)
       <==> || |ServableIds(rows, now, slot)| <= 50
            || AllTie(rows, now, slot, near)
            || |Best(rows, now, slot, near)| >= n + |ServableIds(rows, now, slot)| - 50
  {
    if |ServableIds(rows, now, slot)| <= QUERY_LIMIT || AllTie(rows, now, slot, near) {
      HonestIff(rows, now, slot, near);
      assert HonestAt(rows, now, slot, near, n);
    } else if |Best(rows, now, slot, near)| >= n + |ServableIds(rows, now, slot)| - QUERY_LIMIT {
      EnoughBestIsHonest(rows, now, slot, near, n);
    } else {
      FewBestIsDishonest(rows, now, slot, near, n);
    }
  }

  function SetOf(ids: seq<nat>): set<nat> {
    set id | id in ids
  }

  lemma {:induction false} DistinctSize(ids: seq<nat>)
    requires Distinct(ids)
    ensures |SetOf(ids)| == |ids|
  {
    if ids != [] {
      var last := |ids| - 1;
      assert ids == ids[..last] + [ids[last]];
      DistinctSize(ids[..last]);
      assert SetOf(ids) == SetOf(ids[..last]) + {ids[last]};
    }
  }

  // ---------------------------------------------------------------- the collection, one caller at a time

  /** What find().limit() returns of the matching rows: some of them, each once. */
  method PickSome(ids: set<nat>, limit: nat) returns (picked: seq<nat>)
    ensures Distinct(picked) && forall id :: id in picked ==> id in ids
    ensures |picked| == if |ids| < limit then |ids| else limit
    ensures |ids| <= limit ==> forall id :: id in ids ==> id in picked
  {
    var left := ids;
    picked := [];
    while left != {} && |picked| < limit
      invariant left <= ids && |picked| <= limit
      invariant |picked| + |left| == |ids|
      invariant forall id :: id in ids <==> id in picked || id in left
      invariant forall id :: id in picked ==> id !in left
      invariant Distinct(picked)
      decreases |left|
    {
      var id :| id in left;
      left := left - {id};
      picked := picked + [id];
    }
  }

  function AllEnded(rows: map<nat, Placement>, now: int): map<nat, Placement> {
    map id | id in rows :: SweptEnd(rows[id], now)
  }

  function AllAbandoned(rows: map<nat, Placement>, now: int): map<nat, Placement> {
    map id | id in rows :: SweptAbandoned(rows[id], now)
  }

  function Swept(rows: map<nat, Placement>, now: int): map<nat, Placement> {
    AllAbandoned(AllEnded(rows, now), now)
  }

  /** The rows that differ. */
  function Changed(before: map<nat, Placement>, after: map<nat, Placement>): (ids: set<nat>)
    ensures forall id :: id in ids <==> id in before && id in after && before[id] != after[id]
  {
    set id | id in before && id in after && before[id] != after[id]
  }

  function EndedIds(rows: map<nat, Placement>, now: int): set<nat> {
    set id | id in rows && SweptEnd(rows[id], now) != rows[id]
  }

  function AbandonedIds(rows: map<nat, Placement>, now: int): set<nat> {
    set id | id in rows && SweptAbandoned(rows[id], now) != rows[id]
  }

  /** The ads with a full batch to bill. */
  function DueIds(rows: map<nat, Placement>): (ids: set<nat>)
    ensures forall id :: id in ids <==> id in rows && rows[id].isAd && rows[id].unbilled >= 25
  {
    set id | id in rows && Due(rows[id])
  }

  function Exhausting(rows: map<nat, Placement>, ids: set<nat>): set<nat>
    requires ids <= rows.Keys
  {
    set id | id in ids && Settled(rows[id], rows[id]).spent >= rows[id].budget
  }

  /** Every row in `ids` settled from its own value, the others as they were. */
  function SettledIn(rows: map<nat, Placement>, ids: set<nat>): map<nat, Placement>
  {
    map id | id in rows :: if id in ids then Settled(rows[id], rows[id]) else rows[id]
  }

  datatype Sweep = Sweep(billed: nat, exhausted: nat, ended: nat, abandoned: nat)

  /** `after` is `before` with the two window sweeps applied and the rows `ids` - all that are due, up to 200 - settled. */
  ghost predicate IsSweep(before: map<nat, Placement>, now: int, ids: set<nat>, after: map<nat, Placement>, r: Sweep) {
    var swept := Swept(before, now);
    && ids <= DueIds(swept)
    && |ids| == (if |DueIds(swept)| < 200 then |DueIds(swept)| else 200)
    && after == SettledIn(swept, ids)
    && r == Sweep(|ids|, |Exhausting(swept, ids)|, |EndedIds(before, now)|, |AbandonedIds(before, now)|)
  }

  /** A flat tier buys whole days from activation; any other placement keeps its end. */
  function WindowBought(p: Placement, now: int): (endsAt: Option<int>)
    ensures p.tierDays.Some? && 0 < p.tierDays.value ==> endsAt == Some(now + p.tierDays.value * 86_400_000)
    ensures p.tierDays.None? || p.tierDays.value == 0 ==> endsAt == p.endsAt
  {
    WindowEnd(p, now)
  }

  class Placements {
    var rows: map<nat, Placement>

    constructor (rows: map<nat, Placement>)
      ensures this.rows == rows
    {
      this.rows := rows;
    }

    /** Afterwards no active row's window is over; exactly the rows this was true of have ended. */
    method UpdateEnded(now: int) returns (modified: nat)
      modifies this
      ensures rows.Keys == old(rows).Keys
      ensures forall id :: id in rows && rows[id].status.Active? && rows[id].endsAt.Some? ==> rows[id].endsAt.value > now
      ensures forall id :: id in rows ==>
                if old(rows)[id].status.Active? && old(rows)[id].endsAt.Some? && old(rows)[id].endsAt.value <= now
                then rows[id] == old(rows)[id].(status := Ended) else rows[id] == old(rows)[id]
      ensures modified == |Changed(old(rows), rows)|
    {
      var matches := EndedIds(rows, now);
      rows := map id | id in rows :: if id in matches then rows[id].(status := Ended) else rows[id];
      assert Changed(old(rows), rows) == matches;
      modified := |matches|;
    }

    /** Afterwards no unpaid row is an hour old; exactly the rows this was true of have ended. */
    method UpdateAbandoned(now: int) returns (modified: nat)
      modifies this
      ensures rows.Keys == old(rows).Keys
      ensures forall id :: id in rows && rows[id].status.PendingPayment? ==> now < rows[id].createdAt + 3_600_000
      ensures forall id :: id in rows ==>
                if old(rows)[id].status.PendingPayment? && old(rows)[id].createdAt + 3_600_000 <= now
                then rows[id] == old(rows)[id].(status := Ended) else rows[id] == old(rows)[id]
      ensures modified == |Changed(old(rows), rows)|
    {
      var matches := AbandonedIds(rows, now);
      rows := map id | id in rows :: if id in matches then rows[id].(status := Ended) else rows[id];
      assert Changed(old(rows), rows) == matches;
      modified := |matches|;
    }

    /**
     * The ads for one feed: the rows fetched, their ranking, and its first `maxAds`, whose impressions it counts.
     * `slot` are the rows for the placement and city asked for, `near` those passing the filter.
     */
    method Serve(now: int, slot: set<nat>, near: set<nat>, maxAds: nat) returns (chosen: seq<nat>, ghost fetched: set<nat>, ghost ranked: seq<nat>)
      modifies this
      ensures IsAuction(old(rows), now, slot, near, fetched, ranked) && chosen == Top(ranked, maxAds)
      ensures rows.Keys == old(rows).Keys
      ensures forall id :: id in rows ==>
                rows[id] == if id in chosen then old(rows)[id].(impressions := old(rows)[id].impressions + 1,
                                                                unbilled := old(rows)[id].unbilled + 1)
                            else old(rows)[id]
    {
      var found := PickSome(ServableIds(rows, now, slot), QUERY_LIMIT);
      var eligible := Only(found, near);
      var sorted := SortByRank(rows, eligible);
      DistinctSize(found);
      SortRanks(rows, eligible);
      fetched, ranked := SetOf(found), sorted;
      chosen := if maxAds < |sorted| then sorted[..maxAds] else sorted;
      rows := map id | id in rows :: if id in chosen then Shown(rows[id]) else rows[id];
    }

    /** Pause or resume; `found` is false for an unknown placement. */
    method Pause(id: nat, paused: bool) returns (found: bool)
      modifies this
      ensures found <==> id in old(rows)
      ensures rows == if found then old(rows)[id := old(rows)[id].(status := if paused then Paused else Active)] else old(rows)
    {
      if id !in rows {
        return false;
      }
      rows := rows[id := rows[id].(status := if paused then Paused else Active)];
      return true;
    }

    /** Up to `limit` of the rows that are due, each once. */
    method FindDue(limit: nat) returns (pending: seq<nat>)
      ensures Distinct(pending) && forall id :: id in pending ==> id in DueIds(rows)
      ensures |pending| == if |DueIds(rows)| < limit then |DueIds(rows)| else limit
    {
      pending := PickSome(DueIds(rows), limit);
    }

    /** The body of the settlement loop, for one due row. */
    method SettleOne(id: nat) returns (isExhausted: bool)
      requires id in rows
      modifies this
      ensures rows == old(rows)[id := Settled(old(rows)[id], old(rows)[id])]
      ensures isExhausted <==> rows[id].spent >= rows[id].budget
    {
      var p := rows[id];
      var cost := Cost(p.unbilled, p.cpm);
      var spent := if p.budget < p.spent + cost then p.budget else p.spent + cost;
      isExhausted := spent >= p.budget;
      rows := rows[id := p.(spent := spent, unbilled := 0, status := if isExhausted then Exhausted else p.status,
                            billed := p.billed + p.unbilled, settlements := p.settlements + 1,
                            clamped := p.clamped || p.budget < p.spent + cost)];
    }

    /** The settlement loop over the rows found due. */
    method BillPending(pending: seq<nat>) returns (billed: nat, exhausted: nat, ghost ids: set<nat>)
      requires Distinct(pending) && forall id :: id in pending ==> id in rows
      modifies this
      ensures ids <= old(rows).Keys && (forall id :: id in ids <==> id in pending) && |ids| == |pending|
      ensures rows == SettledIn(old(rows), ids)
      ensures billed == |ids| && exhausted == |Exhausting(old(rows), ids)|
    {
      billed, exhausted, ids := 0, 0, {};
      var k := 0;
      assert rows == SettledIn(old(rows), ids);
      while k < |pending|
        invariant 0 <= k <= |pending| && billed == k == |ids|
        invariant ids <= old(rows).Keys && forall id :: id in ids <==> id in pending[..k]
        invariant rows == SettledIn(old(rows), ids)
        invariant exhausted == |Exhausting(old(rows), ids)|
      {
        var id := pending[k];
        assert id in old(rows) && id !in ids;
        assert rows[id] == old(rows)[id];
        var isExhausted := SettleOne(id);
        OneMoreSettled(old(rows), ids, id);
        InPrefix(pending, k);
        ids := ids + {id};
        billed := billed + 1;
        if isExhausted {
          exhausted := exhausted + 1;
        }
        k := k + 1;
      }
    }

    /** One sweep with nobody else writing: the counts it reports, and what became of every row. */
    method SettleImpressions(now: int) returns (r: Sweep)
      modifies this
      ensures exists ids :: IsSweep(old(rows), now, ids, rows, r)
    {
      var ended := UpdateEnded(now);
      assert rows == AllEnded(old(rows), now);
      assert Changed(old(rows), rows) == EndedIds(old(rows), now);
      ghost var between := rows;
      var abandoned := UpdateAbandoned(now);
      assert rows == AllAbandoned(between, now);
      assert Changed(between, rows) == AbandonedIds(between, now);
      var pending := FindDue(200);
      var billed, exhausted, ids := BillPending(pending);
      SweptCounts(old(rows), now);
      r := Sweep(billed, exhausted, ended, abandoned);
      assert IsSweep(old(rows), now, ids, rows, r);
    }

    /** The webhook's handler, for whichever placement with the intent the query finds; `handled` is false if there is none. */
    method ActivateByPaymentIntent(intent: string, now: int) returns (handled: bool, ghost found: nat)
      modifies this
      ensures handled <==> exists id :: id in old(rows) && old(rows)[id].intent == Some(intent)
      ensures !handled ==> rows == old(rows)
      ensures handled ==>
                && found in old(rows) && old(rows)[found].intent == Some(intent)
                && (if old(rows)[found].status.PendingPayment?
                    then rows == old(rows)[found := old(rows)[found].(status := Active, paidAt := Some(now), startsAt := now,
                                                      endsAt := WindowBought(old(rows)[found], now))]
                    else rows == old(rows))
    {
      var matches := set id | id in rows && rows[id].intent == Some(intent);
      found := 0;
      if matches == {} {
        assert forall id :: id in rows ==> rows[id].intent != Some(intent) by {
          forall id | id in rows ensures rows[id].intent != Some(intent) { assert id !in matches; }
        }
        handled := false;
        return;
      }
      var id :| id in matches;
      var doc := rows[id];
      handled, found := true, id;
      if !doc.status.PendingPayment? {
        return;
      }
      var endsAt := if doc.tierDays.Some? && doc.tierDays.value != 0 then Some(now + doc.tierDays.value * DAY_MS) else doc.endsAt;
      rows := rows[id := doc.(status := Active, paidAt := Some(now), startsAt := now, endsAt := endsAt)];
    }
  }

  /** With no one else writing, the protocol's steps come to what the methods above do to the row. */
  lemma {:induction false} StepsAlone(s: State)
    ensures Run(s, [SweepEnded, SweepAbandoned]).row
         == if (s.row.status.Active? && s.row.endsAt.Some? && s.row.endsAt.value <= s.now)
               || (s.row.status.PendingPayment? && s.row.createdAt + 3_600_000 <= s.now)
            then s.row.(status := Ended) else s.row
    ensures Due(s.row) ==> Run(s, [ReadForSettlement(1), Settle(1)]).row == Settled(s.row, s.row)
    ensures Servable(s.row, s.now) ==> Run(s, [ReadForServing, CountImpression]).row == Shown(s.row)
  {
    RunTwo(s, SweepEnded, SweepAbandoned);
    RunTwo(s, ReadForServing, CountImpression);
    if Due(s.row) {
      SettleRun(s);
    }
  }

  lemma {:induction false} RunTwo(s: State, a: Step, b: Step)
    ensures Run(s, [a, b]) == Apply(Apply(s, a), b)
  {
    RunFrom(s, [a, b], 0);
    RunFrom(Apply(s, a), [a, b], 1);
  }

  lemma InPrefix(ids: seq<nat>, k: nat)
    requires k < |ids|
    ensures forall id :: id in ids[..k + 1] <==> id in ids[..k] || id == ids[k]
  {
    assert ids[..k + 1] == ids[..k] + [ids[k]];
  }

  lemma OneMoreSettled(rows: map<nat, Placement>, ids: set<nat>, id: nat)
    requires ids <= rows.Keys && id in rows && id !in ids
    ensures SettledIn(rows, ids)[id := Settled(rows[id], rows[id])] == SettledIn(rows, ids + {id})
    ensures |Exhausting(rows, ids + {id})|
         == |Exhausting(rows, ids)| + if Settled(rows[id], rows[id]).spent >= rows[id].budget then 1 else 0
  {
    var one := if Settled(rows[id], rows[id]).spent >= rows[id].budget then {id} else {};
    assert Exhausting(rows, ids + {id}) == Exhausting(rows, ids) + one;
  }

  /** Ending a row first does not change which rows the second sweep abandons. */
  lemma SweptCounts(rows: map<nat, Placement>, now: int)
    ensures AbandonedIds(AllEnded(rows, now), now) == AbandonedIds(rows, now)
  {
  }
}
