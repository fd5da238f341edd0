/**
 * The free AI allowance (src/modules/ai/aiQuota.service.ts, src/middleware/aiQuota.ts): reserve first,
 * give back on failure. Requests of any users interleave step by step, and the calendar month may
 * change between any two steps; `release` finds its document by the month it runs in.
 */
module AiQuota {
  import opened Wrappers

  const LIMIT := 5

  datatype Period = Period(year: int, month: int)

  /** The unique usage document of a user and month. */
  datatype Doc = Doc(user: string, period: Period)

  type Usage = map<Doc, int>

  function CountOf(rows: Usage, d: Doc): int {
    if d in rows then rows[d] else 0
  }

  /** findOneAndUpdate with upsert: one atomic increment. */
  function Incremented(rows: Usage, d: Doc): Usage {
    rows[d := CountOf(rows, d) + 1]
  }

  /** updateOne guarded by count > 0: floors at zero. */
  function Decremented(rows: Usage, d: Doc): Usage {
    if CountOf(rows, d) > 0 then rows[d := rows[d] - 1] else rows
  }

  function Remaining(used: int): nat {
    if LIMIT - used > 0 then LIMIT - used else 0
  }

  datatype Phase =
    | Waiting(user: string)
    | InFlight(doc: Doc)      // granted; the handler is running
    | OverLimit(doc: Doc)     // counted beyond the limit; about to be given back
    | Refused                 // given back, AI_QUOTA_EXCEEDED
    | Kept(doc: Doc)          // finished below 400
    | Failing(doc: Doc)       // finished at 400 or above; the release has not run yet
    | Returned
    | Forfeited(doc: Doc)     // the release itself failed

  /** `strays` records, by the document they hit, the releases that ran in another month than they reserved in. */
  datatype State = State(rows: Usage, period: Period, calls: seq<Phase>, strays: multiset<Doc>)

  datatype Step =
    | Arrive(user: string)
    | MonthChanges(period: Period)
    | Consume(i: nat)
    | GiveBack(i: nat)
    | Finish(i: nat, status: int)
    | Release(i: nat)
    | ReleaseFails(i: nat)

  function ReleaseNow(s: State, d: Doc): State {
    var hit := Doc(d.user, s.period);
    s.(rows := Decremented(s.rows, hit), strays := s.strays + if hit == d then multiset{} else multiset{hit})
  }

  function Apply(s: State, step: Step): State {
    match step
    case Arrive(user) => s.(calls := s.calls + [Waiting(user)])
    case MonthChanges(p) => s.(period := p)
    case Consume(i) =>
      if i < |s.calls| && s.calls[i].Waiting? then
        var d := Doc(s.calls[i].user, s.period);
        var rows := Incremented(s.rows, d);
        s.(rows := rows, calls := s.calls[i := if CountOf(rows, d) > LIMIT then OverLimit(d) else InFlight(d)])
      else s
    case GiveBack(i) =>
      if i < |s.calls| && s.calls[i].OverLimit? then ReleaseNow(s.(calls := s.calls[i := Refused]), s.calls[i].doc) else s
    case Finish(i, status) =>
      if i < |s.calls| && s.calls[i].InFlight?
      then s.(calls := s.calls[i := if status >= 400 then Failing(s.calls[i].doc) else Kept(s.calls[i].doc)])
      else s
    case Release(i) =>
      if i < |s.calls| && s.calls[i].Failing? then ReleaseNow(s.(calls := s.calls[i := Returned]), s.calls[i].doc) else s
    case ReleaseFails(i) =>
      if i < |s.calls| && (s.calls[i].Failing? || s.calls[i].OverLimit?)
      then s.(calls := s.calls[i := Forfeited(s.calls[i].doc)])
      else s
  }

  function Run(s: State, steps: seq<Step>): State
    decreases |steps|
  {
    if steps == [] then s else Run(Apply(s, steps[0]), steps[1..])
  }

  function Init(period: Period): State { State(map[], period, [], multiset{}) }

  // ---------------------------------------------------------------- counting calls

  /** Reserved against this document and not given back. */
  predicate Reserved(c: Phase, d: Doc) {
    (c.InFlight? || c.OverLimit? || c.Kept? || c.Failing? || c.Forfeited?) && c.doc == d
  }

  /** Let through to the handler under this document and not given back. */
  predicate Granted(c: Phase, d: Doc) {
    (c.InFlight? || c.Kept? || c.Failing?) && c.doc == d
  }

  function CountReserved(calls: seq<Phase>, d: Doc): nat {
    if calls == [] then 0 else (if Reserved(calls[0], d) then 1 else 0) + CountReserved(calls[1..], d)
  }

  function CountGranted(calls: seq<Phase>, d: Doc): nat {
    if calls == [] then 0 else (if Granted(calls[0], d) then 1 else 0) + CountGranted(calls[1..], d)
  }

  lemma CountsUpdate(calls: seq<Phase>, i: nat, c: Phase, d: Doc)
    requires i < |calls|
    ensures CountReserved(calls[i := c], d)
         == CountReserved(calls, d) - (if Reserved(calls[i], d) then 1 else 0) + (if Reserved(c, d) then 1 else 0)
    ensures CountGranted(calls[i := c], d)
         == CountGranted(calls, d) - (if Granted(calls[i], d) then 1 else 0) + (if Granted(c, d) then 1 else 0)
  {
    if i == 0 {
      assert calls[i := c][1..] == calls[1..];
    } else {
      assert calls[i := c][1..] == calls[1..][i - 1 := c];
      CountsUpdate(calls[1..], i - 1, c, d);
    }
  }

  lemma {:induction false} CountsAppend(calls: seq<Phase>, c: Phase, d: Doc)
    ensures CountReserved(calls + [c], d) == CountReserved(calls, d) + if Reserved(c, d) then 1 else 0
    ensures CountGranted(calls + [c], d) == CountGranted(calls, d) + if Granted(c, d) then 1 else 0
    ensures CountGranted(calls, d) <= CountReserved(calls, d)
  {
    if calls != [] {
      assert (calls + [c])[1..] == calls[1..] + [c];
      CountsAppend(calls[1..], c, d);
    }
  }

  // ---------------------------------------------------------------- what every interleaving keeps

  ghost predicate InvFor(s: State, d: Doc) {
    && 0 <= CountOf(s.rows, d)
    && CountReserved(s.calls, d) <= CountOf(s.rows, d) + s.strays[d]
    && CountGranted(s.calls, d) <= LIMIT + s.strays[d]
    && (NoStrayOf(s, d.user) ==> CountOf(s.rows, d) == CountReserved(s.calls, d))
  }

  /** Every release of this user's so far ran in the month of its reservation. */
  ghost predicate NoStrayOf(s: State, user: string) {
    forall x :: x in s.strays ==> x.user != user
  }

  lemma {:induction false} ReservedIsCounted(calls: seq<Phase>, i: nat, d: Doc)
    requires i < |calls| && Reserved(calls[i], d)
    ensures 0 < CountReserved(calls, d)
  {
    if i > 0 {
      ReservedIsCounted(calls[1..], i - 1, d);
    }
  }

  lemma StepKeeps(s: State, step: Step, d: Doc)
    requires InvFor(s, d)
    ensures InvFor(Apply(s, step), d)
  {
    match step
    case Arrive(user) => CountsAppend(s.calls, Waiting(user), d);
    case MonthChanges(_) =>
    case Consume(i) => if i < |s.calls| && s.calls[i].Waiting? { ConsumeKeeps(s, i, d); }
    case Finish(i, _) => if i < |s.calls| { PhaseChangeKeeps(s, step, i, d); }
    case ReleaseFails(i) => if i < |s.calls| { PhaseChangeKeeps(s, step, i, d); }
    case GiveBack(i) => if i < |s.calls| && s.calls[i].OverLimit? { ReleaseKeeps(s, i, Refused, d); }
    case Release(i) => if i < |s.calls| && s.calls[i].Failing? { ReleaseKeeps(s, i, Returned, d); }
  }

  /** A call that finishes, or whose release fails, keeps its reservation. */
  lemma PhaseChangeKeeps(s: State, step: Step, i: nat, d: Doc)
    requires InvFor(s, d) && i < |s.calls|
    requires (step.Finish? && step.i == i) || step == ReleaseFails(i)
    ensures InvFor(Apply(s, step), d)
  {
    CountsUpdate(s.calls, i, Apply(s, step).calls[i], d);
  }

  /** A granted call saw a count within the limit, and the count covers every reservation. */
  lemma ConsumeKeeps(s: State, i: nat, d: Doc)
    requires InvFor(s, d) && i < |s.calls| && s.calls[i].Waiting?
    ensures InvFor(Apply(s, Consume(i)), d)
  {
    var t := Apply(s, Consume(i));
    CountsUpdate(s.calls, i, t.calls[i], d);
    CountsAppend(t.calls, Refused, d);
  }

  lemma ReleaseKeeps(s: State, i: nat, c: Phase, d: Doc)
    requires InvFor(s, d) && i < |s.calls| && (s.calls[i].OverLimit? || s.calls[i].Failing?)
    requires c == Refused || c == Returned
    ensures InvFor(ReleaseNow(s.(calls := s.calls[i := c]), s.calls[i].doc), d)
  {
    CountsUpdate(s.calls, i, c, d);
    if s.calls[i].doc == d {
      ReservedIsCounted(s.calls, i, d);
    }
  }

  lemma {:induction false} RunKeeps(s: State, steps: seq<Step>, d: Doc)
    requires InvFor(s, d)
    ensures InvFor(Run(s, steps), d)
    decreases |steps|
  {
    if steps != [] {
      StepKeeps(s, steps[0], d);
      RunKeeps(Apply(s, steps[0]), steps[1..], d);
    }
  }

  // ---------------------------------------------------------------- main results

  /** Granted and kept calls of a user's month exceed the allowance by no more than the stray releases that hit it. */
  lemma {:induction false} GrantsAreBounded(period: Period, steps: seq<Step>, d: Doc)
    ensures var s := Run(Init(period), steps); CountGranted(s.calls, d) <= LIMIT + s.strays[d]
  {
    RunKeeps(Init(period), steps, d);
  }

  /** As long as every release of the user's runs in the month of its reservation, the limit holds and the counter is exact. */
  lemma {:induction false} SameMonthIsExact(period: Period, steps: seq<Step>, d: Doc)
    requires NoStrayOf(Run(Init(period), steps), d.user)
    ensures var s := Run(Init(period), steps);
      CountGranted(s.calls, d) <= LIMIT && CountOf(s.rows, d) == CountReserved(s.calls, d)
  {
    RunKeeps(Init(period), steps, d);
  }

  /** Then the count > 0 guard never swallows a release that is due. */
  lemma {:induction false} DueReleaseCounts(period: Period, steps: seq<Step>, i: nat)
    requires var s := Run(Init(period), steps);
      && i < |s.calls| && (s.calls[i].Failing? || s.calls[i].OverLimit?) && NoStrayOf(s, s.calls[i].doc.user)
      && s.calls[i].doc.period == s.period
    ensures var s := Run(Init(period), steps); var d := s.calls[i].doc;
      CountOf(Decremented(s.rows, d), d) == CountOf(s.rows, d) - 1
  {
    var s := Run(Init(period), steps);
    RunKeeps(Init(period), steps, s.calls[i].doc);
    ReservedIsCounted(s.calls, i, s.calls[i].doc);
  }

  /** Steps taken for one user leave every other user's documents alone. */
  lemma OtherUsersUntouched(s: State, step: Step, d: Doc)
    requires match step
      case Arrive(_) => true
      case MonthChanges(_) => true
      case Consume(i) => i < |s.calls| && s.calls[i].Waiting? && s.calls[i].user != d.user
      case GiveBack(i) => i < |s.calls| && s.calls[i].OverLimit? && s.calls[i].doc.user != d.user
      case Finish(_, _) => true
      case Release(i) => i < |s.calls| && s.calls[i].Failing? && s.calls[i].doc.user != d.user
      case ReleaseFails(_) => true
    ensures CountOf(Apply(s, step).rows, d) == CountOf(s.rows, d)
  {
  }

  /** A call is given back if and only if its response has status 400 or above; a kept one is never given back. */
  lemma FinishDecides(s: State, i: nat, status: int)
    requires i < |s.calls| && s.calls[i].InFlight? && s.calls[i].doc.period == s.period && 0 < CountOf(s.rows, s.calls[i].doc)
    ensures var d := s.calls[i].doc; var t := Apply(Apply(s, Finish(i, status)), Release(i));
      && CountOf(t.rows, d) == CountOf(s.rows, d) - (if status >= 400 then 1 else 0)
      && CountGranted(t.calls, d) == CountGranted(s.calls, d) - (if status >= 400 then 1 else 0)
      && t.strays == s.strays
  {
    var d, m := s.calls[i].doc, Apply(s, Finish(i, status));
    CountsUpdate(s.calls, i, m.calls[i], d);
    CountsUpdate(m.calls, i, Returned, d);
  }

  /** Losing a refund is not corrupting: the call stays counted, and no counter moves. */
  lemma FailedReleaseForfeits(s: State, i: nat)
    requires i < |s.calls| && (s.calls[i].Failing? || s.calls[i].OverLimit?)
    ensures var t := Apply(s, ReleaseFails(i));
      && t.rows == s.rows && t.calls[i] == Forfeited(s.calls[i].doc)
      && forall d :: CountReserved(t.calls, d) == CountReserved(s.calls, d)
  {
    forall d ensures CountReserved(Apply(s, ReleaseFails(i)).calls, d) == CountReserved(s.calls, d) {
      CountsUpdate(s.calls, i, Forfeited(s.calls[i].doc), d);
    }
  }

  lemma StaysInPlace(s: State, step: Step, i: nat)
    requires i < |s.calls| && (s.calls[i].Kept? || s.calls[i].Forfeited?)
    ensures i < |Apply(s, step).calls| && Apply(s, step).calls[i] == s.calls[i]
  {
  }

  lemma {:induction false} KeptForGood(s: State, steps: seq<Step>, i: nat)
    requires i < |s.calls| && (s.calls[i].Kept? || s.calls[i].Forfeited?)
    ensures i < |Run(s, steps).calls| && Run(s, steps).calls[i] == s.calls[i]
    decreases |steps|
  {
    if steps != [] {
      StaysInPlace(s, steps[0], i);
      KeptForGood(Apply(s, steps[0]), steps[1..], i);
    }
  }

  /** The allowance is five: of k calls of a new user within a month, the first five go through and no more. */
  lemma {:induction false} FiveGoThrough(period: Period, user: string, k: nat)
    ensures var t := Run(Init(period), CallsOf(user, 0, k));
      |t.calls| == k && forall i :: 0 <= i < k ==> (t.calls[i].InFlight? <==> i < 5)
  {
    RemainingCallsGoThrough(Init(period), user, k);
  }

  ghost predicate Exact(s: State) {
    forall d :: CountOf(s.rows, d) == CountReserved(s.calls, d)
  }

  /** Giving a reservation back, failed or refused, keeps the counters exact if and only if it runs in the month it reserved in. */
  lemma {:induction false} ReleaseIsExactIffSameMonth(s: State, step: Step, i: nat)
    requires Exact(s) && i < |s.calls|
    requires (step == Release(i) && s.calls[i].Failing?) || (step == GiveBack(i) && s.calls[i].OverLimit?)
    ensures Exact(Apply(s, step)) <==> s.calls[i].doc.period == s.period
  {
    var own, t := s.calls[i].doc, Apply(s, step);
    forall d ensures CountReserved(t.calls, d) == CountReserved(s.calls, d) - if d == own then 1 else 0 {
      CountsUpdate(s.calls, i, t.calls[i], d);
    }
    ReservedIsCounted(s.calls, i, own);
    if own.period != s.period {
      assert CountOf(t.rows, own) == CountOf(s.rows, own);
      assert CountReserved(t.calls, own) != CountOf(t.rows, own);
    }
  }

  const JANUARY := Period(2026, 1)
  const FEBRUARY := Period(2026, 2)

  /** A call reserved in January fails in February; k calls arrive and are let through in the meantime. */
  function Rush(k: nat): seq<Step> {
    if k == 0 then [Arrive("u"), Consume(0), Finish(0, 500), MonthChanges(FEBRUARY)]
    else Rush(k - 1) + [Arrive("u"), Consume(k)]
  }

  ghost predicate Rushed(s: State, k: nat) {
    && s.period == FEBRUARY && |s.calls| == k + 1 && s.calls[0] == Failing(Doc("u", JANUARY))
    && CountOf(s.rows, Doc("u", FEBRUARY)) == k == CountGranted(s.calls, Doc("u", FEBRUARY))
    && s.strays == multiset{}
  }

  lemma {:induction false} RunAppend(s: State, a: seq<Step>, b: seq<Step>)
    ensures Run(s, a + b) == Run(Run(s, a), b)
    decreases |a|
  {
    if a == [] {
      assert a + b == b;
    } else {
      assert (a + b)[1..] == a[1..] + b;
      RunAppend(Apply(s, a[0]), a[1..], b);
    }
  }

  lemma {:induction false} RunTwo(s: State, a: Step, b: Step)
    ensures Run(s, [a, b]) == Apply(Apply(s, a), b)
  {
    var t := Apply(s, a);
    assert [a, b][1..] == [b] && [b][1..] == [];
    assert Run(s, [a, b]) == Run(t, [b]) == Run(Apply(t, b), []);
  }

  /** One more call of the user in February. */
  lemma {:induction false} OneMoreCall(s: State, n: nat)
    requires s.period == FEBRUARY && |s.calls| == n && CountOf(s.rows, Doc("u", FEBRUARY)) < LIMIT
    ensures var t := Run(s, [Arrive("u"), Consume(n)]); var d := Doc("u", FEBRUARY);
      && t.period == FEBRUARY && t.calls == s.calls + [InFlight(d)] && t.strays == s.strays
      && CountOf(t.rows, d) == CountOf(s.rows, d) + 1 && CountGranted(t.calls, d) == CountGranted(s.calls, d) + 1
  {
    RunTwo(s, Arrive("u"), Consume(n));
    var waiting := Apply(s, Arrive("u"));
    assert waiting.calls[n] == Waiting("u");
    CountsAppend(s.calls, InFlight(Doc("u", FEBRUARY)), Doc("u", FEBRUARY));
  }

  lemma {:induction false} RushRun(k: nat)
    requires k <= LIMIT
    ensures Rushed(Run(Init(JANUARY), Rush(k)), k)
  {
    if k == 0 {
      var a, b := [Arrive("u"), Consume(0)], [Finish(0, 500), MonthChanges(FEBRUARY)];
      assert Rush(0) == a + b;
      RunAppend(Init(JANUARY), a, b);
      RunTwo(Init(JANUARY), a[0], a[1]);
      RunTwo(Run(Init(JANUARY), a), b[0], b[1]);
    } else {
      RushRun(k - 1);
      RunAppend(Init(JANUARY), Rush(k - 1), [Arrive("u"), Consume(k)]);
      OneMoreCall(Run(Init(JANUARY), Rush(k - 1)), k);
    }
  }

  /** Why the month matters: January's failure frees a place in February, and six calls go through. */
  lemma StrayReleaseMintsAllowance()
    ensures var s := Run(Init(JANUARY), Rush(LIMIT) + [Release(0), Arrive("u"), Consume(LIMIT + 1)]);
      CountGranted(s.calls, Doc("u", FEBRUARY)) == LIMIT + 1 && s.strays == multiset{Doc("u", FEBRUARY)}
  {
    var full, more := Run(Init(JANUARY), Rush(LIMIT)), [Arrive("u"), Consume(LIMIT + 1)];
    RushRun(LIMIT);
    StrayReleaseFreesAPlace(full);
    OneMoreCall(Apply(full, Release(0)), LIMIT + 1);
    RunAppend(Init(JANUARY), Rush(LIMIT), [Release(0)] + more);
    assert ([Release(0)] + more)[1..] == more;
    assert [Release(0)] + more == [Release(0), Arrive("u"), Consume(LIMIT + 1)];
  }

  lemma StrayReleaseFreesAPlace(s: State)
    requires Rushed(s, LIMIT)
    ensures var t := Apply(s, Release(0)); var d := Doc("u", FEBRUARY);
      && t.period == FEBRUARY && |t.calls| == LIMIT + 1 && t.strays == multiset{d}
      && CountOf(t.rows, d) == LIMIT - 1 && CountGranted(t.calls, d) == LIMIT
  {
    CountsUpdate(s.calls, 0, Returned, Doc("u", FEBRUARY));
  }

  /** k calls of a user, one after the other, when n have arrived before. */
  function CallsOf(user: string, n: nat, k: nat): seq<Step> {
    if k == 0 then [] else CallsOf(user, n, k - 1) + [Arrive(user), Consume(n + k - 1)]
  }

  /** The remaining allowance is exactly how many further calls of the month go through: those, and no more. */
  lemma {:induction false} RemainingCallsGoThrough(s: State, user: string, k: nat)
    ensures var d, n := Doc(user, s.period), |s.calls|; var t := Run(s, CallsOf(user, n, k));
      && t.period == s.period && |t.calls| == n + k && CountOf(t.rows, d) == CountOf(s.rows, d) + k
      && (forall i :: n <= i < n + k ==>
            t.calls[i] == if i - n < Remaining(CountOf(s.rows, d)) then InFlight(d) else OverLimit(d))
  {
    if k > 0 {
      var n, d, one := |s.calls|, Doc(user, s.period), [Arrive(user), Consume(|s.calls| + k - 1)];
      RemainingCallsGoThrough(s, user, k - 1);
      var m := Run(s, CallsOf(user, n, k - 1));
      RunAppend(s, CallsOf(user, n, k - 1), one);
      RunTwo(m, one[0], one[1]);
      assert Apply(m, one[0]).calls[n + k - 1] == Waiting(user);
    }
  }

  // ---------------------------------------------------------------- the service

  datatype Status = Status(used: int, remaining: nat, period: Period)

  class AiQuotaService {
    var rows: Usage

    constructor ()
      ensures rows == map[]
    {
      rows := map[];
    }

    /** What is left is what RemainingCallsGoThrough says it is worth: used and remaining make up the limit, or more was used. */
    method GetStatus(user: string, period: Period) returns (r: Status)
      ensures r.period == period && r.used == CountOf(rows, Doc(user, period))
      ensures r.used <= LIMIT ==> r.used + r.remaining == LIMIT
      ensures r.remaining == 0 <==> r.used >= LIMIT
    {
      var used := if Doc(user, period) in rows then rows[Doc(user, period)] else 0;
      r := Status(used, if LIMIT - used > 0 then LIMIT - used else 0, period);
    }

    /** `later` is the month when a refused reservation is given back. Err is AI_QUOTA_EXCEEDED. */
    method Consume(user: string, period: Period, later: Period, ghost s: State, ghost i: nat) returns (r: Result<Status, ()>)
      requires s.rows == rows && s.period == period && i < |s.calls| && s.calls[i] == Waiting(user)
      modifies this
      ensures var t := Apply(s, Step.Consume(i));
        if t.calls[i].OverLimit?
        then r.Err? && rows == Apply(t.(period := later), GiveBack(i)).rows
        else rows == t.rows && r == Ok(Status(CountOf(rows, Doc(user, period)), Remaining(CountOf(rows, Doc(user, period))), period))
    {
      var d := Doc(user, period);
      rows := rows[d := (if d in rows then rows[d] else 0) + 1];
      var used := rows[d];
      if used > LIMIT {
        Release(user, later);
        return Err(());
      }
      return Ok(Status(used, if LIMIT - used > 0 then LIMIT - used else 0, period));
    }

    method Release(user: string, period: Period)
      modifies this
      ensures rows == Decremented(old(rows), Doc(user, period))
    {
      var d := Doc(user, period);
      if d in rows && rows[d] > 0 {
        rows := rows[d := rows[d] - 1];
      }
    }
  }
}
