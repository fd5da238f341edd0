/**
 * The mailing-rate cache (src/modules/boost/mailingRate.ts): a memo per process over one shared
 * key/value store over the vendor. Calls in any number of processes interleave at every await. Each
 * cached rate carries, for the proofs only, when the vendor answered it and when it was stored.
 */
module MailingRate {
  import opened Wrappers
  import opened Kv

  const CACHE_KEY := "boost:mailing-rate"
  const TTL_SEC := 21_600
  const MISS_TTL_SEC := 300
  const TTL_MS := 21_600_000
  const MISS_TTL_MS := 300_000

  /**
   * A cached answer: the sentinel, and when the call began that found no rate, or a rate, and when the
   * vendor quoted it; and when the stored entry it was read from was written, None if it came straight
   * from the vendor.
   */
  datatype Cached = Miss(askedAt: int, writtenAt: Option<int>) | Known(cents: int, fetchedAt: int, writtenAt: Option<int>)

  datatype Memo = Memo(rate: Cached, expiresAt: int)

  /** A resolved rate: from the vendor, or the configured override when that is positive. */
  datatype Rate = Vendor(cents: int, fetchedAt: int, writtenAt: Option<int>) | Configured(cents: int)

  function ConfiguredFallback(configured: int): Option<Rate> {
    if configured > 0 then Some(Configured(configured)) else None
  }

  function Answer(rate: Cached, configured: int): Option<Rate> {
    match rate
    case Miss(_, _) => ConfiguredFallback(configured)
    case Known(cents, at, written) => Some(Vendor(cents, at, written))
  }

  /** fetchFromVendor: a failed request or a price of zero or less is no rate. */
  function Fetched(quote: Option<int>, now: int, startedAt: int): Cached {
    if quote.Some? && quote.value > 0 then Known(quote.value, now, None) else Miss(startedAt, None)
  }

  /** The entry a write at time `now` leaves. */
  function Written(rate: Cached, now: int): Cached {
    rate.(writtenAt := Some(now))
  }

  /** A stored value that is answered from: the sentinel or a positive rate; any other is read past. */
  predicate Usable(rate: Cached) {
    rate.Known? ==> rate.cents > 0
  }

  /** What a read of the store finds to answer with. */
  function Found(s: Store<Cached>, now: int): Option<Cached> {
    match Lookup(s, CACHE_KEY, now)
    case Some(rate) => if Usable(rate) then Some(rate) else None
    case None => None
  }

  function MemoFor(rate: Cached, startedAt: int): Memo {
    Memo(rate, startedAt + if rate.Miss? then MISS_TTL_MS else TTL_MS)
  }

  function TtlFor(rate: Cached): int {
    if rate.Miss? then MISS_TTL_SEC else TTL_SEC
  }

  datatype Phase =
    | AtStore                       // about to read the store
    | Hit(rate: Cached)             // the store answered; about to set the memo and return
    | AtVendor                      // waiting for the vendor
    | Quoted(rate: Cached)          // the vendor answered; about to set the memo
    | AtWrite(rate: Cached)         // memo set; the write to the store is under way
    | Resolved(result: Option<Rate>, from: Cached)   // `from` is what the answer was taken from

  datatype Call = Call(process: nat, startedAt: int, phase: Phase)

  datatype State = State(store: Store<Cached>, memos: map<nat, Memo>, calls: seq<Call>, now: int, configured: int)

  datatype Step =
    | Wait(ms: nat)
    | Begin(process: nat)
    | ReadStore(c: nat)
    | ReadFails(c: nat)
    | VendorAnswers(c: nat, quote: Option<int>)
    | Resume(c: nat)
    | WriteStore(c: nat)
    | WriteFails(c: nat)
    | ClearMemo(process: nat)
    | ClearStore

  function WithPhase(s: State, c: nat, p: Phase): State
    requires c < |s.calls|
  {
    s.(calls := s.calls[c := s.calls[c].(phase := p)])
  }

  function WithMemo(s: State, c: nat, rate: Cached): State
    requires c < |s.calls|
  {
    s.(memos := s.memos[s.calls[c].process := MemoFor(rate, s.calls[c].startedAt)])
  }

  function Apply(s: State, step: Step): State {
    match step
    case Wait(ms) => s.(now := s.now + ms)
    case Begin(p) =>
      if p in s.memos && s.memos[p].expiresAt > s.now
      then s.(calls := s.calls + [Call(p, s.now, Resolved(Answer(s.memos[p].rate, s.configured), s.memos[p].rate))])
      else s.(calls := s.calls + [Call(p, s.now, AtStore)])
    case ReadStore(c) =>
      if c < |s.calls| && s.calls[c].phase.AtStore? then
        var t := s.(store := Pruned(s.store, CACHE_KEY, s.now));
        match Found(s.store, s.now)
        case None => WithPhase(t, c, AtVendor)
        case Some(rate) => WithPhase(t, c, Hit(rate))
      else s
    case ReadFails(c) =>
      if c < |s.calls| && s.calls[c].phase.AtStore? then WithPhase(s, c, AtVendor) else s
    case VendorAnswers(c, quote) =>
      if c < |s.calls| && s.calls[c].phase.AtVendor? then WithPhase(s, c, Quoted(Fetched(quote, s.now, s.calls[c].startedAt))) else s
    case Resume(c) =>
      if c < |s.calls| && s.calls[c].phase.Hit? then
        WithPhase(WithMemo(s, c, s.calls[c].phase.rate), c, Resolved(Answer(s.calls[c].phase.rate, s.configured), s.calls[c].phase.rate))
      else if c < |s.calls| && s.calls[c].phase.Quoted? then
        WithPhase(WithMemo(s, c, s.calls[c].phase.rate), c, AtWrite(s.calls[c].phase.rate))
      else s
    case WriteStore(c) =>
      if c < |s.calls| && s.calls[c].phase.AtWrite? then
        var rate := s.calls[c].phase.rate;
        WithPhase(s.(store := Put(s.store, CACHE_KEY, Written(rate, s.now), Some(TtlFor(rate)), s.now)), c,
                  Resolved(Answer(rate, s.configured), rate))
      else s
    case WriteFails(c) =>
      if c < |s.calls| && s.calls[c].phase.AtWrite?
      then WithPhase(s, c, Resolved(Answer(s.calls[c].phase.rate, s.configured), s.calls[c].phase.rate))
      else s
    case ClearMemo(p) => s.(memos := s.memos - {p})
    case ClearStore => s.(store := Drop(s.store, CACHE_KEY))
  }

  function Run(s: State, steps: seq<Step>): State
    decreases |steps|
  {
    if steps == [] then s else Run(Apply(s, steps[0]), steps[1..])
  }

  function Init(configured: int): State { State(map[], map[], [], 1, configured) }

  lemma {:induction false} RunAppend(s: State, a: seq<Step>, b: seq<Step>)
    ensures Run(s, a + b) == Run(Run(s, a), b)
    decreases |a|
  {
    if a == [] {
      assert a + b == b;
    } else {
      assert (a + b)[1..] == a[1..] + b;
      RunAppend(Apply(s, a[0]), a[1..], b);
    }
  }

  lemma {:induction false} RunFrom(s: State, steps: seq<Step>, k: nat)
    requires k < |steps|
    ensures Run(s, steps[k..]) == Run(Apply(s, steps[k]), steps[k + 1..])
    ensures k == 0 ==> steps[k..] == steps
    ensures k + 1 == |steps| ==> Run(s, steps[k..]) == Apply(s, steps[k])
  {
    assert steps[k..][1..] == steps[k + 1..];
  }

  // ---------------------------------------------------------------- what every interleaving keeps

  /** When the vendor was asked, or quoted the rate. */
  function Since(rate: Cached): int {
    if rate.Known? then rate.fetchedAt else rate.askedAt
  }

  function LifeMs(rate: Cached): int {
    if rate.Known? then TTL_MS else MISS_TTL_MS
  }

  ghost predicate GoodRate(rate: Cached, now: int) {
    && (rate.Known? ==> rate.cents > 0) && Since(rate) <= now
    && (rate.writtenAt.Some? ==> Since(rate) <= rate.writtenAt.value <= now)
  }

  /** A stored answer knows when it was written, and lives one TTL from then. */
  ghost predicate GoodEntry(e: Entry<Cached>, now: int) {
    GoodRate(e.value, now) && e.expiresAt != 0 && e.value.writtenAt == Some(e.expiresAt - LifeMs(e.value))
  }

  /** When a cached answer stops being given at the latest, going by where it came from. */
  function LastShown(rate: Cached): int {
    if rate.writtenAt.Some? then rate.writtenAt.value + 2 * LifeMs(rate) else Since(rate) + LifeMs(rate)
  }

  /** A memo may have been filled from a stored answer in its last instant: hence twice the TTL. */
  ghost predicate GoodMemo(m: Memo, now: int) {
    GoodRate(m.rate, now) && m.expiresAt <= LastShown(m.rate)
  }

  ghost predicate GoodCall(c: Call, now: int, configured: int) {
    && 0 < c.startedAt <= now
    && (match c.phase
        case Hit(rate) => GoodRate(rate, now) && rate.writtenAt.Some? && c.startedAt <= rate.writtenAt.value + LifeMs(rate)
        case Quoted(rate) => GoodRate(rate, now) && rate.writtenAt.None? && c.startedAt <= Since(rate)
        case AtWrite(rate) => GoodRate(rate, now) && rate.writtenAt.None? && c.startedAt <= Since(rate)
        case Resolved(result, from) => GoodRate(from, now) && c.startedAt < LastShown(from) && result == Answer(from, configured)
        case _ => true)
  }

  ghost predicate Inv(s: State) {
    && 0 < s.now
    && (CACHE_KEY in s.store ==> GoodEntry(s.store[CACHE_KEY], s.now))
    && (forall p :: p in s.memos ==> GoodMemo(s.memos[p], s.now))
    && (forall c :: 0 <= c < |s.calls| ==> GoodCall(s.calls[c], s.now, s.configured))
  }

  lemma StepKeeps(s: State, step: Step)
    requires Inv(s)
    ensures Inv(Apply(s, step)) && Apply(s, step).configured == s.configured && s.now <= Apply(s, step).now
  {
    match step
    case Wait(_) =>
    case Begin(_) =>
    case ReadStore(c) => PhaseKeeps(s, step, c);
    case ReadFails(c) => PhaseKeeps(s, step, c);
    case VendorAnswers(c, _) => PhaseKeeps(s, step, c);
    case Resume(c) => ResumeKeeps(s, c);
    case WriteStore(c) => WriteStoreKeeps(s, c);
    case WriteFails(c) => PhaseKeeps(s, step, c);
    case ClearMemo(_) =>
    case ClearStore =>
  }

  lemma PhaseKeeps(s: State, step: Step, c: nat)
    requires Inv(s)
    requires step == ReadStore(c) || step == ReadFails(c) || (step.VendorAnswers? && step.c == c) || step == WriteFails(c)
    ensures Inv(Apply(s, step))
  {
    if c < |s.calls| {
      assert GoodCall(s.calls[c], s.now, s.configured);
    }
  }

  lemma ResumeKeeps(s: State, c: nat)
    requires Inv(s)
    ensures Inv(Apply(s, Resume(c)))
  {
    if c < |s.calls| {
      assert GoodCall(s.calls[c], s.now, s.configured);
    }
  }

  lemma WriteStoreKeeps(s: State, c: nat)
    requires Inv(s)
    ensures Inv(Apply(s, WriteStore(c)))
  {
    if c < |s.calls| {
      assert GoodCall(s.calls[c], s.now, s.configured);
    }
  }

  lemma {:induction false} RunKeeps(s: State, steps: seq<Step>)
    requires Inv(s)
    ensures Inv(Run(s, steps)) && Run(s, steps).configured == s.configured && s.now <= Run(s, steps).now
    decreases |steps|
  {
    if steps != [] {
      StepKeeps(s, steps[0]);
      RunKeeps(Apply(s, steps[0]), steps[1..]);
    }
  }

  // ---------------------------------------------------------------- how old a shown rate can be

  /**
   * A rate shown as the vendor's is positive. If it came by way of the store, the entry it was read from
   * was written less than twice the TTL before the call began: not one TTL, because a hit in the store
   * starts a process's memo afresh. If not, the vendor quoted it less than one TTL before.
   */
  lemma {:induction false} VendorRatesAreRecent(configured: int, steps: seq<Step>, c: nat)
    requires var s := Run(Init(configured), steps);
      c < |s.calls| && s.calls[c].phase.Resolved? && s.calls[c].phase.result.Some?
    ensures var s := Run(Init(configured), steps); var startedAt := s.calls[c].startedAt;
      match s.calls[c].phase.result.value
      case Vendor(cents, fetchedAt, Some(writtenAt)) =>
        cents > 0 && fetchedAt <= writtenAt && startedAt - writtenAt < 2 * 21_600_000
      case Vendor(cents, fetchedAt, None) => cents > 0 && startedAt - fetchedAt < 21_600_000
      case Configured(cents) => cents == configured > 0
  {
    RunKeeps(Init(configured), steps);
    var s := Run(Init(configured), steps);
    assert GoodCall(s.calls[c], s.now, s.configured);
  }

  /**
   * A call that shows no rate of the vendor's goes by a failure to get one: of its own, of its process
   * less than five minutes before, or one stored less than ten minutes before. It shows the configured
   * rate if that is positive, and nothing otherwise.
   */
  lemma {:induction false} MissesAreRecent(configured: int, steps: seq<Step>, c: nat)
    requires var s := Run(Init(configured), steps);
      c < |s.calls| && s.calls[c].phase.Resolved? && !(s.calls[c].phase.result.Some? && s.calls[c].phase.result.value.Vendor?)
    ensures var s := Run(Init(configured), steps); var call := s.calls[c];
      && call.phase.result == (if configured > 0 then Some(Configured(configured)) else None)
      && call.phase.from.Miss?
      && (match call.phase.from.writtenAt
          case None => call.startedAt - call.phase.from.askedAt < 300_000
          case Some(writtenAt) => call.phase.from.askedAt <= writtenAt && call.startedAt - writtenAt < 2 * 300_000)
  {
    RunKeeps(Init(configured), steps);
    var s := Run(Init(configured), steps);
    assert GoodCall(s.calls[c], s.now, s.configured);
  }

  /** The first call of process 0, up to where its rate is in the memo and on its way to the store. */
  function FirstCall(): seq<Step> { [Begin(0), ReadStore(0), VendorAnswers(0, Some(42)), Resume(0)] }

  function Fresh(): Cached { Known(42, 1, None) }

  function OnItsWay(): State {
    State(map[], map[0 := Memo(Fresh(), 21_600_001)], [Call(0, 1, AtWrite(Fresh()))], 1, 0)
  }

  lemma FirstCallRun()
    ensures Run(Init(0), FirstCall()) == OnItsWay()
  {
    var steps := FirstCall();
    var s1 := Apply(Init(0), steps[0]);
    assert s1 == Init(0).(calls := [Call(0, 1, AtStore)]);
    var s2 := Apply(s1, steps[1]);
    assert s2 == Init(0).(calls := [Call(0, 1, AtVendor)]);
    var s3 := Apply(s2, steps[2]);
    assert s3 == Init(0).(calls := [Call(0, 1, Quoted(Fresh()))]);
    var s4 := Apply(s3, steps[3]);
    assert s4 == OnItsWay();
    RunFrom(Init(0), steps, 0);
    RunFrom(s1, steps, 1);
    RunFrom(s2, steps, 2);
    RunFrom(s3, steps, 3);
  }

  /** Its rate need not be in the store at all: a second call shows it before the write lands, or after it failed. */
  lemma MemoOutrunsStore()
    ensures var s := Run(Init(0), FirstCall() + [Begin(0)]);
      s.store == map[] && |s.calls| == 2 && s.calls[1].phase == Resolved(Some(Vendor(42, 1, None)), Fresh())
    ensures var s := Run(Init(0), FirstCall() + [WriteFails(0), Begin(0)]);
      s.store == map[] && |s.calls| == 2 && s.calls[1].phase == Resolved(Some(Vendor(42, 1, None)), Fresh())
  {
    FirstCallRun();
    RunAppend(Init(0), FirstCall(), [Begin(0)]);
    RunAppend(Init(0), FirstCall(), [WriteFails(0), Begin(0)]);
    RunFrom(OnItsWay(), [Begin(0)], 0);
    RunFrom(OnItsWay(), [WriteFails(0), Begin(0)], 0);
    RunFrom(Apply(OnItsWay(), WriteFails(0)), [WriteFails(0), Begin(0)], 1);
  }

  function Warm(): State {
    State(map[CACHE_KEY := Entry(Known(42, 1, Some(1)), 21_600_001)], map[0 := Memo(Fresh(), 21_600_001)],
          [Call(0, 1, Resolved(Some(Vendor(42, 1, None)), Fresh()))], 1, 0)
  }

  function SecondProcess(): seq<Step> { [Wait(21_600_000), Begin(1), ReadStore(1), Resume(1), Wait(21_599_999), Begin(1)] }

  lemma FirstProcessWarmsStore()
    ensures Run(Init(0), FirstCall() + [WriteStore(0)]) == Warm()
  {
    FirstCallRun();
    RunAppend(Init(0), FirstCall(), [WriteStore(0)]);
    RunFrom(OnItsWay(), [WriteStore(0)], 0);
    assert Apply(OnItsWay(), WriteStore(0)) == Warm();
  }

  /** The bound is tight: a second process shows a rate one millisecond short of two TTLs after it was stored. */
  lemma TwiceTtlIsReached()
    ensures var s := Run(Run(Init(0), FirstCall() + [WriteStore(0)]), SecondProcess());
      && |s.calls| == 3 && s.calls[2].phase == Resolved(Some(Vendor(42, 1, Some(1))), Known(42, 1, Some(1)))
      && s.calls[2].startedAt - 1 == 2 * TTL_MS - 1
  {
    FirstProcessWarmsStore();
    var steps := SecondProcess();
    var first, stored := Call(0, 1, Resolved(Some(Vendor(42, 1, None)), Fresh())), Known(42, 1, Some(1));
    var s1 := Apply(Warm(), steps[0]);
    var s2 := Apply(s1, steps[1]);
    assert s2 == Warm().(now := 21_600_001, calls := [first, Call(1, 21_600_001, AtStore)]);
    var s3 := Apply(s2, steps[2]);
    assert s3.calls == [first, Call(1, 21_600_001, Hit(stored))];
    var s4 := Apply(s3, steps[3]);
    assert s4.calls == [first, Call(1, 21_600_001, Resolved(Some(Vendor(42, 1, Some(1))), Known(42, 1, Some(1))))];
    assert s4.memos[1] == Memo(stored, 43_200_001);
    var s5 := Apply(s4, steps[4]);
    var s6 := Apply(s5, steps[5]);
    RunFrom(Warm(), steps, 0);
    RunFrom(s1, steps, 1);
    RunFrom(s2, steps, 2);
    RunFrom(s3, steps, 3);
    RunFrom(s4, steps, 4);
    RunFrom(s5, steps, 5);
  }

  // ---------------------------------------------------------------- when an invalidation works

  predicate Older(rate: Cached, since: int) {
    rate.Known? && rate.fetchedAt < since
  }

  /** An old rate that this call can still put where a later call of process p finds it. */
  predicate Carries(c: Call, p: nat, since: int, now: int) {
    || (c.phase.AtWrite? && Older(c.phase.rate, since))
    || (c.phase.Quoted? && Older(c.phase.rate, since))
    || (c.phase.Hit? && Older(c.phase.rate, since) && c.process == p && c.startedAt + TTL_MS > now)
  }

  /** With the store cleared, this is all that can bring an old rate back to process p. */
  ghost predicate StillOut(s: State, p: nat, since: int) {
    || (p in s.memos && Older(s.memos[p].rate, since) && s.memos[p].expiresAt > s.now)
    || (exists c :: 0 <= c < |s.calls| && Carries(s.calls[c], p, since, s.now))
  }

  /** Every rate of the vendor's that a call of p begun after s shows in this run was quoted at `since` or later. */
  ghost predicate ShowsOnlyNew(s: State, steps: seq<Step>, p: nat, since: int) {
    forall c :: |s.calls| <= c < |Run(s, steps).calls| ==> NotOld(Run(s, steps).calls[c], p, since)
  }

  predicate NotOld(c: Call, p: nat, since: int) {
    match c.phase
    case Resolved(Some(Vendor(_, at, _)), _) => c.process == p ==> at >= since
    case _ => true
  }

  /** Nothing old is out, in the store, or with p's calls from number n on. */
  ghost predicate Clean(s: State, n: nat, p: nat, since: int) {
    && Inv(s) && since <= s.now && n <= |s.calls|
    && !StillOut(s, p, since)
    && (CACHE_KEY in s.store ==> !Older(s.store[CACHE_KEY].value, since))
    && (forall c :: n <= c < |s.calls| ==>
          NotOld(s.calls[c], p, since) && (s.calls[c].phase.Hit? ==> !Older(s.calls[c].phase.rate, since)))
  }

  lemma CleanStays(s: State, step: Step, n: nat, p: nat, since: int)
    requires Clean(s, n, p, since)
    ensures Clean(Apply(s, step), n, p, since)
  {
    StepKeeps(s, step);
    match step
    case Resume(c) => ResumeStaysClean(s, c, n, p, since);
    case WriteStore(c) => WriteStaysClean(s, c, n, p, since);
    case WriteFails(c) => WriteStaysClean(s, c, n, p, since);
    case ReadStore(c) => CallStaysClean(s, step, c, n, p, since);
    case ReadFails(c) => CallStaysClean(s, step, c, n, p, since);
    case VendorAnswers(c, _) => CallStaysClean(s, step, c, n, p, since);
    case Begin(q) =>
      var t := Apply(s, step);
      forall c | 0 <= c < |t.calls| ensures !Carries(t.calls[c], p, since, t.now) {
        assert c < |s.calls| ==> !Carries(s.calls[c], p, since, s.now);
      }
    case _ =>
      var t := Apply(s, step);
      forall c | 0 <= c < |t.calls| ensures !Carries(t.calls[c], p, since, t.now) {
        assert !Carries(s.calls[c], p, since, s.now);
      }
  }

  lemma CallStaysClean(s: State, step: Step, c: nat, n: nat, p: nat, since: int)
    requires Clean(s, n, p, since) && Inv(Apply(s, step))
    requires step == ReadStore(c) || step == ReadFails(c) || (step.VendorAnswers? && step.c == c)
    ensures Clean(Apply(s, step), n, p, since)
  {
    var t := Apply(s, step);
    forall k | 0 <= k < |t.calls| ensures !Carries(t.calls[k], p, since, t.now) {
      assert !Carries(s.calls[k], p, since, s.now);
    }
  }

  lemma ResumeStaysClean(s: State, c: nat, n: nat, p: nat, since: int)
    requires Clean(s, n, p, since) && Inv(Apply(s, Resume(c)))
    ensures Clean(Apply(s, Resume(c)), n, p, since)
  {
    var t := Apply(s, Resume(c));
    forall k | 0 <= k < |t.calls| ensures !Carries(t.calls[k], p, since, t.now) {
      assert !Carries(s.calls[k], p, since, s.now);
    }
    if c < |s.calls| {
      assert !Carries(s.calls[c], p, since, s.now);
    }
  }

  lemma WriteStaysClean(s: State, c: nat, n: nat, p: nat, since: int)
    requires Clean(s, n, p, since) && Inv(Apply(s, WriteStore(c))) && Inv(Apply(s, WriteFails(c)))
    ensures Clean(Apply(s, WriteStore(c)), n, p, since) && Clean(Apply(s, WriteFails(c)), n, p, since)
  {
    var t, u := Apply(s, WriteStore(c)), Apply(s, WriteFails(c));
    forall k | 0 <= k < |s.calls|
      ensures !Carries(t.calls[k], p, since, t.now) && !Carries(u.calls[k], p, since, u.now)
    {
      assert !Carries(s.calls[k], p, since, s.now);
    }
    if c < |s.calls| {
      assert !Carries(s.calls[c], p, since, s.now);
    }
  }

  lemma {:induction false} CleanRun(s: State, steps: seq<Step>, n: nat, p: nat, since: int)
    requires Clean(s, n, p, since)
    ensures Clean(Run(s, steps), n, p, since)
    decreases |steps|
  {
    if steps != [] {
      CleanStays(s, steps[0], n, p, since);
      CleanRun(Apply(s, steps[0]), steps[1..], n, p, since);
    }
  }

  lemma {:induction false} OldMemoShows(s: State, p: nat, since: int)
    requires p in s.memos && Older(s.memos[p].rate, since) && s.memos[p].expiresAt > s.now
    ensures !ShowsOnlyNew(s, [Begin(p)], p, since)
  {
    RunFrom(s, [Begin(p)], 0);
    assert !NotOld(Run(s, [Begin(p)]).calls[|s.calls|], p, since);
  }

  /** With its memo run out, p's next call shows what the store holds. */
  lemma {:induction false} StoredRateShows(s: State, p: nat)
    requires Inv(s) && IsLive(s.store, CACHE_KEY, s.now) && s.store[CACHE_KEY].value.Known?
    requires !(p in s.memos && s.memos[p].expiresAt > s.now)
    ensures var n := |s.calls|; var t := Run(s, [Begin(p), ReadStore(n), Resume(n)]);
      |t.calls| == n + 1 && t.calls[n] == Call(p, s.now, Resolved(Answer(s.store[CACHE_KEY].value, s.configured), s.store[CACHE_KEY].value))
  {
    var n := |s.calls|;
    var steps := [Begin(p), ReadStore(n), Resume(n)];
    var s1 := Apply(s, steps[0]);
    assert s1.calls[n] == Call(p, s.now, AtStore);
    var s2 := Apply(s1, steps[1]);
    assert s2.calls[n].phase == Hit(s.store[CACHE_KEY].value);
    RunFrom(s, steps, 0);
    RunFrom(s1, steps, 1);
    RunFrom(s2, steps, 2);
  }

  /** An old rate about to be written shows once p's memo has run out and the write has landed. */
  lemma {:induction false} OldWriteShows(s: State, c: nat, p: nat, since: int) returns (steps: seq<Step>)
    requires Inv(s) && c < |s.calls| && s.calls[c].phase.AtWrite? && Older(s.calls[c].phase.rate, since)
    ensures !ShowsOnlyNew(s, steps, p, since)
  {
    var n, d := |s.calls|, if p in s.memos && s.memos[p].expiresAt > s.now then s.memos[p].expiresAt - s.now else 0;
    var landing, call := [Wait(d), WriteStore(c)], [Begin(p), ReadStore(n), Resume(n)];
    var waited := Apply(s, Wait(d));
    var landed := Apply(waited, WriteStore(c));
    RunFrom(s, landing, 0);
    RunFrom(waited, landing, 1);
    StepKeeps(s, Wait(d));
    StepKeeps(waited, WriteStore(c));
    StoredRateShows(landed, p);
    steps := landing + call;
    RunAppend(s, landing, call);
    assert !NotOld(Run(s, steps).calls[n], p, since);
  }

  lemma {:induction false} ShowsAfterResume(s: State, c: nat, steps: seq<Step>, p: nat, since: int)
    requires !ShowsOnlyNew(Apply(s, Resume(c)), steps, p, since)
    ensures !ShowsOnlyNew(s, [Resume(c)] + steps, p, since)
  {
    var m := Apply(s, Resume(c));
    assert ([Resume(c)] + steps)[1..] == steps;
    var k :| |m.calls| <= k < |Run(m, steps).calls| && !NotOld(Run(m, steps).calls[k], p, since);
    assert Run(s, [Resume(c)] + steps).calls[k] == Run(m, steps).calls[k];
  }

  lemma OldRateComesBack(s: State, p: nat, since: int) returns (steps: seq<Step>)
    requires Inv(s) && StillOut(s, p, since)
    ensures !ShowsOnlyNew(s, steps, p, since)
  {
    if p in s.memos && Older(s.memos[p].rate, since) && s.memos[p].expiresAt > s.now {
      OldMemoShows(s, p, since);
      return [Begin(p)];
    }
    var c: nat :| c < |s.calls| && Carries(s.calls[c], p, since, s.now);
    var m := Apply(s, Resume(c));
    if s.calls[c].phase.AtWrite? {
      steps := OldWriteShows(s, c, p, since);
    } else if s.calls[c].phase.Quoted? {
      StepKeeps(s, Resume(c));
      steps := OldWriteShows(m, c, p, since);
      ShowsAfterResume(s, c, steps, p, since);
      steps := [Resume(c)] + steps;
    } else {
      OldMemoShows(m, p, since);
      ShowsAfterResume(s, c, [Begin(p)], p, since);
      steps := [Resume(c)] + [Begin(p)];
    }
  }

  /**
   * Once an invalidation has cleared the store, process p is rid of every rate quoted before `since`, in
   * every continuation, if and only if none is still out: in its memo (refilled between the two clears),
   * or with a call of any process that is on its way to store it, or of its own about to keep it.
   */
  lemma {:induction false} InvalidationWorksIff(s: State, p: nat, since: int)
    requires Inv(s) && CACHE_KEY !in s.store && since <= s.now
    ensures (forall steps :: ShowsOnlyNew(s, steps, p, since)) <==> !StillOut(s, p, since)
  {
    if StillOut(s, p, since) {
      var steps := OldRateComesBack(s, p, since);
    } else {
      forall steps ensures ShowsOnlyNew(s, steps, p, since) {
        CleanRun(s, steps, |s.calls|, p, since);
      }
    }
  }

  function Invalidation(): seq<Step> { [Wait(1), ClearMemo(0), ClearStore, WriteStore(0)] }

  /** A concrete run that loses: the first call's price lands after the clears, and the next call shows it. */
  lemma InvalidateLosesToCallInFlight()
    ensures var s := Run(Init(0), FirstCall() + Invalidation() + [Begin(0), ReadStore(1), Resume(1)]);
      |s.calls| == 2 && s.calls[1] == Call(0, 2, Resolved(Some(Vendor(42, 1, Some(2))), Known(42, 1, Some(2))))
  {
    InvalidationRun();
    RunKeeps(Init(0), FirstCall() + Invalidation());
    StoredRateShows(WrittenBack(), 0);
    RunAppend(Init(0), FirstCall() + Invalidation(), [Begin(0), ReadStore(1), Resume(1)]);
  }

  function WrittenBack(): State {
    State(map[CACHE_KEY := Entry(Known(42, 1, Some(2)), 21_600_002)], map[],
          [Call(0, 1, Resolved(Some(Vendor(42, 1, None)), Fresh()))], 2, 0)
  }

  lemma InvalidationRun()
    ensures Run(Init(0), FirstCall() + Invalidation()) == WrittenBack()
  {
    var steps := Invalidation();
    FirstCallRun();
    RunAppend(Init(0), FirstCall(), steps);
    var s1 := Apply(OnItsWay(), steps[0]);
    var s2 := Apply(s1, steps[1]);
    var s3 := Apply(s2, steps[2]);
    assert s3 == State(map[], map[], [Call(0, 1, AtWrite(Fresh()))], 2, 0);
    assert Apply(s3, steps[3]) == WrittenBack();
    RunFrom(OnItsWay(), steps, 0);
    RunFrom(s1, steps, 1);
    RunFrom(s2, steps, 2);
    RunFrom(s3, steps, 3);
  }

  // ---------------------------------------------------------------- one process, one call at a time

  function MemoOf(s: State, p: nat): Option<Memo> {
    if p in s.memos then Some(s.memos[p]) else None
  }

  predicate Warmed(s: State, p: nat) {
    p in s.memos && s.memos[p].expiresAt > s.now
  }

  /** A call of p with nothing in between; steps that its path does not take change nothing. */
  function Alone(s: State, p: nat, quote: Option<int>): State {
    var n := |s.calls|;
    Run(s, [Begin(p), ReadStore(n), VendorAnswers(n, quote), Resume(n), WriteStore(n)])
  }

  function AloneByHand(s: State, p: nat, quote: Option<int>): State {
    var n := |s.calls|;
    Apply(Apply(Apply(Apply(Apply(s, Begin(p)), ReadStore(n)), VendorAnswers(n, quote)), Resume(n)), WriteStore(n))
  }

  lemma AloneIsByHand(s: State, p: nat, quote: Option<int>)
    ensures Alone(s, p, quote) == AloneByHand(s, p, quote)
  {
    var n := |s.calls|;
    var steps := [Begin(p), ReadStore(n), VendorAnswers(n, quote), Resume(n), WriteStore(n)];
    var s1 := Apply(s, steps[0]);
    var s2 := Apply(s1, steps[1]);
    var s3 := Apply(s2, steps[2]);
    var s4 := Apply(s3, steps[3]);
    RunFrom(s, steps, 0);
    RunFrom(s1, steps, 1);
    RunFrom(s2, steps, 2);
    RunFrom(s3, steps, 3);
    RunFrom(s4, steps, 4);
  }

  /** The source's order: memo, store, vendor; and what each path leaves behind. */
  lemma AloneTakesTheFirstThatKnows(s: State, p: nat, quote: Option<int>)
    ensures var t, n := Alone(s, p, quote), |s.calls|;
      && |t.calls| == n + 1 && t.now == s.now && t.configured == s.configured
      && (Warmed(s, p) ==>
            t.calls[n].phase == Resolved(Answer(s.memos[p].rate, s.configured), s.memos[p].rate)
            && t.store == s.store && MemoOf(t, p) == MemoOf(s, p))
      && (!Warmed(s, p) && Found(s.store, s.now).Some? ==>
            var rate := Found(s.store, s.now).value;
            t.calls[n].phase == Resolved(Answer(rate, s.configured), rate)
            && t.store == s.store && MemoOf(t, p) == Some(MemoFor(rate, s.now)))
      && (!Warmed(s, p) && Found(s.store, s.now).None? ==>
            var rate := Fetched(quote, s.now, s.now);
            && t.calls[n].phase == Resolved(Answer(rate, s.configured), rate) && MemoOf(t, p) == Some(MemoFor(rate, s.now))
            && t.store == Put(Pruned(s.store, CACHE_KEY, s.now), CACHE_KEY, Written(rate, s.now), Some(TtlFor(rate)), s.now))
  {
    AloneIsByHand(s, p, quote);
    var n := |s.calls|;
    var begun := Apply(s, Begin(p));
    if !Warmed(s, p) {
      assert begun.calls[n] == Call(p, s.now, AtStore);
      var read := Apply(begun, ReadStore(n));
      if Found(s.store, s.now).None? {
        assert read.calls[n].phase == AtVendor;
        var quoted := Apply(read, VendorAnswers(n, quote));
        assert quoted.calls[n].phase == Quoted(Fetched(quote, s.now, s.now));
      }
    }
  }

  /** What the vendor's reply comes to: its price if positive, else the configured rate if positive, else nothing. */
  function Shown(quote: Option<int>, now: int, configured: int): Option<Rate> {
    if quote.Some? && quote.value > 0 then Some(Vendor(quote.value, now, None))
    else if configured > 0 then Some(Configured(configured))
    else None
  }

  /** Neither memo nor store has anything for p. */
  ghost predicate Cold(s: State, p: nat) {
    0 < s.now && p !in s.memos && CACHE_KEY !in s.store
  }

  /**
   * A cold process shows what the vendor replies, and alone goes on giving that answer for six hours, or
   * for five minutes if there was no price, to the millisecond; after that it asks again.
   */
  lemma {:induction false} RemembersForItsTtl(s: State, p: nat, first: Option<int>, ms: nat, second: Option<int>)
    requires Cold(s, p)
    ensures var t, n := Alone(s, p, first), |s.calls|; var u := Alone(Apply(t, Wait(ms)), p, second);
      var ttl := if first.Some? && first.value > 0 then 21_600_000 else 300_000;
      && |t.calls| == n + 1 && |u.calls| == n + 2
      && t.calls[n].phase.Resolved? && t.calls[n].phase.result == Shown(first, s.now, s.configured)
      && u.calls[n + 1].phase.Resolved?
      && (ms > ttl ==> u.calls[n + 1].phase.result == Shown(second, s.now + ms, s.configured))
      && (ms < ttl ==> u.calls[n + 1].phase.result == Shown(first, s.now, s.configured))
      && (ms == ttl ==>
            u.calls[n + 1].phase.result
            == if first.Some? && first.value > 0 then Some(Vendor(first.value, s.now, Some(s.now))) else Shown(first, s.now, s.configured))
  {
    AloneTakesTheFirstThatKnows(s, p, first);
    var waited := Apply(Alone(s, p, first), Wait(ms));
    AloneTakesTheFirstThatKnows(waited, p, second);
  }

  /** What a live entry is worth to a process with no memo: the sentinel and a positive rate are answers, any other value is read past. */
  lemma {:induction false} ReadsPastTheUnusable(s: State, p: nat, quote: Option<int>)
    requires p !in s.memos && IsLive(s.store, CACHE_KEY, s.now)
    ensures var t, n := Alone(s, p, quote), |s.calls|;
      && |t.calls| == n + 1 && t.calls[n].phase.Resolved?
      && t.calls[n].phase.result == match s.store[CACHE_KEY].value
           case Known(cents, at, written) => if cents > 0 then Some(Vendor(cents, at, written)) else Shown(quote, s.now, s.configured)
           case Miss(_, _) => if s.configured > 0 then Some(Configured(s.configured)) else None
  {
    AloneTakesTheFirstThatKnows(s, p, quote);
  }

  /** The store is best effort: a call whose read and write both fail shows what the vendor replies all the same. */
  lemma {:induction false} StoreFailuresAreHarmless(s: State, p: nat, quote: Option<int>)
    requires p !in s.memos
    ensures var n := |s.calls|; var t := Run(s, [Begin(p), ReadFails(n), VendorAnswers(n, quote), Resume(n), WriteFails(n)]);
      && t.store == s.store && |t.calls| == n + 1
      && t.calls[n].phase.Resolved? && t.calls[n].phase.result == Shown(quote, s.now, s.configured)
  {
    var n := |s.calls|;
    var steps := [Begin(p), ReadFails(n), VendorAnswers(n, quote), Resume(n), WriteFails(n)];
    var s1 := Apply(s, steps[0]);
    assert s1.calls[n] == Call(p, s.now, AtStore);
    var s2 := Apply(s1, steps[1]);
    var s3 := Apply(s2, steps[2]);
    assert s3.calls[n].phase == Quoted(Fetched(quote, s.now, s.now));
    var s4 := Apply(s3, steps[3]);
    RunFrom(s, steps, 0);
    RunFrom(s1, steps, 1);
    RunFrom(s2, steps, 2);
    RunFrom(s3, steps, 3);
    RunFrom(s4, steps, 4);
  }

  class MailingRates {
    const kv: MemoryStore<Cached>
    const configured: int
    var memo: Option<Memo>

    /** This object is process p of state s. */
    ghost predicate Stands(s: State, p: nat)
      reads this, kv
    {
      s.store == kv.store && s.configured == configured && memo == MemoOf(s, p)
    }

    constructor (kv: MemoryStore<Cached>, configured: int)
      ensures this.kv == kv && this.configured == configured && memo == None
    {
      this.kv, this.configured, memo := kv, configured, None;
    }

    /** Does what a call alone does in the protocol. `quote` is what the vendor answers if it is `asked`. */
    method Resolve(now: int, quote: Option<int>, ghost s: State, ghost p: nat) returns (result: Option<Rate>, asked: bool)
      requires Stands(s, p) && s.now == now
      modifies this, kv
      ensures var t := Alone(s, p, quote);
        Stands(t, p) && |t.calls| == |s.calls| + 1 && t.calls[|s.calls|].phase.Resolved? && t.calls[|s.calls|].phase.result == result
      ensures asked <==> !Warmed(s, p) && Found(s.store, now).None?
    {
      AloneTakesTheFirstThatKnows(s, p, quote);
      AloneKeepsConfigured(s, p, quote);
      if memo.Some? && memo.value.expiresAt > now {
        return Answer(memo.value.rate, configured), false;
      }
      var cached := kv.Get(CACHE_KEY, now);
      if cached.Some? && cached.value.Miss? {
        memo := Some(Memo(cached.value, now + MISS_TTL_SEC * 1000));
        return ConfiguredFallback(configured), false;
      }
      if cached.Some? && cached.value.cents > 0 {
        memo := Some(Memo(cached.value, now + TTL_SEC * 1000));
        return Answer(cached.value, configured), false;
      }
      var fetched := Fetched(quote, now, now);
      if fetched.Miss? {
        memo := Some(Memo(fetched, now + MISS_TTL_SEC * 1000));
        kv.Set(CACHE_KEY, Written(fetched, now), Some(MISS_TTL_SEC), now);
        return ConfiguredFallback(configured), true;
      }
      memo := Some(Memo(fetched, now + TTL_SEC * 1000));
      kv.Set(CACHE_KEY, Written(fetched, now), Some(TTL_SEC), now);
      return Answer(fetched, configured), true;
    }

    method Invalidate(ghost s: State, ghost p: nat)
      requires Stands(s, p)
      modifies this, kv
      ensures Stands(Apply(Apply(s, ClearMemo(p)), ClearStore), p)
    {
      memo := None;
      kv.Del(CACHE_KEY);
    }

    /** Run in sequence, the call after an invalidation always consults the vendor. */
    method InvalidateThenResolve(now: int, quote: Option<int>, ghost s: State, ghost p: nat) returns (result: Option<Rate>)
      requires Stands(s, p) && s.now == now
      modifies this, kv
      ensures result == Shown(quote, now, configured)
    {
      Invalidate(s, p);
      ghost var t := Apply(Apply(s, ClearMemo(p)), ClearStore);
      AloneTakesTheFirstThatKnows(t, p, quote);
      var asked;
      result, asked := Resolve(now, quote, t, p);
    }
  }

  lemma AloneKeepsConfigured(s: State, p: nat, quote: Option<int>)
    ensures Alone(s, p, quote).configured == s.configured
  {
    AloneIsByHand(s, p, quote);
  }
}
