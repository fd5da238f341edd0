/**
 * What a request gets from the idempotency middleware (src/middleware/idempotency.ts) while nothing has
 * expired: when its handler starts, and what a retry reads.
 */
module Retries {
  import opened Wrappers
  import opened Kv
  import opened Canonical
  import opened Idempotency
  import opened IdempotencyLaws

  /** The runs that answered 4xx and gave the key back. */
  function GivenBack(requests: seq<Request>): nat {
    if requests == [] then 0
    else
      var p := requests[|requests| - 1].phase;
      GivenBack(requests[..|requests| - 1]) + if p.Answered? && p.landed && 400 <= p.status < 500 then 1 else 0
  }

  lemma {:induction false} GivenBackUpdate(requests: seq<Request>, i: nat, q: Request)
    requires i < |requests|
    ensures GivenBack(requests[i := q]) == GivenBack(requests)
         - (if Released(requests[i]) then 1 else 0) + (if Released(q) then 1 else 0)
  {
    var n := |requests| - 1;
    if i == n {
      assert requests[i := q][..n] == requests[..n];
    } else {
      assert requests[i := q][..n] == requests[..n][i := q];
      GivenBackUpdate(requests[..n], i, q);
    }
  }

  lemma StepCountsGivenBack(s: State, step: Step)
    requires s.released == GivenBack(s.requests)
    ensures Apply(s, step).released == GivenBack(Apply(s, step).requests)
  {
    var t := Apply(s, step);
    match step
    case Arrive(body) => assert t.requests[..|s.requests|] == s.requests;
    case Wait(_) =>
    case Reserve(i) => if i < |s.requests| { GivenBackUpdate(s.requests, i, t.requests[i]); }
    case Read(i) => if i < |s.requests| { GivenBackUpdate(s.requests, i, t.requests[i]); }
    case Answer(i, _, _) => if i < |s.requests| { GivenBackUpdate(s.requests, i, t.requests[i]); }
    case Land(i) => if i < |s.requests| { GivenBackUpdate(s.requests, i, t.requests[i]); }
  }

  /** `released` counts what its name says. */
  lemma {:induction false} ReleasesAreGivenBack(s: State, steps: seq<Step>)
    requires s.released == GivenBack(s.requests)
    ensures Run(s, steps).released == GivenBack(Run(s, steps).requests)
    decreases |steps|
  {
    if steps != [] {
      StepCountsGivenBack(s, steps[0]);
      ReleasesAreGivenBack(Apply(s, steps[0]), steps[1..]);
    }
  }

  /** In every interleaving each start after the first is owed to a run that answered 4xx and gave the key back, or to an expiry. */
  lemma {:induction false} StartsAreOwed(steps: seq<Step>)
    ensures var s := Run(INIT, steps); Starts(s.requests) <= 1 + GivenBack(s.requests) + s.expired
  {
    StartsAreBounded(steps);
    ReleasesAreGivenBack(INIT, steps);
  }

  /** The entry that a holder of the key keeps there. */
  function EntryOf(q: Request): Stored {
    if q.phase.Answered? && q.phase.landed && Success(q.phase.status)
    then Stored(q.BodyHash(), Some(q.phase.status), q.phase.payload)
    else Stored(q.BodyHash(), None, None)
  }

  ghost predicate EntryIsHolders(s: State) {
    forall i :: 0 <= i < |s.requests| && Holds(s.requests[i]) ==> KEY in s.store && s.store[KEY].value == EntryOf(s.requests[i])
  }

  lemma {:induction false} StepKeepsEntry(s: State, step: Step)
    requires Exclusive(s) && EntryIsHolders(s) && Apply(s, step).expired == s.expired
    ensures EntryIsHolders(Apply(s, step))
  {
    var t := Apply(s, step);
    match step
    case Land(k) => LandKeepsEntry(s, k);
    case Reserve(k) => ReserveKeepsEntry(s, k);
    case _ =>
      forall i | 0 <= i < |t.requests| && Holds(t.requests[i]) ensures KEY in t.store && t.store[KEY].value == EntryOf(t.requests[i]) {
        assert Holds(s.requests[i]) && EntryOf(t.requests[i]) == EntryOf(s.requests[i]);
      }
  }

  lemma ReserveKeepsEntry(s: State, k: nat)
    requires Exclusive(s) && EntryIsHolders(s) && Apply(s, Reserve(k)).expired == s.expired
    ensures EntryIsHolders(Apply(s, Reserve(k)))
  {
    var t := Apply(s, Reserve(k));
    forall i | 0 <= i < |t.requests| && Holds(t.requests[i]) ensures KEY in t.store && t.store[KEY].value == EntryOf(t.requests[i]) {
      assert i == k || Holds(s.requests[i]);
    }
  }

  lemma LandKeepsEntry(s: State, k: nat)
    requires Exclusive(s) && EntryIsHolders(s)
    ensures EntryIsHolders(Apply(s, Land(k)))
  {
    var t := Apply(s, Land(k));
    forall i | 0 <= i < |t.requests| && Holds(t.requests[i]) ensures KEY in t.store && t.store[KEY].value == EntryOf(t.requests[i]) {
      assert Holds(s.requests[i]);
      assert i != k ==> t.requests[i] == s.requests[i];
    }
  }

  lemma {:induction false} RunKeepsEntry(s: State, steps: seq<Step>)
    requires Inv(s) && s.expired == 0 && Exclusive(s) && EntryIsHolders(s)
    ensures Run(s, steps).expired == 0 ==> Exclusive(Run(s, steps)) && EntryIsHolders(Run(s, steps))
    decreases |steps|
  {
    if steps != [] {
      ExpiryCountGrows(Apply(s, steps[0]), steps[1..]);
      if Run(s, steps).expired == 0 {
        StepKeepsInv(s, steps[0]);
        StepKeepsExclusive(s, steps[0]);
        StepKeepsEntry(s, steps[0]);
        RunKeepsEntry(Apply(s, steps[0]), steps[1..]);
      }
    }
  }

  /** A handler was started for this request, and a 4xx has not given its key back. */
  predicate KeepsKey(q: Request) {
    || q.phase.Running?
    || (q.phase.Answered? && !(q.phase.landed && 400 <= q.phase.status < 500))
  }

  /** While nothing has expired, a request's handler is started if and only if nobody keeps the key. */
  lemma {:induction false} StartsIffNobodyKeepsKey(steps: seq<Step>, i: nat)
    requires var s := Run(INIT, steps); i < |s.requests| && s.requests[i].phase.Arrived? && Apply(s, Reserve(i)).expired == 0
    ensures var s := Run(INIT, steps); var after := Apply(s, Reserve(i)).requests[i].phase;
      && (after.Running? <==> forall k :: 0 <= k < |s.requests| ==> !KeepsKey(s.requests[k]))
      && (!after.Running? ==> after.Refused?)
  {
    var s := Run(INIT, steps);
    StartHolds(INIT);
    StepExtends(s, Reserve(i));
    RunKeeps(INIT, steps);
    forall k | 0 <= k < |s.requests| ensures KeepsKey(s.requests[k]) <==> Holds(s.requests[k]) {
    }
  }

  /**
   * What a refused request reads, while nothing has expired and request j keeps the key: j's stored
   * response, if j answered 2xx with a payload, the write has landed, and the bodies have one digest;
   * a mismatch, if the digests differ; and that j is still in progress otherwise.
   */
  lemma {:induction false} RetryIsReplayed(steps: seq<Step>, i: nat, j: nat)
    requires var s := Run(INIT, steps);
      && i < |s.requests| && j < |s.requests|
      && s.requests[i].phase.Refused? && KeepsKey(s.requests[j]) && Apply(s, Read(i)).expired == 0
    ensures var s := Run(INIT, steps); var q, after := s.requests[j].phase, Apply(s, Read(i)).requests[i].phase;
      if HashBody(s.requests[i].body) != HashBody(s.requests[j].body) then after == Mismatch
      else if q.Answered? && q.landed && 200 <= q.status < 300 && q.payload.Some? then after == Replayed(q.status, q.payload.value)
      else after == InProgress
  {
    var s := Run(INIT, steps);
    StartHolds(INIT);
    StepExtends(s, Read(i));
    RunKeepsEntry(INIT, steps);
    assert Holds(s.requests[j]);
  }

  /** With nobody keeping it, the key was given back since the refusal, and the request is asked to come again. */
  lemma {:induction false} ReadOfAFreeKey(steps: seq<Step>, i: nat)
    requires var s := Run(INIT, steps);
      && i < |s.requests| && s.requests[i].phase.Refused? && Apply(s, Read(i)).expired == 0
      && forall k :: 0 <= k < |s.requests| ==> !KeepsKey(s.requests[k])
    ensures Apply(Run(INIT, steps), Read(i)).requests[i].phase == InProgress
  {
    var s := Run(INIT, steps);
    StartHolds(INIT);
    StepExtends(s, Read(i));
    RunKeeps(INIT, steps);
    forall k | 0 <= k < |s.requests| ensures !Holds(s.requests[k]) {
      assert !KeepsKey(s.requests[k]);
    }
  }

  const DAY_MS := 86_400_000

  lemma {:induction false} EntriesLastADay(s: State, steps: seq<Step>)
    requires 0 < s.now && s.expired == 0 && (KEY in s.store ==> 1 + DAY_MS <= s.store[KEY].expiresAt)
    ensures s.now <= Run(s, steps).now
    ensures Run(s, steps).now <= 1 + DAY_MS ==> Run(s, steps).expired == 0
    decreases |steps|
  {
    if steps != [] {
      var t := Apply(s, steps[0]);
      ClockGrows(t, steps[1..]);
      if Run(s, steps).now <= 1 + DAY_MS {
        EntriesLastADay(t, steps[1..]);
      }
    }
  }

  lemma {:induction false} ClockGrows(s: State, steps: seq<Step>)
    ensures s.now <= Run(s, steps).now
    decreases |steps|
  {
    if steps != [] {
      ClockGrows(Apply(s, steps[0]), steps[1..]);
    }
  }

  /** Nothing expires within 24 hours of the first request: until then, all of the above holds as it stands. */
  lemma {:induction false} NothingExpiresWithinADay(steps: seq<Step>)
    requires Run(INIT, steps).now <= 1 + 86_400_000
    ensures Run(INIT, steps).expired == 0
  {
    EntriesLastADay(INIT, steps);
  }
}
