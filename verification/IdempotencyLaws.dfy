/** What the idempotency middleware promises (src/middleware/idempotency.ts, lines 45-72), over all interleavings. */
module IdempotencyLaws {
  import opened Wrappers
  import opened Kv
  import opened Canonical
  import opened Idempotency

  /** Each start after the first was paid for by a release that landed or by an expiry. */
  lemma {:induction false} StartsAreBounded(steps: seq<Step>)
    ensures var s := Run(INIT, steps); Starts(s.requests) <= 1 + s.released + s.expired
  {
    StartHolds(INIT);
    RunKeeps(INIT, steps);
  }

  /** While no reservation has expired, a second handler never runs beside the first. */
  lemma {:induction false} OneHandlerAtATime(steps: seq<Step>, i: nat, j: nat)
    requires Run(INIT, steps).expired == 0
    requires i < |Run(INIT, steps).requests| && j < |Run(INIT, steps).requests|
    requires Run(INIT, steps).requests[i].phase.Running? && Run(INIT, steps).requests[j].phase.Running?
    ensures i == j
  {
    StartHolds(INIT);
    RunKeeps(INIT, steps);
    assert Holds(Run(INIT, steps).requests[i]) && Holds(Run(INIT, steps).requests[j]);
  }

  lemma StepStartsNothing(s: State, step: Step, k: nat)
    requires Exclusive(s) && k < |s.requests| && Holds(s.requests[k])
    requires Apply(s, step).expired == s.expired
    ensures Starts(Apply(s, step).requests) == Starts(s.requests)
  {
    var t := Apply(s, step);
    match step
    case Arrive(body) => StartsAppend(s.requests, Request(body, Arrived));
    case Wait(_) =>
    case Reserve(i) => if i < |s.requests| { StartsUpdate(s.requests, i, t.requests[i]); }
    case Read(i) => if i < |s.requests| { StartsUpdate(s.requests, i, t.requests[i]); }
    case Answer(i, _, _) => if i < |s.requests| { StartsUpdate(s.requests, i, t.requests[i]); }
    case Land(i) => if i < |s.requests| { StartsUpdate(s.requests, i, t.requests[i]); }
  }

  lemma {:induction false} HolderBlocks(s: State, steps: seq<Step>, k: nat)
    requires Inv(s) && Exclusive(s) && s.expired == 0 && Run(s, steps).expired == 0
    requires k < |s.requests| && s.requests[k].phase.Answered? && !ClientError(s.requests[k].phase.status)
    ensures Starts(Run(s, steps).requests) == Starts(s.requests)
    decreases |steps|
  {
    if steps != [] {
      var t := Apply(s, steps[0]);
      StepExtends(s, steps[0]);
      StepKeepsInv(s, steps[0]);
      StepKeepsExclusive(s, steps[0]);
      ExpiryCountGrows(t, steps[1..]);
      StepStartsNothing(s, steps[0], k);
      HolderBlocks(t, steps[1..], k);
    }
  }

  lemma {:induction false} ExpiryCountGrows(s: State, steps: seq<Step>)
    ensures s.expired <= Run(s, steps).expired
    decreases |steps|
  {
    if steps != [] {
      StepExtends(s, steps[0]);
      ExpiryCountGrows(Apply(s, steps[0]), steps[1..]);
    }
  }

  /**
   * Once a run has answered with anything but a 4xx - success, or an outcome that is unknown - no
   * later step starts a handler, however late its stored result lands, unless a reservation expires.
   */
  lemma {:induction false} NothingStartsAfterOutcome(before: seq<Step>, after: seq<Step>, k: nat)
    requires var s := Run(INIT, before);
      && k < |s.requests| && s.requests[k].phase.Answered? && !ClientError(s.requests[k].phase.status)
      && Run(s, after).expired == 0
    ensures Starts(Run(Run(INIT, before), after).requests) == Starts(Run(INIT, before).requests)
  {
    StartHolds(INIT);
    RunKeeps(INIT, before);
    ExpiryCountGrows(Run(INIT, before), after);
    HolderBlocks(Run(INIT, before), after, k);
  }

  predicate AnsweredSuccess(q: Request) { q.phase.Answered? && Success(q.phase.status) }

  /** Every replay repeats the status and payload of a stored 2xx run whose body had the same digest. */
  lemma ReplayIsOfAStoredRun(steps: seq<Step>, i: nat) returns (j: nat)
    requires i < |Run(INIT, steps).requests| && Run(INIT, steps).requests[i].phase.Replayed?
    ensures var s := Run(INIT, steps); var p := s.requests[i].phase;
      && j < |s.requests|
      && s.requests[j].phase == Answered(p.status, Some(p.response), true) && Success(p.status)
      && HashBody(s.requests[j].body) == HashBody(s.requests[i].body)
      && (s.expired == 0 ==> forall k :: 0 <= k < |s.requests| && AnsweredSuccess(s.requests[k]) ==> k == j)
  {
    StartHolds(INIT);
    RunKeeps(INIT, steps);
    var s := Run(INIT, steps);
    assert Justified(s, s.requests[i]);
    j :| 0 <= j < |s.requests|
      && StoredBy(s.requests[j], s.requests[i].BodyHash(), s.requests[i].phase.status, s.requests[i].phase.response);
    if s.expired == 0 {
      assert Holds(s.requests[j]);
      forall k | 0 <= k < |s.requests| && AnsweredSuccess(s.requests[k])
        ensures k == j
      {
        assert Holds(s.requests[k]);
      }
    }
  }

  /** A body mismatch is only ever reported against a run whose body really means something else. */
  lemma MismatchIsGenuine(steps: seq<Step>, i: nat) returns (j: nat)
    requires i < |Run(INIT, steps).requests| && Run(INIT, steps).requests[i].phase.Mismatch?
    ensures var s := Run(INIT, steps);
      && j < |s.requests| && Started(s.requests[j].phase)
      && Denote(Body(s.requests[j].body)) != Denote(Body(s.requests[i].body))
  {
    StartHolds(INIT);
    RunKeeps(INIT, steps);
    var s := Run(INIT, steps);
    assert Justified(s, s.requests[i]);
    j :| 0 <= j < |s.requests| && Started(s.requests[j].phase) && s.requests[j].BodyHash() != s.requests[i].BodyHash();
    DigestDecidesEquality(s.requests[j].body, s.requests[i].body);
  }

  /** Turned away for good, or about to be answered without a handler. */
  predicate TurnedAway(p: Phase) {
    p.Refused? || p.Replayed? || p.Mismatch? || p.InProgress?
  }

  /** Over all runs, a request whose reservation was refused never starts a handler, whatever happens before it reads. */
  lemma {:induction false} RefusedNeverStarts(s: State, steps: seq<Step>, i: nat)
    requires i < |s.requests| && TurnedAway(s.requests[i].phase)
    ensures i < |Run(s, steps).requests| && TurnedAway(Run(s, steps).requests[i].phase)
    ensures !Started(Run(s, steps).requests[i].phase)
    decreases |steps|
  {
    if steps != [] {
      RefusedNeverStarts(Apply(s, steps[0]), steps[1..], i);
    }
  }

  /** A refused request stays so until it reads. */
  lemma {:induction false} RefusedUntilRead(s: State, steps: seq<Step>, i: nat)
    requires i < |s.requests| && s.requests[i].phase.Refused?
    requires forall k :: 0 <= k < |steps| ==> steps[k] != Read(i)
    ensures i < |Run(s, steps).requests| && Run(s, steps).requests[i] == s.requests[i]
    decreases |steps|
  {
    if steps != [] {
      assert steps[0] != Read(i);
      RefusedUntilRead(Apply(s, steps[0]), steps[1..], i);
    }
  }

  /**
   * While the key is held, a request with another digest is refused; however many steps of others later
   * it reads, if the key is then held for another digest it gets a mismatch. It changes nothing in the store.
   */
  lemma {:induction false} OtherBodyIsTurnedAway(s: State, i: nat, between: seq<Step>)
    requires i < |s.requests| && s.requests[i].phase.Arrived? && IsLive(s.store, KEY, s.now)
    requires forall k :: 0 <= k < |between| ==> between[k] != Read(i)
    ensures Apply(s, Reserve(i)).requests[i].phase == Refused && Apply(s, Reserve(i)).store == s.store
    ensures var t := Run(Apply(s, Reserve(i)), between);
      && i < |t.requests| && t.requests[i].phase == Refused
      && (IsLive(t.store, KEY, t.now) && t.store[KEY].value.bodyHash != s.requests[i].BodyHash() ==>
            Apply(t, Read(i)).requests[i].phase == Mismatch && Apply(t, Read(i)).store == t.store)
  {
    RefusedUntilRead(Apply(s, Reserve(i)), between, i);
  }

  // ---------------------------------------------------------------- with an expiry the bound is reached

  function FirstDay(): seq<Step> { [Arrive(None), Reserve(0), Answer(0, 201, None), Land(0)] }

  function NextDay(): seq<Step> { [Wait(86_400_001), Arrive(None), Reserve(1)] }

  lemma FirstDayRun()
    ensures Run(INIT, FirstDay())
         == State(map[KEY := Entry(Stored(HashBody(None), Some(201), None), 86_400_001)], 1,
                  [Request(None, Answered(201, None, true))], 0, 0)
  {
    var steps := FirstDay();
    var s1 := Apply(INIT, steps[0]);
    assert s1 == INIT.(requests := [Request(None, Arrived)]);
    var s2 := Apply(s1, steps[1]);
    assert s2.requests == [Request(None, Running)];
    var s3 := Apply(s2, steps[2]);
    var s4 := Apply(s3, steps[3]);
    assert s4.requests == [Request(None, Answered(201, None, true))];
    RunFrom(INIT, steps, 0);
    RunFrom(s1, steps, 1);
    RunFrom(s2, steps, 2);
    RunFrom(s3, steps, 3);
  }

  /** A stored 2xx expires after its TTL, and the same request then runs its handler a second time. */
  lemma ExpiryAllowsASecondRun()
    ensures var s := Run(Run(INIT, FirstDay()), NextDay());
            Starts(s.requests) == 2 && s.released == 0 && s.expired == 1
  {
    FirstDayRun();
    var s0, steps := Run(INIT, FirstDay()), NextDay();
    var s1 := Apply(s0, steps[0]);
    var s2 := Apply(s1, steps[1]);
    assert s2.requests == [Request(None, Answered(201, None, true)), Request(None, Arrived)];
    var s3 := Apply(s2, steps[2]);
    assert Expired(s2.store[KEY], s2.now);
    assert s3.requests == [Request(None, Answered(201, None, true)), Request(None, Running)];
    assert s3.requests[..1][..0] == [];
    assert Starts(s3.requests[..1]) == 1;
    RunFrom(s0, steps, 0);
    RunFrom(s1, steps, 1);
    RunFrom(s2, steps, 2);
  }

  lemma {:induction false} RunFrom(s: State, steps: seq<Step>, k: nat)
    requires k < |steps|
    ensures Run(s, steps[k..]) == Run(Apply(s, steps[k]), steps[k + 1..])
    ensures k == 0 ==> steps[k..] == steps
    ensures k + 1 == |steps| ==> Run(s, steps[k..]) == Apply(s, steps[k])
  {
    assert steps[k..][1..] == steps[k + 1..];
  }
}
