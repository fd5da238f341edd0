/**
 * The idempotency middleware (src/middleware/idempotency.ts, lines 73-132) as a protocol over the
 * key/value store: any number of requests carrying one user's key, interleaved step by step. Storing
 * or releasing after a response is not awaited, so it is a step of its own that lands any time later.
 */
module Idempotency {
  import opened Wrappers
  import opened Kv
  import opened Canonical

  const KEY := "idem"
  const TTL_SEC := 86_400

  /** The stored JSON; `response` is absent while the run is in flight and when its payload is undefined. */
  datatype Stored = Stored(bodyHash: Json, status: Option<int>, response: Option<Json>)

  datatype Phase =
    | Arrived
    | Refused                                                          // setNx said no; about to read
    | Running                                                          // the handler was started
    | Answered(status: int, payload: Option<Json>, landed: bool)
    | Replayed(status: int, response: Json)
    | Mismatch                                                         // 409: other body under this key
    | InProgress                                                       // 409, retryable

  /** A parsed JSON body, if there was one; its objects have distinct keys. */
  type RequestBody = b: Option<Json> | WellFormed(Body(b)) witness None

  datatype Request = Request(body: RequestBody, phase: Phase) {
    function BodyHash(): Json { HashBody(body) }
  }

  /** `released` and `expired` count what made the key free again: 4xx releases that landed, and expiries met. */
  datatype State = State(store: Store<Stored>, now: int, requests: seq<Request>, released: nat, expired: nat)

  datatype Step =
    | Arrive(body: RequestBody)
    | Wait(ms: nat)
    | Reserve(i: nat)
    | Read(i: nat)
    | Answer(i: nat, status: int, payload: Option<Json>)
    | Land(i: nat)

  const INIT := State(map[], 1, [], 0, 0)

  predicate Success(status: int) { 200 <= status < 300 }

  predicate ClientError(status: int) { 400 <= status < 500 }

  function WithPhase(s: State, i: nat, p: Phase): State
    requires i < |s.requests|
  {
    s.(requests := s.requests[i := s.requests[i].(phase := p)])
  }

  /** Looking the key up deletes an entry that has run out. */
  function LookAt(s: State): State {
    if KEY in s.store && Expired(s.store[KEY], s.now)
    then s.(store := Pruned(s.store, KEY, s.now), expired := s.expired + 1)
    else s
  }

  /** What the middleware decides about a request whose reservation was refused. */
  function Verdict(bodyHash: Json, existing: Option<Stored>): Phase {
    match existing
    case None => InProgress
    case Some(e) =>
      if e.bodyHash != bodyHash then Mismatch
      else match e.response
        case Some(payload) => Replayed(if e.status.Some? then e.status.value else 200, payload)
        case None => InProgress
  }

  /** One atomic step; a step that is not enabled changes nothing. */
  function Apply(s: State, step: Step): State {
    match step
    case Arrive(body) => s.(requests := s.requests + [Request(body, Arrived)])
    case Wait(ms) => s.(now := s.now + ms)
    case Reserve(i) =>
      if i < |s.requests| && s.requests[i].phase.Arrived? then
        var t := LookAt(s);
        var r := PutNx(t.store, KEY, Stored(s.requests[i].BodyHash(), None, None), TTL_SEC, s.now);
        WithPhase(t.(store := r.0), i, if r.1 then Running else Refused)
      else s
    case Read(i) =>
      if i < |s.requests| && s.requests[i].phase.Refused? then
        var t := LookAt(s);
        WithPhase(t, i, Verdict(s.requests[i].BodyHash(), Lookup(t.store, KEY, s.now)))
      else s
    case Answer(i, status, payload) =>
      if i < |s.requests| && s.requests[i].phase.Running?
      then WithPhase(s, i, Answered(status, payload, false))
      else s
    case Land(i) =>
      if i < |s.requests| && s.requests[i].phase.Answered? && !s.requests[i].phase.landed then
        var q := s.requests[i];
        var t := WithPhase(s, i, q.phase.(landed := true));
        if Success(q.phase.status) then
          t.(store := Put(s.store, KEY, Stored(q.BodyHash(), Some(q.phase.status), q.phase.payload), Some(TTL_SEC), s.now))
        else if ClientError(q.phase.status) then
          t.(store := Drop(s.store, KEY), released := s.released + 1)
        else t
      else s
  }

  function Run(s: State, steps: seq<Step>): State
    decreases |steps|
  {
    if steps == [] then s else Run(Apply(s, steps[0]), steps[1..])
  }

  predicate Started(p: Phase) { p.Running? || p.Answered? }

  /** How many handlers have been started. */
  function Starts(requests: seq<Request>): nat {
    if requests == [] then 0
    else Starts(requests[..|requests| - 1]) + if Started(requests[|requests| - 1].phase) then 1 else 0
  }

  /**
   * The middleware itself. `s` and `i` say which state of the protocol it acts in; its effect on the
   * store and its decision are those of the protocol's steps.
   */
  class Middleware {
    const kv: MemoryStore<Stored>

    constructor (kv: MemoryStore<Stored>)
      ensures this.kv == kv
    {
      this.kv := kv;
    }

    /** The reservation, in whatever state other requests have left. */
    method TryReserve(body: RequestBody, now: int, ghost s: State, ghost i: nat) returns (reserved: bool)
      requires s.store == kv.store && s.now == now && i < |s.requests| && s.requests[i] == Request(body, Arrived)
      modifies kv
      ensures var t := Apply(s, Reserve(i));
              kv.store == t.store && t.requests[i].phase == if reserved then Running else Refused
    {
      reserved := kv.SetNx(KEY, Stored(HashBody(body), None, None), TTL_SEC, now);
    }

    /** The read after a refusal, in whatever state other requests have left by then. */
    method ReadExisting(body: RequestBody, now: int, ghost s: State, ghost i: nat) returns (decision: Phase)
      requires s.store == kv.store && s.now == now && i < |s.requests| && s.requests[i] == Request(body, Refused)
      modifies kv
      ensures var t := Apply(s, Read(i));
              kv.store == t.store && decision == t.requests[i].phase
    {
      var existing := kv.Get(KEY, now);
      if existing.None? {
        return InProgress;
      }
      if existing.value.bodyHash != HashBody(body) {
        return Mismatch;
      }
      if existing.value.response.Some? {
        return Replayed(if existing.value.status.Some? then existing.value.status.value else 200, existing.value.response.value);
      }
      return InProgress;
    }

    /** Reserve at `now`, and read at `later` only when refused; here with no other request in between. */
    method Admit(body: RequestBody, now: int, later: int, ghost s: State, ghost i: nat) returns (decision: Phase)
      requires s.store == kv.store && s.now == now <= later && i < |s.requests| && s.requests[i] == Request(body, Arrived)
      modifies kv
      ensures var t := Apply(Apply(Apply(s, Reserve(i)), Wait(later - now)), Read(i));
              kv.store == t.store && decision == t.requests[i].phase
    {
      var reserved := TryReserve(body, now, s, i);
      if !reserved {
        decision := ReadExisting(body, later, Apply(Apply(s, Reserve(i)), Wait(later - now)), i);
        return;
      }
      return Running;
    }

    /** The wrapped res.json: the store effect of a response, when it lands. */
    method Record(body: RequestBody, status: int, payload: Option<Json>, now: int, ghost s: State, ghost i: nat)
      requires s.store == kv.store && s.now == now && i < |s.requests|
      requires s.requests[i] == Request(body, Answered(status, payload, false))
      modifies kv
      ensures kv.store == Apply(s, Land(i)).store
    {
      if 200 <= status < 300 {
        kv.Set(KEY, Stored(HashBody(body), Some(status), payload), Some(TTL_SEC), now);
      } else if 400 <= status < 500 {
        kv.Del(KEY);
      }
    }
  }

  // ---------------------------------------------------------------- counting

  lemma StartsUpdate(requests: seq<Request>, i: nat, q: Request)
    requires i < |requests|
    ensures Starts(requests[i := q]) == Starts(requests)
         - (if Started(requests[i].phase) then 1 else 0) + (if Started(q.phase) then 1 else 0)
  {
    var n := |requests| - 1;
    if i == n {
      assert requests[i := q][..n] == requests[..n];
    } else {
      assert requests[i := q][..n] == requests[..n][i := q];
      StartsUpdate(requests[..n], i, q);
    }
  }

  lemma {:induction false} StartsAppend(requests: seq<Request>, q: Request)
    ensures Starts(requests + [q]) == Starts(requests) + if Started(q.phase) then 1 else 0
  {
    assert (requests + [q])[..|requests|] == requests;
  }

  // ---------------------------------------------------------------- what every interleaving keeps

  /** A release by this request has been applied. */
  predicate Released(q: Request) {
    q.phase.Answered? && q.phase.landed && ClientError(q.phase.status)
  }

  /** A handler that was started and whose hold on the key was not given back. */
  predicate Holds(q: Request) {
    Started(q.phase) && !Released(q)
  }

  /** This run answered 2xx with this response, and its response was stored. */
  predicate StoredBy(q: Request, bodyHash: Json, status: int, payload: Json) {
    && q.phase == Answered(status, Some(payload), true)
    && Success(status) && q.BodyHash() == bodyHash
  }

  ghost predicate Sourced(s: State, bodyHash: Json, status: int, payload: Json) {
    exists j :: 0 <= j < |s.requests| && StoredBy(s.requests[j], bodyHash, status, payload)
  }

  /** Some run was started for a body with this digest. */
  ghost predicate StartedFor(s: State, bodyHash: Json) {
    exists j :: 0 <= j < |s.requests| && Started(s.requests[j].phase) && s.requests[j].BodyHash() == bodyHash
  }

  ghost predicate StartedForOther(s: State, bodyHash: Json) {
    exists j :: 0 <= j < |s.requests| && Started(s.requests[j].phase) && s.requests[j].BodyHash() != bodyHash
  }

  /** A replay repeats a stored 2xx of the same body; a mismatch has a run with another body behind it. */
  ghost predicate Justified(s: State, q: Request) {
    match q.phase
    case Replayed(status, payload) => Sourced(s, q.BodyHash(), status, payload)
    case Mismatch => StartedForOther(s, q.BodyHash())
    case _ => true
  }

  ghost predicate EntryJustified(s: State, e: Stored) {
    && StartedFor(s, e.bodyHash)
    && (e.response.Some? ==> e.status.Some? && Sourced(s, e.bodyHash, e.status.value, e.response.value))
  }

  function Held(s: State): nat {
    if KEY in s.store then 1 else 0
  }

  ghost predicate Inv(s: State) {
    && 0 < s.now
    && Starts(s.requests) <= s.released + s.expired + Held(s)
    && (KEY in s.store ==> EntryJustified(s, s.store[KEY].value))
    && (forall i :: 0 <= i < |s.requests| ==> Justified(s, s.requests[i]))
  }

  /** One holder at a time, and a holder exactly while the key is taken: until an expiry is met. */
  ghost predicate Exclusive(s: State) {
    && (forall i, j :: 0 <= i < j < |s.requests| ==> !(Holds(s.requests[i]) && Holds(s.requests[j])))
    && (KEY in s.store <==> exists i :: 0 <= i < |s.requests| && Holds(s.requests[i]))
  }

  /** t differs from s only in requests that moved on, never back, and in the store. */
  ghost predicate Extends(s: State, t: State) {
    && |s.requests| <= |t.requests|
    && (forall i :: 0 <= i < |s.requests| ==>
          && t.requests[i].body == s.requests[i].body
          && (Started(s.requests[i].phase) ==> Started(t.requests[i].phase))
          && (s.requests[i].phase.Answered? ==>
                && t.requests[i].phase.Answered?
                && t.requests[i].phase.(landed := s.requests[i].phase.landed) == s.requests[i].phase
                && (s.requests[i].phase.landed ==> t.requests[i].phase.landed))
          && (s.requests[i].phase.Replayed? || s.requests[i].phase.Mismatch? ==> t.requests[i] == s.requests[i]))
    && s.expired <= t.expired && s.released <= t.released
  }

  lemma StepExtends(s: State, step: Step)
    ensures Extends(s, Apply(s, step))
  {
  }

  lemma JustifiedLater(s: State, t: State)
    requires Extends(s, t)
    ensures forall h, st, p :: Sourced(s, h, st, p) ==> Sourced(t, h, st, p)
    ensures forall h :: StartedFor(s, h) ==> StartedFor(t, h)
    ensures forall h :: StartedForOther(s, h) ==> StartedForOther(t, h)
    ensures forall q :: Justified(s, q) ==> Justified(t, q)
    ensures forall e :: EntryJustified(s, e) ==> EntryJustified(t, e)
  {
    forall h, st, p | Sourced(s, h, st, p) ensures Sourced(t, h, st, p) {
      var j :| 0 <= j < |s.requests| && StoredBy(s.requests[j], h, st, p);
      assert StoredBy(t.requests[j], h, st, p);
    }
  }

  lemma ReserveKeeps(s: State, i: nat)
    requires Inv(s) && i < |s.requests| && s.requests[i].phase.Arrived?
    ensures Inv(Apply(s, Reserve(i)))
  {
    var t := Apply(s, Reserve(i));
    StepExtends(s, Reserve(i));
    JustifiedLater(s, t);
    StartsUpdate(s.requests, i, t.requests[i]);
    if t.requests[i].phase.Running? {
      assert StartedFor(t, t.requests[i].BodyHash());
    }
  }

  lemma ReadKeeps(s: State, i: nat)
    requires Inv(s) && i < |s.requests| && s.requests[i].phase.Refused?
    ensures Inv(Apply(s, Read(i)))
  {
    var t := Apply(s, Read(i));
    StepExtends(s, Read(i));
    JustifiedLater(s, t);
    StartsUpdate(s.requests, i, t.requests[i]);
    if IsLive(s.store, KEY, s.now) {
      var e := s.store[KEY].value;
      assert EntryJustified(t, e);
      if e.bodyHash != t.requests[i].BodyHash() {
        var j :| 0 <= j < |t.requests| && Started(t.requests[j].phase) && t.requests[j].BodyHash() == e.bodyHash;
        assert StartedForOther(t, t.requests[i].BodyHash());
      }
    }
    assert Justified(t, t.requests[i]);
  }

  lemma LandKeeps(s: State, i: nat)
    requires Inv(s) && i < |s.requests| && s.requests[i].phase.Answered? && !s.requests[i].phase.landed
    ensures Inv(Apply(s, Land(i)))
  {
    var t := Apply(s, Land(i));
    StepExtends(s, Land(i));
    JustifiedLater(s, t);
    StartsUpdate(s.requests, i, t.requests[i]);
    var q := t.requests[i];
    if Success(q.phase.status) {
      assert StartedFor(t, q.BodyHash());
      if q.phase.payload.Some? {
        assert StoredBy(q, q.BodyHash(), q.phase.status, q.phase.payload.value);
      }
    }
  }

  lemma StepKeepsInv(s: State, step: Step)
    requires Inv(s)
    ensures Inv(Apply(s, step))
  {
    match step
    case Reserve(i) => if Apply(s, step) != s { ReserveKeeps(s, i); }
    case Read(i) => if Apply(s, step) != s { ReadKeeps(s, i); }
    case Land(i) => if Apply(s, step) != s { LandKeeps(s, i); }
    case _ => OthersKeepInv(s, step);
  }

  lemma OthersKeepInv(s: State, step: Step)
    requires Inv(s) && !step.Reserve? && !step.Read? && !step.Land?
    ensures Inv(Apply(s, step))
  {
    var t := Apply(s, step);
    StepExtends(s, step);
    JustifiedLater(s, t);
    match step
    case Arrive(body) => StartsAppend(s.requests, Request(body, Arrived));
    case Wait(_) =>
    case Answer(i, _, _) =>
      if i < |s.requests| {
        StartsUpdate(s.requests, i, t.requests[i]);
      }
  }

  lemma StepKeepsExclusive(s: State, step: Step)
    requires Exclusive(s)
    ensures Apply(s, step).expired == s.expired ==> Exclusive(Apply(s, step))
  {
    match step
    case Arrive(_) => OthersKeepExclusive(s, step);
    case Wait(_) => OthersKeepExclusive(s, step);
    case Read(_) => OthersKeepExclusive(s, step);
    case Answer(_, _, _) => OthersKeepExclusive(s, step);
    case Reserve(i) => ReserveKeepsExclusive(s, i);
    case Land(i) => LandKeepsExclusive(s, i);
  }

  /** Steps that neither reserve nor land leave the holders as they are. */
  lemma OthersKeepExclusive(s: State, step: Step)
    requires Exclusive(s) && !step.Reserve? && !step.Land?
    ensures Apply(s, step).expired == s.expired ==> Exclusive(Apply(s, step))
  {
    var t := Apply(s, step);
    assert forall i :: 0 <= i < |s.requests| ==> (Holds(t.requests[i]) <==> Holds(s.requests[i]));
    if KEY in s.store {
      var h :| 0 <= h < |s.requests| && Holds(s.requests[h]);
      assert Holds(t.requests[h]);
    }
  }

  lemma ReserveKeepsExclusive(s: State, i: nat)
    requires Exclusive(s)
    ensures Apply(s, Reserve(i)).expired == s.expired ==> Exclusive(Apply(s, Reserve(i)))
  {
    var t := Apply(s, Reserve(i));
    if KEY in s.store {
      var h :| 0 <= h < |s.requests| && Holds(s.requests[h]);
      assert t.expired == s.expired ==> Holds(t.requests[h]);
    } else if i < |s.requests| && s.requests[i].phase.Arrived? {
      assert Holds(t.requests[i]);
    }
  }

  lemma LandKeepsExclusive(s: State, i: nat)
    requires Exclusive(s)
    ensures Exclusive(Apply(s, Land(i)))
  {
    var t := Apply(s, Land(i));
    if KEY in s.store && KEY in t.store {
      var h :| 0 <= h < |s.requests| && Holds(s.requests[h]);
      assert Holds(t.requests[h]);
    }
  }

  lemma {:induction false} RunKeeps(s: State, steps: seq<Step>)
    requires Inv(s) && (s.expired == 0 ==> Exclusive(s))
    ensures Inv(Run(s, steps)) && (Run(s, steps).expired == 0 ==> Exclusive(Run(s, steps)))
    ensures Extends(s, Run(s, steps))
    decreases |steps|
  {
    if steps != [] {
      StepKeepsInv(s, steps[0]);
      if s.expired == 0 {
        StepKeepsExclusive(s, steps[0]);
      }
      StepExtends(s, steps[0]);
      RunKeeps(Apply(s, steps[0]), steps[1..]);
    }
  }

  lemma StartHolds(s: State)
    requires s == INIT
    ensures Inv(s) && Exclusive(s)
  {
  }
}
