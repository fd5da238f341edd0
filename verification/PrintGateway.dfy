/**
 * The print gateway's token cache, retry loop and order submission (src/integrations/print/gateway.ts)
 * over a lossy network, against the vendor of PrintVendor. What the network and the clock do at each
 * attempt is a script the caller does not choose.
 */
module PrintGateway {
  import opened Wrappers
  import opened PrintVendor

  const MAX_RETRIES := 2
  const TOKEN_SKEW_MS := 60_000

  datatype Token = Token(token: string, expiresAt: int)

  predicate IsOk(status: int) { 200 <= status < 300 }

  predicate IsTransient(status: int) { status >= 500 || status == 429 }

  type ErrorStatus = s: int | !IsOk(s) witness 500

  /** Any error but 409: only the vendor's duplicate detection answers with that. */
  type FaultStatus = s: int | !IsOk(s) && s != 409 witness 500

  /** A login exchange: lost, refused with a status, answered unreadably, or granted. */
  datatype Login = LoginLost | LoginRefused(status: ErrorStatus) | LoginGarbled | LoginGranted(token: Token)

  /** What becomes of one request. */
  datatype Fate =
    | LostRequest                          // never delivered
    | LostReply                            // processed, the reply never arrives
    | TurnedAway(status: FaultStatus)       // answered without being processed
    | Mangled(status: FaultStatus)         // processed, answered with an error all the same
    | Garbled                              // processed, a success is answered with an unreadable body
    | Clean                                // processed, the vendor's own answer arrives

  /** `traffic` is what the vendor processes for others meanwhile, or of this caller's timed-out requests, before this one. */
  datatype Attempt = Attempt(traffic: seq<Operation>, now: int, login: Login, fate: Fate, relogin: Login)

  type Script = nat -> Attempt

  datatype Call = SubmitCall(req: SubmitRequest) | CancelCall(id: nat) | StatusCall(id: nat) | BalanceCall

  datatype Body = OrderRef(orderId: nat, batchId: nat) | Done | StatusIs(status: Status) | Money(cents: int)

  datatype Response = Response(status: int, body: Option<Body>)

  datatype Outcome =
    | Success(body: Body)
    | Conflict                                       // ConflictError, not retryable
    | Upstream(status: int, retryable: bool)         // the vendor's error status
    | LoginFailed(status: int, retryable: bool)
    | NotConfigured
    | NoReference                                    // refused before anything is sent
    | Unreachable                                    // retryable

  /** The vendor's processing of a request, and its answer over HTTP. */
  function Process(v: Vendor, c: Call): (Vendor, Response) {
    match c
    case SubmitCall(req) =>
      var (w, reply) := Submit(v, req);
      (w, match reply
          case Created(id, batch) => Response(200, Some(OrderRef(id, batch)))
          case Duplicate => Response(409, None)
          case Rejected => Response(400, None))
    case CancelCall(id) =>
      var (w, ok) := Cancel(v, id);
      (w, if ok then Response(200, Some(Done)) else Response(if id in v.orders then 400 else 404, None))
    case StatusCall(id) =>
      (v, if id in v.orders then Response(200, Some(StatusIs(v.orders[id].status))) else Response(404, None))
    case BalanceCall => (v, Response(200, Some(Money(v.balanceCents))))
  }

  /** One request on the wire: the vendor afterwards, and the response if one arrives. */
  function Send(v: Vendor, c: Call, fate: Fate): (Vendor, Option<Response>) {
    var (w, response) := Process(v, c);
    match fate
    case LostRequest => (v, None)
    case LostReply => (w, None)
    case TurnedAway(status) => (v, Some(Response(status, None)))
    case Mangled(status) => (w, Some(Response(status, None)))
    case Garbled => (w, Some(response.(body := None)))
    case Clean => (w, Some(response))
  }

  /** Stopped: an AppError, rethrown at once. Retry: any other throw, retried while attempts are left. */
  datatype TokenResult = HaveToken | Stopped(outcome: Outcome) | Retry

  function GetToken(cached: Option<Token>, configured: bool, force: bool, now: int, login: Login): (Option<Token>, TokenResult) {
    if !force && cached.Some? && cached.value.expiresAt > now + TOKEN_SKEW_MS then (cached, HaveToken)
    else if !configured then (cached, Stopped(NotConfigured))
    else match login
      case LoginLost => (cached, Retry)
      case LoginRefused(status) => (cached, Stopped(LoginFailed(status, status >= 500)))
      case LoginGarbled => (cached, Retry)
      case LoginGranted(token) => (Some(token), HaveToken)
  }

  /** `placed` counts the orders that the requests sent here have created. */
  datatype World = World(vendor: Vendor, cached: Option<Token>, sends: nat, placed: nat)

  function Others(w: World, traffic: seq<Operation>): World {
    w.(vendor := PerformAll(w.vendor, traffic))
  }

  predicate Reaches(fate: Fate) { !fate.LostRequest? && !fate.TurnedAway? }

  /** One request of this caller's. */
  function Sent(w: World, c: Call, fate: Fate): World {
    var placed := if Reaches(fate) && c.SubmitCall? && Submit(w.vendor, c.req).1.Created? then 1 else 0;
    World(Send(w.vendor, c, fate).0, w.cached, w.sends + 1, w.placed + placed)
  }

  function Attempts(retryable: bool): nat {
    if retryable then MAX_RETRIES + 1 else 1
  }

  /** How one attempt leaves the loop, or goes round it again. */
  datatype Turn = Again(world: World, reauthed: bool) | Finish(world: World, outcome: Outcome)

  /** One pass of the loop body; `last` says that no attempts are left after it. */
  function OneAttempt(before: World, configured: bool, c: Call, last: bool, reauthed: bool, a: Attempt): Turn {
    var w := Others(before, a.traffic);
    var (cached, have) := GetToken(w.cached, configured, false, a.now, a.login);
    if have.Stopped? then Finish(w.(cached := cached), have.outcome)
    else if have.Retry? then Again(w.(cached := cached), reauthed)
    else AfterSend(Sent(w.(cached := cached), c, a.fate), configured, c, last, reauthed, a, Send(w.vendor, c, a.fate).1)
  }

  function AfterSend(sent: World, configured: bool, c: Call, last: bool, reauthed: bool, a: Attempt, reply: Option<Response>): Turn {
    match reply
    case None => Again(sent, reauthed)
    case Some(Response(status, body)) =>
      if IsOk(status) then
        match body
        case Some(b) => Finish(sent, Success(b))
        case None => Again(sent, reauthed)
      else if status == 401 && !reauthed then
        var (renewed, again) := GetToken(sent.cached, configured, true, a.now, a.relogin);
        if again.Stopped? then Finish(sent.(cached := renewed), again.outcome)
        else Again(sent.(cached := renewed), true)
      else if status == 409 && c.SubmitCall? then Finish(sent, Conflict)
      else if IsTransient(status) && !last then Again(sent, reauthed)
      else Finish(sent, Upstream(status, IsTransient(status)))
  }

  /** The rest of a call from attempt number k on. */
  function CallFrom(w: World, configured: bool, c: Call, k: nat, attempts: nat, reauthed: bool, script: Script): (World, Outcome)
    decreases attempts + 1 - k
  {
    if k > attempts then (w, Unreachable)
    else match OneAttempt(w, configured, c, k == attempts, reauthed, script(k))
      case Finish(t, outcome) => (t, outcome)
      case Again(t, r) => CallFrom(t, configured, c, k + 1, attempts, r, script)
  }

  function FullCall(w: World, configured: bool, c: Call, retryable: bool, script: Script): (World, Outcome) {
    CallFrom(w, configured, c, 1, Attempts(retryable), false, script)
  }

  /** submitOrder: trim, refuse an empty reference, then a retryable call. */
  function SubmitOrder(w: World, configured: bool, req: SubmitRequest, script: Script): (World, Outcome) {
    var orderRef := Trim(req.orderRef);
    if orderRef == "" then (w, NoReference)
    else FullCall(w, configured, SubmitCall(req.(orderRef := orderRef)), true, script)
  }

  // ---------------------------------------------------------------- the gateway as an object

  class Gateway {
    const vendor: FakePrintVendor
    const configured: bool
    var cachedToken: Option<Token>
    ghost var sends: nat
    ghost var placed: nat

    constructor (vendor: FakePrintVendor, configured: bool)
      ensures this.vendor == vendor && this.configured == configured && cachedToken == None && sends == placed == 0
    {
      this.vendor, this.configured := vendor, configured;
      cachedToken, sends, placed := None, 0, 0;
    }

    ghost function View(): World
      reads this, vendor
    {
      World(vendor.View(), cachedToken, sends, placed)
    }

    method Token(force: bool, now: int, login: Login) returns (r: TokenResult)
      modifies this`cachedToken
      ensures (cachedToken, r) == GetToken(old(cachedToken), configured, force, now, login)
    {
      if !force && cachedToken.Some? && cachedToken.value.expiresAt > now + TOKEN_SKEW_MS {
        return HaveToken;
      }
      if !configured {
        return Stopped(NotConfigured);
      }
      match login
      case LoginLost => return Retry;
      case LoginRefused(status) => return Stopped(LoginFailed(status, status >= 500));
      case LoginGarbled => return Retry;
      case LoginGranted(token) =>
        cachedToken := Some(token);
        return HaveToken;
    }

    method RawFetch(c: Call, fate: Fate) returns (reply: Option<Response>)
      modifies vendor, this`sends, this`placed
      ensures View() == Sent(old(View()), c, fate) && reply == Send(old(vendor.View()), c, fate).1
    {
      sends := sends + 1;
      var response := Response(500, None);
      if !fate.LostRequest? && !fate.TurnedAway? {
        match c {
          case SubmitCall(req) =>
            var r := vendor.SubmitOrder(req);
            placed := placed + if r.Created? then 1 else 0;
            response := match r
              case Created(id, batch) => Response(200, Some(OrderRef(id, batch)))
              case Duplicate => Response(409, None)
              case Rejected => Response(400, None);
          case CancelCall(id) =>
            var known := id in vendor.orders;
            var ok := vendor.CancelOrder(id);
            response := if ok then Response(200, Some(Done)) else Response(if known then 400 else 404, None);
          case StatusCall(id) =>
            response := if id in vendor.orders then Response(200, Some(StatusIs(vendor.orders[id].status))) else Response(404, None);
          case BalanceCall =>
            response := Response(200, Some(Money(vendor.balanceCents)));
        }
      }
      reply := match fate
        case LostRequest => None
        case LostReply => None
        case TurnedAway(status) => Some(Response(status, None))
        case Mangled(status) => Some(Response(status, None))
        case Garbled => Some(response.(body := None))
        case Clean => Some(response);
    }

    /** The response branches of the loop body. */
    method HandleReply(c: Call, last: bool, reauthed: bool, a: Attempt, reply: Option<Response>)
      returns (finished: Option<Outcome>, reauthedNow: bool)
      modifies this`cachedToken
      ensures var turn := AfterSend(old(View()), configured, c, last, reauthed, a, reply);
        && View() == turn.world
        && (match turn case Finish(_, o) => finished == Some(o) case Again(_, r) => finished == None && reauthedNow == r)
    {
      reauthedNow := reauthed;
      if reply.None? {
        return None, reauthed;
      }
      var status := reply.value.status;
      if IsOk(status) {
        return if reply.value.body.Some? then Some(Success(reply.value.body.value)) else None, reauthed;
      }
      if status == 401 && !reauthed {
        reauthedNow := true;
        var again := Token(true, a.now, a.relogin);
        finished := if again.Stopped? then Some(again.outcome) else None;
        return;
      }
      if status == 409 && c.SubmitCall? {
        return Some(Conflict), reauthed;
      }
      if IsTransient(status) && !last {
        return None, reauthed;
      }
      return Some(Upstream(status, IsTransient(status))), reauthed;
    }

    /** The loop body: a token, one request, and what its reply means. */
    method Try(c: Call, last: bool, reauthed: bool, a: Attempt) returns (finished: Option<Outcome>, reauthedNow: bool)
      modifies this, vendor
      ensures var turn := OneAttempt(old(View()), configured, c, last, reauthed, a);
        && View() == turn.world
        && (match turn case Finish(_, o) => finished == Some(o) case Again(_, r) => finished == None && reauthedNow == r)
    {
      vendor.HandleAll(a.traffic);
      var have := Token(false, a.now, a.login);
      if have.Stopped? {
        return Some(have.outcome), reauthed;
      }
      if have.Retry? {
        return None, reauthed;
      }
      var reply := RawFetch(c, a.fate);
      finished, reauthedNow := HandleReply(c, last, reauthed, a, reply);
    }

    method Call(c: Call, retryable: bool, script: Script) returns (outcome: Outcome)
      modifies this, vendor
      ensures (View(), outcome) == FullCall(old(View()), configured, c, retryable, script)
    {
      var attempts := if retryable then MAX_RETRIES + 1 else 1;
      var reauthed := false;
      var k := 1;
      while k <= attempts
        invariant 1 <= k <= attempts + 1
        invariant CallFrom(View(), configured, c, k, attempts, reauthed, script)
               == FullCall(old(View()), configured, c, retryable, script)
      {
        var finished, reauthedNow := Try(c, k == attempts, reauthed, script(k));
        if finished.Some? {
          return finished.value;
        }
        reauthed := reauthedNow;
        k := k + 1;
      }
      return Unreachable;
    }

    method Submit(req: SubmitRequest, script: Script) returns (outcome: Outcome)
      modifies this, vendor
      ensures (View(), outcome) == SubmitOrder(old(View()), configured, req, script)
    {
      var orderRef := Trim(req.orderRef);
      if orderRef == "" {
        return NoReference;
      }
      outcome := Call(SubmitCall(req.(orderRef := orderRef)), true, script);
    }
  }

  // ---------------------------------------------------------------- what one call does

  /** One order of this reference and nothing else is new. */
  ghost predicate AtMostThatOrder(v: Vendor, w: Vendor, orderRef: string) {
    w == v || (
      && orderRef !in v.byOrderRef && orderRef in w.byOrderRef
      && w.byOrderRef == v.byOrderRef[orderRef := w.byOrderRef[orderRef]]
      && w.byOrderRef[orderRef] !in v.orders
      && w.byOrderRef[orderRef] in w.orders
      && w.orders == v.orders[w.byOrderRef[orderRef] := w.orders[w.byOrderRef[orderRef]]]
      && w.orders[w.byOrderRef[orderRef]].orderRef == orderRef
      && w.counts == v.counts)
  }

  /**
   * From w to t, requests for one reference were sent among other traffic: they placed at most the one
   * order of that reference, which was not there before.
   */
  ghost predicate AtMostOnePlaced(w: World, t: World, orderRef: string) {
    && Valid(t.vendor) && LaterThan(w.vendor, t.vendor)
    && w.placed <= t.placed <= w.placed + 1
    && (t.placed > w.placed ==> orderRef !in w.vendor.byOrderRef && orderRef in t.vendor.byOrderRef)
  }

  /** What the outcome says: success names the order this call placed, a conflict an order that exists. */
  ghost predicate Truthful(w: World, t: World, orderRef: string, outcome: Outcome) {
    && AtMostOnePlaced(w, t, orderRef)
    && (outcome.Success? ==>
          && outcome.body.OrderRef?
          && t.placed == w.placed + 1
          && t.vendor.byOrderRef[orderRef] == outcome.body.orderId
          && t.vendor.orders[outcome.body.orderId].orderRef == orderRef
          && t.vendor.orders[outcome.body.orderId].batchId == outcome.body.batchId)
    && (outcome.Conflict? ==> orderRef in t.vendor.byOrderRef)
  }

  lemma SendSubmits(w: World, req: SubmitRequest, fate: Fate)
    requires Valid(w.vendor) && Trim(req.orderRef) == req.orderRef
    ensures var t := Sent(w, SubmitCall(req), fate); var reply := Send(w.vendor, SubmitCall(req), fate).1;
      && AtMostOnePlaced(w, t, req.orderRef) && AtMostThatOrder(w.vendor, t.vendor, req.orderRef)
      && (reply.Some? && IsOk(reply.value.status) && reply.value.body.Some? ==>
            Truthful(w, t, req.orderRef, Success(reply.value.body.value)))
      && (reply.Some? && reply.value.status == 409 ==> req.orderRef in t.vendor.byOrderRef)
  {
    PerformKeeps(w.vendor, DoSubmit(req));
  }

  lemma TruthfulAfter(w: World, m: World, t: World, orderRef: string, outcome: Outcome)
    requires AtMostOnePlaced(w, m, orderRef) && Truthful(m, t, orderRef, outcome)
    ensures Truthful(w, t, orderRef, outcome)
  {
  }

  /** Only the send can touch the vendor, and only a readable success or a 409 ends the call as one. */
  lemma AfterSendReports(sent: World, configured: bool, c: Call, last: bool, reauthed: bool, a: Attempt, reply: Option<Response>)
    ensures var turn := AfterSend(sent, configured, c, last, reauthed, a, reply);
      && turn.world == sent.(cached := turn.world.cached)
      && (turn.Finish? && turn.outcome.Success? ==>
            reply.Some? && IsOk(reply.value.status) && reply.value.body == Some(turn.outcome.body))
      && (turn.Finish? && turn.outcome.Conflict? ==> reply.Some? && reply.value.status == 409)
  {
  }

  /** An attempt with a token: what its request placed, and what it reports. */
  lemma RequestIsTruthful(m: World, configured: bool, req: SubmitRequest, last: bool, reauthed: bool, a: Attempt)
    requires Valid(m.vendor) && Trim(req.orderRef) == req.orderRef
    ensures var sent, reply := Sent(m, SubmitCall(req), a.fate), Send(m.vendor, SubmitCall(req), a.fate).1;
      var turn := AfterSend(sent, configured, SubmitCall(req), last, reauthed, a, reply);
      && AtMostOnePlaced(m, turn.world, req.orderRef) && AtMostThatOrder(m.vendor, turn.world.vendor, req.orderRef)
      && (turn.Finish? ==> Truthful(m, turn.world, req.orderRef, turn.outcome))
  {
    var c := SubmitCall(req);
    SendSubmits(m, req, a.fate);
    AfterSendReports(Sent(m, c, a.fate), configured, c, last, reauthed, a, Send(m.vendor, c, a.fate).1);
  }

  lemma TrafficPlacesNothing(w: World, traffic: seq<Operation>, cached: Option<Token>, orderRef: string)
    requires Valid(w.vendor)
    ensures AtMostOnePlaced(w, Others(w, traffic).(cached := cached), orderRef)
    ensures Others(w, traffic).placed == w.placed
  {
    PerformAllKeeps(w.vendor, traffic);
  }

  lemma PlacedAfter(w: World, m: World, t: World, orderRef: string)
    requires AtMostOnePlaced(w, m, orderRef) && m.placed == w.placed && AtMostOnePlaced(m, t, orderRef)
    ensures AtMostOnePlaced(w, t, orderRef)
  {
  }

  lemma AttemptIsTruthful(w: World, configured: bool, req: SubmitRequest, last: bool, reauthed: bool, a: Attempt)
    requires Valid(w.vendor) && Trim(req.orderRef) == req.orderRef
    ensures var turn := OneAttempt(w, configured, SubmitCall(req), last, reauthed, a);
      && AtMostOnePlaced(w, turn.world, req.orderRef)
      && (turn.Finish? ==> Truthful(w, turn.world, req.orderRef, turn.outcome))
  {
    var (cached, have) := GetToken(w.cached, configured, false, a.now, a.login);
    var ready := Others(w, a.traffic).(cached := cached);
    TrafficPlacesNothing(w, a.traffic, cached, req.orderRef);
    if have.HaveToken? {
      RequestIsTruthful(ready, configured, req, last, reauthed, a);
      var turn := OneAttempt(w, configured, SubmitCall(req), last, reauthed, a);
      PlacedAfter(w, ready, turn.world, req.orderRef);
      if turn.Finish? {
        TruthfulAfter(w, ready, turn.world, req.orderRef, turn.outcome);
      }
    }
  }

  lemma QuietAttemptAddsOnlyThatOrder(w: World, configured: bool, req: SubmitRequest, last: bool, reauthed: bool, a: Attempt)
    requires Valid(w.vendor) && Trim(req.orderRef) == req.orderRef && a.traffic == []
    ensures AtMostThatOrder(w.vendor, OneAttempt(w, configured, SubmitCall(req), last, reauthed, a).world.vendor, req.orderRef)
  {
    var (cached, have) := GetToken(w.cached, configured, false, a.now, a.login);
    if have.HaveToken? {
      assert Others(w, a.traffic) == w;
      RequestIsTruthful(w.(cached := cached), configured, req, last, reauthed, a);
    }
  }

  lemma {:induction false} CallIsTruthful(w: World, configured: bool, req: SubmitRequest, k: nat, attempts: nat, reauthed: bool, script: Script)
    requires Valid(w.vendor) && Trim(req.orderRef) == req.orderRef
    ensures var (t, outcome) := CallFrom(w, configured, SubmitCall(req), k, attempts, reauthed, script);
      Truthful(w, t, req.orderRef, outcome)
    decreases attempts + 1 - k
  {
    if k <= attempts {
      AttemptIsTruthful(w, configured, req, k == attempts, reauthed, script(k));
      var turn := OneAttempt(w, configured, SubmitCall(req), k == attempts, reauthed, script(k));
      if turn.Again? {
        CallIsTruthful(turn.world, configured, req, k + 1, attempts, turn.reauthed, script);
        var (t, outcome) := CallFrom(turn.world, configured, SubmitCall(req), k + 1, attempts, turn.reauthed, script);
        TruthfulAfter(w, turn.world, t, req.orderRef, outcome);
      }
    }
  }

  /** Nobody else is served between this call's attempts. */
  ghost predicate Quiet(script: Script) {
    forall k :: script(k).traffic == []
  }

  lemma {:induction false} QuietCallAddsOnlyThatOrder(w: World, configured: bool, req: SubmitRequest, k: nat, attempts: nat, reauthed: bool, script: Script)
    requires Valid(w.vendor) && Trim(req.orderRef) == req.orderRef && Quiet(script)
    ensures AtMostThatOrder(w.vendor, CallFrom(w, configured, SubmitCall(req), k, attempts, reauthed, script).0.vendor, req.orderRef)
    decreases attempts + 1 - k
  {
    if k <= attempts {
      AttemptIsTruthful(w, configured, req, k == attempts, reauthed, script(k));
      QuietAttemptAddsOnlyThatOrder(w, configured, req, k == attempts, reauthed, script(k));
      var turn := OneAttempt(w, configured, SubmitCall(req), k == attempts, reauthed, script(k));
      if turn.Again? {
        QuietCallAddsOnlyThatOrder(turn.world, configured, req, k + 1, attempts, turn.reauthed, script);
      }
    }
  }

  lemma {:induction false} SendsBounded(w: World, configured: bool, c: Call, k: nat, attempts: nat, reauthed: bool, script: Script)
    requires 1 <= k <= attempts + 1
    ensures w.sends <= CallFrom(w, configured, c, k, attempts, reauthed, script).0.sends <= w.sends + attempts + 1 - k
    decreases attempts + 1 - k
  {
    if k <= attempts {
      AttemptSendsIff(w, configured, c, k == attempts, reauthed, script(k));
      var turn := OneAttempt(w, configured, c, k == attempts, reauthed, script(k));
      if turn.Again? {
        SendsBounded(turn.world, configured, c, k + 1, attempts, turn.reauthed, script);
      }
    }
  }

  // ---------------------------------------------------------------- main results

  ghost predicate NoTwins(v: Vendor) {
    forall a, b :: a in v.orders && b in v.orders && v.orders[a].orderRef == v.orders[b].orderRef ==> a == b
  }

  /**
   * Whatever is lost, refused, mangled, unreadable or delivered late, and whatever others have the vendor
   * do meanwhile: this call places at most the one order of its reference, a returned id is that order's,
   * a conflict means the order exists, no two orders share a reference, and no more than three requests
   * are sent. If no one else is served meanwhile, nothing else changes at the vendor.
   */
  lemma SubmissionIsAtMostOnce(w: World, configured: bool, req: SubmitRequest, script: Script)
    requires Valid(w.vendor)
    ensures var (t, outcome) := SubmitOrder(w, configured, req, script);
      && Truthful(w, t, Trim(req.orderRef), outcome)
      && NoTwins(t.vendor)
      && (Quiet(script) ==> AtMostThatOrder(w.vendor, t.vendor, Trim(req.orderRef)))
      && t.sends <= w.sends + MAX_RETRIES + 1
  {
    TrimIdempotent(req.orderRef);
    var orderRef := Trim(req.orderRef);
    if orderRef != "" {
      CallIsTruthful(w, configured, req.(orderRef := orderRef), 1, Attempts(true), false, script);
      SendsBounded(w, configured, SubmitCall(req.(orderRef := orderRef)), 1, Attempts(true), false, script);
      if Quiet(script) {
        QuietCallAddsOnlyThatOrder(w, configured, req.(orderRef := orderRef), 1, Attempts(true), false, script);
      }
    }
  }

  datatype Submission = Submission(configured: bool, req: SubmitRequest, script: Script, between: seq<Operation>)

  /** Any number of submissions, with other traffic at the vendor during and between them. */
  function SubmitAll(w: World, all: seq<Submission>): World
    decreases |all|
  {
    if all == [] then w
    else SubmitAll(Others(SubmitOrder(w, all[0].configured, all[0].req, all[0].script).0, all[0].between), all[1..])
  }

  /** Over a whole history of submissions an order once placed keeps its reference, and never gets a twin. */
  lemma {:induction false} HistoryKeepsOneOrder(w: World, all: seq<Submission>)
    requires Valid(w.vendor)
    ensures Valid(SubmitAll(w, all).vendor) && LaterThan(w.vendor, SubmitAll(w, all).vendor)
    ensures NoTwins(SubmitAll(w, all).vendor)
    decreases |all|
  {
    if all != [] {
      var t := SubmitOrder(w, all[0].configured, all[0].req, all[0].script).0;
      SubmissionIsAtMostOnce(w, all[0].configured, all[0].req, all[0].script);
      PerformAllKeeps(t.vendor, all[0].between);
      HistoryKeepsOneOrder(Others(t, all[0].between), all[1..]);
    }
  }

  /** Submitting a reference that already has an order places nothing and never reports success. */
  lemma ResubmittingChangesNothing(w: World, configured: bool, req: SubmitRequest, script: Script)
    requires Valid(w.vendor) && Trim(req.orderRef) in w.vendor.byOrderRef
    ensures var (t, outcome) := SubmitOrder(w, configured, req, script);
      && t.placed == w.placed && !outcome.Success?
      && Trim(req.orderRef) in t.vendor.byOrderRef
      && t.vendor.byOrderRef[Trim(req.orderRef)] == w.vendor.byOrderRef[Trim(req.orderRef)]
      && (Quiet(script) ==> t.vendor == w.vendor)
  {
    SubmissionIsAtMostOnce(w, configured, req, script);
  }

  /** What the token cache holds, and what the caller gets from it, at the start of an attempt. */
  function TokenAt(cached: Option<Token>, configured: bool, a: Attempt): (Option<Token>, TokenResult) {
    GetToken(cached, configured, false, a.now, a.login)
  }

  /** From attempt k on, some attempt gets a token before one is stopped for want of it. */
  predicate GetsToken(cached: Option<Token>, configured: bool, k: nat, attempts: nat, script: Script)
    decreases attempts + 1 - k
  {
    k <= attempts && match TokenAt(cached, configured, script(k)).1
      case HaveToken => true
      case Stopped(_) => false
      case Retry => GetsToken(TokenAt(cached, configured, script(k)).0, configured, k + 1, attempts, script)
  }

  /** An attempt sends exactly when it gets a token; without one it ends the call or goes round again. */
  lemma AttemptSendsIff(w: World, configured: bool, c: Call, last: bool, reauthed: bool, a: Attempt)
    ensures var turn := OneAttempt(w, configured, c, last, reauthed, a); var (cached, have) := TokenAt(w.cached, configured, a);
      && turn.world.sends == w.sends + (if have.HaveToken? then 1 else 0)
      && (have.Stopped? ==> turn.Finish?)
      && (have.Retry? ==> turn == Again(Others(w, a.traffic).(cached := cached), reauthed))
  {
    var m := Others(w, a.traffic);
    var cached := TokenAt(m.cached, configured, a).0;
    AfterSendReports(Sent(m.(cached := cached), c, a.fate), configured, c, last, reauthed, a, Send(m.vendor, c, a.fate).1);
  }

  /** What is left of a call sends anything if and only if it gets a token in time. */
  lemma {:induction false} SendsAtAllIff(w: World, configured: bool, c: Call, k: nat, attempts: nat, reauthed: bool, script: Script)
    requires 1 <= k
    ensures CallFrom(w, configured, c, k, attempts, reauthed, script).0.sends > w.sends
       <==> GetsToken(w.cached, configured, k, attempts, script)
    decreases attempts + 1 - k
  {
    if k <= attempts {
      AttemptSendsIff(w, configured, c, k == attempts, reauthed, script(k));
      var turn := OneAttempt(w, configured, c, k == attempts, reauthed, script(k));
      if turn.Again? {
        SendsBounded(turn.world, configured, c, k + 1, attempts, turn.reauthed, script);
        SendsAtAllIff(turn.world, configured, c, k + 1, attempts, turn.reauthed, script);
      }
    }
  }

  /**
   * A token is in hand exactly when the cached one is good for another minute or, failing that, a login
   * is granted. Without credentials, or when the vendor refuses the login, the call stops at once; a login
   * lost on the way or answered unreadably is tried again.
   */
  lemma TokenRule(cached: Option<Token>, configured: bool, force: bool, now: int, login: Login)
    ensures var (after, have) := GetToken(cached, configured, force, now, login);
      if !force && cached.Some? && cached.value.expiresAt > now + 60_000 then have == HaveToken && after == cached
      else if !configured then have == Stopped(NotConfigured) && after == cached
      else if login.LoginGranted? then have == HaveToken && after == Some(login.token)
      else after == cached && have == if login.LoginRefused? then Stopped(LoginFailed(login.status, login.status >= 500)) else Retry
  {
  }

  /** The answer of an attempt with a token, once its request is out. */
  function AnswerTo(w: World, c: Call, a: Attempt): Option<Response> {
    Send(PerformAll(w.vendor, a.traffic), c, a.fate).1
  }

  /**
   * What an error status means at attempt k, for a request that had a token, the first 401 of the call
   * and a submission's 409 aside. Of 500 and above, and of 429, the request is sent again if and only if
   * one of the attempts left gets a token; with none left, the call fails as worth retrying. Any other
   * status ends it at once.
   */
  lemma {:induction false} ErrorAnswer(w: World, configured: bool, c: Call, k: nat, attempts: nat, reauthed: bool, script: Script)
    requires 1 <= k <= attempts && TokenAt(w.cached, configured, script(k)).1.HaveToken? && AnswerTo(w, c, script(k)).Some?
    requires var status := AnswerTo(w, c, script(k)).value.status;
      !(200 <= status < 300) && !(status == 401 && !reauthed) && !(status == 409 && c.SubmitCall?)
    ensures var status, (t, outcome) := AnswerTo(w, c, script(k)).value.status, CallFrom(w, configured, c, k, attempts, reauthed, script);
      if status >= 500 || status == 429 then
        && (t.sends >= w.sends + 2 <==> GetsToken(TokenAt(w.cached, configured, script(k)).0, configured, k + 1, attempts, script))
        && (k == attempts ==> outcome == Upstream(status, true) && t.sends == w.sends + 1)
      else outcome == Upstream(status, false) && t.sends == w.sends + 1
  {
    AttemptSendsIff(w, configured, c, k == attempts, reauthed, script(k));
    var turn := OneAttempt(w, configured, c, k == attempts, reauthed, script(k));
    if turn.Again? {
      SendsAtAllIff(turn.world, configured, c, k + 1, attempts, turn.reauthed, script);
    }
  }

  /** The other answers: a conflict and a readable success end the call; a lost reply or an unreadable one goes round again. */
  lemma {:induction false} OtherAnswers(w: World, configured: bool, c: Call, k: nat, attempts: nat, reauthed: bool, script: Script)
    requires 1 <= k <= attempts && TokenAt(w.cached, configured, script(k)).1.HaveToken?
    ensures var reply, (t, outcome) := AnswerTo(w, c, script(k)), CallFrom(w, configured, c, k, attempts, reauthed, script);
      && (reply.Some? && reply.value.status == 409 && c.SubmitCall? ==> outcome == Conflict && t.sends == w.sends + 1)
      && (reply.Some? && 200 <= reply.value.status < 300 && reply.value.body.Some? ==>
            outcome == Success(reply.value.body.value) && t.sends == w.sends + 1)
      && (reply.None? || (200 <= reply.value.status < 300 && reply.value.body.None?) ==>
            && (t.sends >= w.sends + 2 <==> GetsToken(TokenAt(w.cached, configured, script(k)).0, configured, k + 1, attempts, script))
            && (k == attempts ==> outcome == Unreachable))
    ensures forall status :: IsOk(status) <==> 200 <= status < 300
  {
    AttemptSendsIff(w, configured, c, k == attempts, reauthed, script(k));
    var turn := OneAttempt(w, configured, c, k == attempts, reauthed, script(k));
    if turn.Again? {
      SendsAtAllIff(turn.world, configured, c, k + 1, attempts, turn.reauthed, script);
    }
  }

  /** What the vendor is asked and not refused comes back as it is there; what it refuses is an error not worth retrying. */
  lemma {:induction false} AnsweredCalls(w: World, c: Call, k: nat, attempts: nat, script: Script)
    requires 1 <= k <= attempts && TokenAt(w.cached, true, script(k)).1.HaveToken?
    requires script(k).fate.Clean? && script(k).traffic == []
    ensures var v, (t, outcome) := w.vendor, CallFrom(w, true, c, k, attempts, false, script);
      match c
      case SubmitCall(req) =>
        var ref := Trim(req.orderRef);
        if ref != "" && ref in v.byOrderRef then outcome == Conflict && t.vendor == v
        else if Submit(v, req).1.Created? then outcome.Success? && t.vendor == Submit(v, req).0
        else outcome.Upstream? && !outcome.retryable && t.vendor == v
      case CancelCall(id) =>
        if id in v.orders && !v.orders[id].batchClosed
        then outcome == Success(Done) && t.vendor == v.(orders := v.orders[id := v.orders[id].(status := Canceled)])
        else outcome.Upstream? && !outcome.retryable && t.vendor == v
      case StatusCall(id) =>
        && t.vendor == v
        && (if id in v.orders then outcome == Success(StatusIs(v.orders[id].status)) else outcome.Upstream? && !outcome.retryable)
      case BalanceCall => t.vendor == v && outcome == Success(Money(v.balanceCents))
  {
    var turn := OneAttempt(w, true, c, k == attempts, false, script(k));
    assert Others(w, script(k).traffic) == w;
    assert turn.Finish?;
  }

  /** The request never reached the vendor: lost, or turned away with 500 or more, or 429. */
  predicate TransientlyUnserved(fate: Fate) {
    fate.LostRequest? || (fate.TurnedAway? && (fate.status >= 500 || fate.status == 429))
  }

  /** The vendor served the request, and the caller cannot tell: a lost reply, a transient status, an unreadable body. */
  predicate TransientlyUnanswered(fate: Fate) {
    fate.LostReply? || fate.Garbled? || (fate.Mangled? && (fate.status >= 500 || fate.status == 429))
  }

  /** One token is good for the attempts from k to m. */
  ghost predicate GoodFor(w: World, script: Script, k: nat, m: nat) {
    w.cached.Some? && forall j :: k <= j <= m ==> w.cached.value.expiresAt > script(j).now + 60_000
  }

  /**
   * Retrying overcomes transient failures: however many requests did not reach the vendor, the first one
   * that is served and answered within the attempts places the order and returns it.
   */
  lemma {:induction false} TransientFailuresAreOvercome(w: World, req: SubmitRequest, k: nat, m: nat, attempts: nat, script: Script)
    requires 1 <= k <= m <= attempts && Quiet(script) && GoodFor(w, script, k, m)
    requires forall j :: k <= j < m ==> TransientlyUnserved(script(j).fate)
    requires script(m).fate.Clean? && Submit(w.vendor, req).1.Created?
    ensures var (t, outcome) := CallFrom(w, true, SubmitCall(req), k, attempts, false, script); var reply := Submit(w.vendor, req).1;
      && outcome == Success(OrderRef(reply.orderId, reply.batchId))
      && t.vendor == Submit(w.vendor, req).0 && t.sends == w.sends + m + 1 - k
    decreases m - k
  {
    assert script(k).traffic == [];
    if k < m {
      var turn := OneAttempt(w, true, SubmitCall(req), k == attempts, false, script(k));
      assert TransientlyUnserved(script(k).fate);
      assert turn == Again(w.(sends := w.sends + 1), false);
      TransientFailuresAreOvercome(turn.world, req, k + 1, m, attempts, script);
    }
  }

  /** If the vendor served one of them after all, the first one that is answered reports the conflict: the order is there. */
  lemma {:induction false} UnansweredOrderIsAConflict(w: World, req: SubmitRequest, k: nat, m: nat, attempts: nat, script: Script)
    requires 1 <= k <= m <= attempts && Quiet(script) && GoodFor(w, script, k, m)
    requires forall j :: k <= j < m ==> TransientlyUnserved(script(j).fate) || TransientlyUnanswered(script(j).fate)
    requires script(m).fate.Clean? && Trim(req.orderRef) != ""
    requires Trim(req.orderRef) in w.vendor.byOrderRef
             || (Submit(w.vendor, req).1.Created? && exists j :: k <= j < m && TransientlyUnanswered(script(j).fate))
    ensures var (t, outcome) := CallFrom(w, true, SubmitCall(req), k, attempts, false, script);
      outcome == Conflict && Trim(req.orderRef) in t.vendor.byOrderRef && t.sends <= w.sends + m + 1 - k
    decreases m - k
  {
    var turn := OneAttempt(w, true, SubmitCall(req), k == attempts, false, script(k));
    if k == m {
      KnownReference(w, req, k == attempts, script(k));
    } else if Trim(req.orderRef) in w.vendor.byOrderRef {
      KnownReference(w, req, false, script(k));
      if turn.Again? {
        UnansweredOrderIsAConflict(turn.world, req, k + 1, m, attempts, script);
      }
    } else {
      NewReference(w, req, script(k));
      UnansweredOrderIsAConflict(turn.world, req, k + 1, m, attempts, script);
    }
  }

  /** An attempt for a reference that has an order: refused as a duplicate, or it learns nothing. */
  lemma KnownReference(w: World, req: SubmitRequest, last: bool, a: Attempt)
    requires w.cached.Some? && w.cached.value.expiresAt > a.now + 60_000 && a.traffic == []
    requires Trim(req.orderRef) != "" && Trim(req.orderRef) in w.vendor.byOrderRef
    requires a.fate.Clean? || (!last && (TransientlyUnserved(a.fate) || TransientlyUnanswered(a.fate)))
    ensures var turn, sent := OneAttempt(w, true, SubmitCall(req), last, false, a), w.(sends := w.sends + 1);
      if a.fate.Clean? || a.fate.Garbled? then turn == Finish(sent, Conflict) else turn == Again(sent, false)
  {
  }

  /** An attempt for a new one that is not answered: the vendor has the order now, or never saw it. */
  lemma NewReference(w: World, req: SubmitRequest, a: Attempt)
    requires w.cached.Some? && w.cached.value.expiresAt > a.now + 60_000 && a.traffic == []
    requires Submit(w.vendor, req).1.Created? && (TransientlyUnserved(a.fate) || TransientlyUnanswered(a.fate))
    ensures OneAttempt(w, true, SubmitCall(req), false, false, a)
         == if TransientlyUnserved(a.fate) then Again(w.(sends := w.sends + 1), false)
            else Again(World(Submit(w.vendor, req).0, w.cached, w.sends + 1, w.placed + 1), false)
  {
  }

  /** The attempt has a token, and its request, processed or not, is answered 401. */
  predicate Answered401(cached: Option<Token>, a: Attempt) {
    TokenAt(cached, true, a).1.HaveToken? && (a.fate == TurnedAway(401) || a.fate == Mangled(401))
  }

  /** The world after such an attempt. */
  function After401(w: World, c: Call, a: Attempt): World {
    Sent(Others(w, a.traffic).(cached := TokenAt(w.cached, true, a).0), c, a.fate)
  }

  lemma Turn401(w: World, c: Call, last: bool, reauthed: bool, a: Attempt)
    requires Answered401(w.cached, a)
    ensures var turn, sent := OneAttempt(w, true, c, last, reauthed, a), After401(w, c, a);
      var (renewed, again) := GetToken(sent.cached, true, true, a.now, a.relogin);
      && sent.sends == w.sends + 1
      && (reauthed ==> turn == Finish(sent, Upstream(401, false)))
      && (!reauthed && again.Stopped? ==> turn == Finish(sent.(cached := renewed), again.outcome))
      && (!reauthed && !again.Stopped? ==> turn == Again(sent.(cached := renewed), true))
  {
  }

  /**
   * After a 401 at any attempt, the operation is sent again if and only if it is the first 401 of the
   * call, the re-login is not refused, and one of the attempts left gets a token.
   */
  lemma {:induction false} SentAgainAfter401(w: World, c: Call, k: nat, attempts: nat, reauthed: bool, script: Script)
    requires 1 <= k <= attempts && Answered401(w.cached, script(k))
    ensures var (renewed, again) := GetToken(After401(w, c, script(k)).cached, true, true, script(k).now, script(k).relogin);
      CallFrom(w, true, c, k, attempts, reauthed, script).0.sends >= w.sends + 2
      <==> !reauthed && !again.Stopped? && GetsToken(renewed, true, k + 1, attempts, script)
  {
    Turn401(w, c, k == attempts, reauthed, script(k));
    var turn := OneAttempt(w, true, c, k == attempts, reauthed, script(k));
    if turn.Again? {
      SendsAtAllIff(turn.world, true, c, k + 1, attempts, true, script);
    }
  }

  /**
   * With the re-login granted and the new token good for the next attempt, the operation is sent again
   * after its first 401 if and only if an attempt is left. (gateway.ts:158-162 says it always is.)
   */
  lemma {:induction false} SentAgainAfter401Iff(w: World, c: Call, k: nat, attempts: nat, script: Script)
    requires 1 <= k <= attempts && Answered401(w.cached, script(k)) && script(k).relogin.LoginGranted?
    requires script(k).relogin.token.expiresAt > script(k + 1).now + TOKEN_SKEW_MS
    ensures CallFrom(w, true, c, k, attempts, false, script).0.sends >= w.sends + 2 <==> k < attempts
  {
    SentAgainAfter401(w, c, k, attempts, false, script);
  }

  /** A call that is not retryable has no attempt left: with a new token in hand it reports the vendor unreachable. */
  lemma Unauthorised401EndsSingleCall(w: World, c: Call, script: Script)
    requires Answered401(w.cached, script(1)) && script(1).relogin.LoginGranted?
    ensures FullCall(w, true, c, false, script)
         == (After401(w, c, script(1)).(cached := Some(script(1).relogin.token)), Unreachable)
  {
    Turn401(w, c, true, false, script(1));
  }

  /** Nor has a retryable one whose first two requests were lost: the third is answered 401, and that is the end of it. */
  lemma Late401EndsRetryableCall(w: World, c: Call, script: Script)
    requires w.cached.Some? && Quiet(script)
    requires forall k :: 1 <= k <= 3 ==> w.cached.value.expiresAt > script(k).now + TOKEN_SKEW_MS
    requires script(1).fate == script(2).fate == LostRequest && script(3).fate == TurnedAway(401)
    requires script(3).relogin.LoginGranted?
    ensures FullCall(w, true, c, true, script)
         == (w.(cached := Some(script(3).relogin.token), sends := w.sends + 3), Unreachable)
  {
    var t1, t2 := w.(sends := w.sends + 1), w.(sends := w.sends + 2);
    LostRequestGoesAgain(w, c, script(1));
    LostRequestGoesAgain(t1, c, script(2));
    Turn401(t2, c, true, false, script(3));
    var t3 := w.(cached := Some(script(3).relogin.token), sends := w.sends + 3);
    assert OneAttempt(t2, true, c, true, false, script(3)) == Again(t3, true);
    assert CallFrom(t3, true, c, 4, 3, true, script) == (t3, Unreachable);
    assert CallFrom(t2, true, c, 3, 3, false, script) == (t3, Unreachable);
    assert CallFrom(t1, true, c, 2, 3, false, script) == (t3, Unreachable);
  }

  lemma LostRequestGoesAgain(w: World, c: Call, a: Attempt)
    requires w.cached.Some? && w.cached.value.expiresAt > a.now + TOKEN_SKEW_MS && a.traffic == [] && a.fate == LostRequest
    ensures OneAttempt(w, true, c, false, false, a) == Again(w.(sends := w.sends + 1), false)
  {
  }

  /** A call that is not retryable sends at most once, whatever happens. */
  lemma SingleCallSendsOnce(w: World, configured: bool, c: Call, script: Script)
    ensures FullCall(w, configured, c, false, script).0.sends <= w.sends + 1
  {
    SendsBounded(w, configured, c, 1, 1, false, script);
  }

  /** Why a failed submission proves nothing: every reply is lost, and the order exists all the same. */
  lemma UnreachableMayHavePlacedTheOrder(w: World, req: SubmitRequest, script: Script)
    requires Valid(w.vendor) && w.cached.Some? && Quiet(script)
    requires Trim(req.orderRef) == req.orderRef && Submit(w.vendor, req).1.Created?
    requires forall k :: script(k).fate == LostReply && w.cached.value.expiresAt > script(k).now + TOKEN_SKEW_MS
    ensures var (t, outcome) := SubmitOrder(w, true, req, script);
      outcome == Unreachable && req.orderRef in t.vendor.byOrderRef && t.sends == w.sends + 3 && t.placed == w.placed + 1
  {
    var c := SubmitCall(req);
    var t1 := World(Submit(w.vendor, req).0, w.cached, w.sends + 1, w.placed + 1);
    LostReplyGoesAgain(w, c, false, script(1));
    assert Submit(t1.vendor, req) == (t1.vendor, Duplicate);
    var t2 := t1.(sends := w.sends + 2);
    LostReplyGoesAgain(t1, c, false, script(2));
    var t3 := t1.(sends := w.sends + 3);
    LostReplyGoesAgain(t2, c, true, script(3));
    assert CallFrom(t3, true, c, 4, 3, false, script) == (t3, Unreachable);
    assert CallFrom(t2, true, c, 3, 3, false, script) == (t3, Unreachable);
    assert CallFrom(t1, true, c, 2, 3, false, script) == (t3, Unreachable);
  }

  lemma LostReplyGoesAgain(w: World, c: Call, last: bool, a: Attempt)
    requires w.cached.Some? && w.cached.value.expiresAt > a.now + TOKEN_SKEW_MS && a.traffic == [] && a.fate == LostReply
    ensures OneAttempt(w, true, c, last, false, a) == Again(Sent(w, c, LostReply), false)
  {
  }
}
