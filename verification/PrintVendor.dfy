/**
 * The print vendor as the fake specifies it (src/integrations/print/fake.ts): duplicate order
 * references are rejected, a batch closes once, and cancellation is refused after that. Ids are the
 * sequence numbers behind the padded strings.
 */
module PrintVendor {
  import opened Wrappers

  datatype Status = Preparing | Printing | Mailed | Canceled | Undeliverable | Failed | PaymentHold

  datatype FakeOrder = FakeOrder(batchId: nat, orderRef: string, status: Status, batchClosed: bool)

  datatype Audience = Areas(keys: seq<string>) | Radius(details: bool)

  datatype SubmitRequest = SubmitRequest(orderRef: string, listCountId: nat, recordCount: nat, front: string, back: string)

  datatype Vendor = Vendor(orders: map<nat, FakeOrder>, byOrderRef: map<string, nat>, counts: map<nat, nat>,
                           lastId: nat, balanceCents: int)

  datatype Reply = Created(orderId: nat, batchId: nat) | Duplicate | Rejected

  // ---------------------------------------------------------------- trimming references

  predicate IsSpace(c: char) {
    c in {'\t', '\n', '\U{000B}', '\U{000C}', '\r', ' ', '\U{00A0}', '\U{1680}', '\U{2028}', '\U{2029}', '\U{202F}',
          '\U{205F}', '\U{3000}', '\U{FEFF}'} || '\U{2000}' <= c <= '\U{200A}'
  }

  function TrimStart(s: string): string {
    if s != [] && IsSpace(s[0]) then TrimStart(s[1..]) else s
  }

  function TrimEnd(s: string): string {
    if s != [] && IsSpace(s[|s| - 1]) then TrimEnd(s[..|s| - 1]) else s
  }

  function Trim(s: string): string {
    TrimEnd(TrimStart(s))
  }

  lemma {:induction false} TrimEndKeepsStart(s: string)
    ensures TrimEnd(s) != [] ==> s != [] && TrimEnd(s)[0] == s[0]
    ensures TrimEnd(TrimEnd(s)) == TrimEnd(s)
  {
    if s != [] && IsSpace(s[|s| - 1]) {
      TrimEndKeepsStart(s[..|s| - 1]);
    }
  }

  lemma {:induction false} TrimStartStops(s: string)
    ensures TrimStart(s) != [] ==> !IsSpace(TrimStart(s)[0])
  {
    if s != [] && IsSpace(s[0]) {
      TrimStartStops(s[1..]);
    }
  }

  /** Trimming cuts off the white space at both ends, all of it and nothing else. */
  lemma {:induction false} TrimCutsTheEnds(s: string) returns (i: nat, j: nat)
    ensures i <= j <= |s| && Trim(s) == s[i..j]
    ensures (forall k :: 0 <= k < i || j <= k < |s| ==> IsSpace(s[k]))
    ensures Trim(s) != "" ==> !IsSpace(Trim(s)[0]) && !IsSpace(Trim(s)[|Trim(s)| - 1])
  {
    i := StartCut(s);
    var rest := s[i..];
    var n := EndCut(rest);
    j := i + n;
    assert rest[..n] == s[i..j];
    forall k | j <= k < |s| ensures IsSpace(s[k]) {
      assert s[k] == rest[k - i];
    }
    TrimStartStops(s);
    TrimEndKeepsStart(TrimStart(s));
  }

  lemma {:induction false} StartCut(s: string) returns (i: nat)
    ensures i <= |s| && TrimStart(s) == s[i..] && forall k :: 0 <= k < i ==> IsSpace(s[k])
  {
    if s != [] && IsSpace(s[0]) {
      var m := StartCut(s[1..]);
      i := m + 1;
      assert s[1..][m..] == s[i..];
      forall k | 0 <= k < i ensures IsSpace(s[k]) {
        assert k == 0 || s[k] == s[1..][k - 1];
      }
    } else {
      i := 0;
    }
  }

  lemma {:induction false} EndCut(s: string) returns (n: nat)
    ensures n <= |s| && TrimEnd(s) == s[..n] && forall k :: n <= k < |s| ==> IsSpace(s[k])
    ensures n > 0 ==> !IsSpace(s[n - 1])
  {
    if s != [] && IsSpace(s[|s| - 1]) {
      var front := s[..|s| - 1];
      n := EndCut(front);
      assert front[..n] == s[..n];
      forall k | n <= k < |s| ensures IsSpace(s[k]) {
        assert k == |s| - 1 || s[k] == front[k];
      }
    } else {
      n := |s|;
      assert s[..n] == s;
    }
  }

  /** The gateway and the vendor both trim, and agree on the reference. */
  lemma TrimIdempotent(s: string)
    ensures Trim(Trim(s)) == Trim(s)
  {
    TrimStartStops(s);
    TrimEndKeepsStart(TrimStart(s));
  }

  // ---------------------------------------------------------------- operations on the vendor's state

  function CreateCount(v: Vendor, a: Audience): (Vendor, Option<nat>) {
    if (match a case Areas(keys) => keys == [] case Radius(details) => !details) then (v, None)
    else
      var id := v.lastId + 1;
      var records := match a case Areas(keys) => 1_000 * |keys| case Radius(_) => 2_500;
      (v.(counts := v.counts[id := records], lastId := id), Some(id))
  }

  function Submit(v: Vendor, req: SubmitRequest): (Vendor, Reply) {
    var orderRef := Trim(req.orderRef);
    if orderRef == "" then (v, Rejected)
    else if orderRef in v.byOrderRef then (v, Duplicate)
    else if req.listCountId !in v.counts || req.recordCount != v.counts[req.listCountId]
            || req.front == "" || req.back == "" then (v, Rejected)
    else
      var orderId, batchId := v.lastId + 1, v.lastId + 2;
      (v.(orders := v.orders[orderId := FakeOrder(batchId, orderRef, Preparing, false)],
          byOrderRef := v.byOrderRef[orderRef := orderId],
          lastId := batchId,
          balanceCents := v.balanceCents - req.recordCount * 40),
       Created(orderId, batchId))
  }

  function Cancel(v: Vendor, id: nat): (Vendor, bool) {
    if id !in v.orders || v.orders[id].batchClosed then (v, false)
    else (v.(orders := v.orders[id := v.orders[id].(status := Canceled)]), true)
  }

  /** Position in the fulfilment pipeline; -1 off it. */
  function Position(s: Status): int {
    match s
    case Preparing => 0
    case Printing => 1
    case Mailed => 2
    case _ => -1
  }

  function Advance(v: Vendor, id: nat, to: Status): (Vendor, bool) {
    if id !in v.orders then (v, false)
    else
      var order := v.orders[id];
      var from, next := Position(order.status), Position(to);
      if from >= 0 && next >= 0 && next < from then (v, false)
      else (v.(orders := v.orders[id := order.(status := to, batchClosed := order.batchClosed || next >= 1)]), true)
  }

  function CloseBatch(v: Vendor, id: nat): (Vendor, bool) {
    if id !in v.orders then (v, false)
    else (v.(orders := v.orders[id := v.orders[id].(batchClosed := true)]), true)
  }

  datatype Operation =
    | DoCount(audience: Audience)
    | DoSubmit(req: SubmitRequest)
    | DoCancel(id: nat)
    | DoAdvance(id: nat, to: Status)
    | DoCloseBatch(id: nat)

  function Perform(v: Vendor, op: Operation): Vendor {
    match op
    case DoCount(a) => CreateCount(v, a).0
    case DoSubmit(req) => Submit(v, req).0
    case DoCancel(id) => Cancel(v, id).0
    case DoAdvance(id, to) => Advance(v, id, to).0
    case DoCloseBatch(id) => CloseBatch(v, id).0
  }

  function PerformAll(v: Vendor, ops: seq<Operation>): Vendor
    decreases |ops|
  {
    if ops == [] then v else PerformAll(Perform(v, ops[0]), ops[1..])
  }

  // ---------------------------------------------------------------- what every operation keeps

  /** References and orders name each other; ids are never reused; what is at the press has a closed batch. */
  ghost predicate Valid(v: Vendor) {
    && (forall r :: r in v.byOrderRef ==> v.byOrderRef[r] in v.orders && v.orders[v.byOrderRef[r]].orderRef == r)
    && (forall id :: id in v.orders ==>
          && v.orders[id].orderRef in v.byOrderRef && v.byOrderRef[v.orders[id].orderRef] == id
          && v.orders[id].orderRef != ""
          && id <= v.lastId && v.orders[id].batchId <= v.lastId
          && (Position(v.orders[id].status) >= 1 ==> v.orders[id].batchClosed))
    && (forall id :: id in v.counts ==> id <= v.lastId)
  }

  /** w is v some operations later: orders keep their id, reference and batch, and a closed batch stays closed. */
  ghost predicate LaterThan(v: Vendor, w: Vendor) {
    && v.lastId <= w.lastId
    && (forall r :: r in v.byOrderRef ==> r in w.byOrderRef && w.byOrderRef[r] == v.byOrderRef[r])
    && (forall id :: id in v.orders ==>
          && id in w.orders
          && w.orders[id].orderRef == v.orders[id].orderRef && w.orders[id].batchId == v.orders[id].batchId
          && (v.orders[id].batchClosed ==> w.orders[id].batchClosed))
  }

  lemma SubmitKeeps(v: Vendor, req: SubmitRequest)
    requires Valid(v)
    ensures Valid(Submit(v, req).0) && LaterThan(v, Submit(v, req).0)
  {
    var w := Submit(v, req).0;
    if w != v {
      forall r | r in w.byOrderRef ensures w.byOrderRef[r] in w.orders && w.orders[w.byOrderRef[r]].orderRef == r {
      }
    }
  }

  lemma UpdateKeeps(v: Vendor, id: nat, order: FakeOrder)
    requires Valid(v) && id in v.orders
    requires order.orderRef == v.orders[id].orderRef && order.batchId == v.orders[id].batchId
    requires v.orders[id].batchClosed || Position(order.status) >= 1 ==> order.batchClosed
    ensures var w := v.(orders := v.orders[id := order]); Valid(w) && LaterThan(v, w)
  {
  }

  lemma PerformKeeps(v: Vendor, op: Operation)
    requires Valid(v)
    ensures Valid(Perform(v, op)) && LaterThan(v, Perform(v, op))
  {
    var w := Perform(v, op);
    if w != v {
      match op
      case DoCount(_) =>
      case DoSubmit(req) => SubmitKeeps(v, req);
      case DoCancel(id) => UpdateKeeps(v, id, w.orders[id]);
      case DoAdvance(id, _) => UpdateKeeps(v, id, w.orders[id]);
      case DoCloseBatch(id) => UpdateKeeps(v, id, w.orders[id]);
    }
  }

  lemma {:induction false} PerformAllKeeps(v: Vendor, ops: seq<Operation>)
    requires Valid(v)
    ensures Valid(PerformAll(v, ops)) && LaterThan(v, PerformAll(v, ops))
    decreases |ops|
  {
    if ops != [] {
      PerformKeeps(v, ops[0]);
      PerformAllKeeps(Perform(v, ops[0]), ops[1..]);
    }
  }

  /** However many callers' operations interleave, no reference ever has two orders, nor changes its order. */
  lemma {:induction false} OneOrderPerReference(v: Vendor, ops: seq<Operation>, a: nat, b: nat)
    requires Valid(v)
    requires a in PerformAll(v, ops).orders && b in PerformAll(v, ops).orders
    requires PerformAll(v, ops).orders[a].orderRef == PerformAll(v, ops).orders[b].orderRef
    ensures a == b
    ensures a in v.orders ==> PerformAll(v, ops).orders[a].orderRef == v.orders[a].orderRef
  {
    PerformAllKeeps(v, ops);
  }

  /** A submission is accepted at most once: repeated any time later it is a duplicate that costs nothing. */
  lemma {:induction false} ResubmissionIsFree(v: Vendor, req: SubmitRequest, ops: seq<Operation>, again: SubmitRequest)
    requires Valid(v) && Submit(v, req).1.Created? && Trim(again.orderRef) == Trim(req.orderRef)
    ensures var w := PerformAll(Submit(v, req).0, ops); Submit(w, again) == (w, Duplicate)
  {
    PerformKeeps(v, DoSubmit(req));
    PerformAllKeeps(Submit(v, req).0, ops);
  }

  /**
   * A submission is accepted exactly when its reference is new and not blank, its count is known and
   * agreed on, and both sides have artwork. It then stands under fresh ids, in preparation and with its
   * batch open, and costs 40 cents a piece. Otherwise nothing happens.
   */
  lemma AcceptedIff(v: Vendor, req: SubmitRequest)
    ensures var ref, (w, reply) := Trim(req.orderRef), Submit(v, req);
      && (reply.Created? <==>
            && ref != "" && ref !in v.byOrderRef && req.front != "" && req.back != ""
            && req.listCountId in v.counts && v.counts[req.listCountId] == req.recordCount)
      && (reply.Duplicate? <==> ref != "" && ref in v.byOrderRef)
      && (!reply.Created? ==> w == v)
      && (reply.Created? ==>
            && v.lastId < reply.orderId && v.lastId < reply.batchId && reply.orderId != reply.batchId
            && w.orders == v.orders[reply.orderId := FakeOrder(reply.batchId, ref, Preparing, false)]
            && w.byOrderRef == v.byOrderRef[ref := reply.orderId] && w.counts == v.counts
            && w.balanceCents == v.balanceCents - 40 * req.recordCount
            && reply.orderId <= w.lastId && reply.batchId <= w.lastId)
  {
  }

  /** A count of the records of a selection: a thousand an area, 2,500 a radius; none for an empty selection. */
  lemma CountIff(v: Vendor, a: Audience)
    ensures var (w, id) := CreateCount(v, a);
      && (id == None <==> (a.Areas? && a.keys == []) || (a.Radius? && !a.details))
      && (id == None ==> w == v)
      && (id.Some? ==>
            && v.lastId < id.value <= w.lastId
            && w == v.(counts := v.counts[id.value := if a.Areas? then 1_000 * |a.keys| else 2_500], lastId := w.lastId))
  {
  }

  /** What the accepted submissions among the operations ordered, in pieces. */
  function PiecesOrdered(v: Vendor, ops: seq<Operation>): int
    decreases |ops|
  {
    if ops == [] then 0
    else (if ops[0].DoSubmit? && Submit(v, ops[0].req).1.Created? then ops[0].req.recordCount else 0)
         + PiecesOrdered(Perform(v, ops[0]), ops[1..])
  }

  /** The balance pays for what was ordered, at 40 cents a piece, and for nothing else. */
  lemma {:induction false} BalancePaysForOrders(v: Vendor, ops: seq<Operation>)
    ensures PerformAll(v, ops).balanceCents == v.balanceCents - 40 * PiecesOrdered(v, ops)
    decreases |ops|
  {
    if ops != [] {
      BalancePaysForOrders(Perform(v, ops[0]), ops[1..]);
    }
  }

  /** The operation sends this order to the press. */
  predicate Closes(op: Operation, id: nat) {
    (op.DoCloseBatch? && op.id == id) || (op.DoAdvance? && op.id == id && (op.to.Printing? || op.to.Mailed?))
  }

  lemma OpenUnlessClosed(v: Vendor, op: Operation, id: nat)
    requires Valid(v) && id in v.orders && !v.orders[id].batchClosed
    ensures id in Perform(v, op).orders && (Perform(v, op).orders[id].batchClosed <==> Closes(op, id))
  {
    if op.DoSubmit? {
      assert id < v.lastId + 1;
    } else if op.DoAdvance? && op.id == id {
      AdvanceRefusedIff(v, id, op.to);
    }
  }

  /** An order whose batch is open can still be canceled, after any operations, if and only if none of them closed it. */
  lemma {:induction false} CancellableIff(v: Vendor, ops: seq<Operation>, id: nat)
    requires Valid(v) && id in v.orders && !v.orders[id].batchClosed
    ensures var w := PerformAll(v, ops);
      && id in w.orders
      && (Cancel(w, id).1 <==> forall k :: 0 <= k < |ops| ==> !Closes(ops[k], id))
      && (Cancel(w, id).1 ==> Cancel(w, id).0 == w.(orders := w.orders[id := w.orders[id].(status := Canceled)]))
    decreases |ops|
  {
    PerformAllKeeps(v, ops);
    if ops != [] {
      var m := Perform(v, ops[0]);
      PerformKeeps(v, ops[0]);
      OpenUnlessClosed(v, ops[0], id);
      if Closes(ops[0], id) {
        ClosedBatchStaysClosed(m, ops[1..], id);
      } else {
        CancellableIff(m, ops[1..], id);
        NoneInTail(ops, id);
      }
    }
  }

  lemma {:induction false} NoneInTail(ops: seq<Operation>, id: nat)
    requires ops != [] && !Closes(ops[0], id)
    ensures (forall k :: 0 <= k < |ops| ==> !Closes(ops[k], id)) <==> (forall k :: 0 <= k < |ops[1..]| ==> !Closes(ops[1..][k], id))
  {
    forall k | 0 <= k < |ops| ensures k > 0 ==> ops[k] == ops[1..][k - 1] {
    }
    assert forall k :: 0 <= k < |ops[1..]| ==> ops[1..][k] == ops[k + 1];
    if forall k :: 0 <= k < |ops[1..]| ==> !Closes(ops[1..][k], id) {
      forall k | 0 <= k < |ops| ensures !Closes(ops[k], id) {
        assert k == 0 || ops[k] == ops[1..][k - 1];
      }
    }
  }

  /** Once the batch has closed, no sequence of operations makes the order cancellable again. */
  lemma {:induction false} ClosedBatchStaysClosed(v: Vendor, ops: seq<Operation>, id: nat)
    requires Valid(v) && id in v.orders && v.orders[id].batchClosed
    ensures !Cancel(PerformAll(v, ops), id).1
  {
    PerformAllKeeps(v, ops);
  }

  /** An order is refused an advance if and only if that would be a step back within the pipeline. */
  lemma AdvanceRefusedIff(v: Vendor, id: nat, to: Status)
    requires id in v.orders
    ensures !Advance(v, id, to).1 <==> 0 <= Position(to) < Position(v.orders[id].status)
    ensures Advance(v, id, to).1 ==> Advance(v, id, to).0.orders[id].status == to
  {
  }

  /** TERMINAL_STATUSES of src/integrations/print/types.ts. */
  predicate Terminal(s: Status) {
    s.Canceled? || s.Undeliverable? || s.Failed? || s.PaymentHold?
  }

  /** The comment in fake.ts says terminal states are terminal. In the code every one can be left, for any status. */
  lemma TerminalIsNotTerminal(v: Vendor, id: nat, to: Status)
    requires id in v.orders
    ensures Terminal(v.orders[id].status) ==> Advance(v, id, to).1 && Advance(v, id, to).0.orders[id].status == to
    ensures (forall t :: Advance(v, id, t).1) <==> Terminal(v.orders[id].status) || v.orders[id].status.Preparing?
  {
    AdvanceRefusedIff(v, id, to);
    AdvanceRefusedIff(v, id, Preparing);
    forall t | Terminal(v.orders[id].status) || v.orders[id].status.Preparing? ensures Advance(v, id, t).1 {
      AdvanceRefusedIff(v, id, t);
    }
  }

  /** The operation takes this order off the pipeline: a cancellation, or an advance to a status that is not a stage. */
  predicate TakesOff(op: Operation, id: nat) {
    (op.DoCancel? && op.id == id) || (op.DoAdvance? && op.id == id && Position(op.to) < 0)
  }

  /** The pipeline runs forward only, over any operations, for as long as none takes the order off it. */
  lemma {:induction false} PipelineRunsForward(v: Vendor, ops: seq<Operation>, id: nat)
    requires Valid(v) && id in v.orders && 0 <= Position(v.orders[id].status)
    requires forall k :: 0 <= k < |ops| ==> !TakesOff(ops[k], id)
    ensures id in PerformAll(v, ops).orders
    ensures Position(v.orders[id].status) <= Position(PerformAll(v, ops).orders[id].status)
    decreases |ops|
  {
    if ops != [] {
      assert !TakesOff(ops[0], id);
      PerformKeeps(v, ops[0]);
      OneForward(v, ops[0], id);
      PipelineRunsForward(Perform(v, ops[0]), ops[1..], id);
    }
  }

  lemma OneForward(v: Vendor, op: Operation, id: nat)
    requires Valid(v) && id in v.orders && 0 <= Position(v.orders[id].status) && !TakesOff(op, id)
    ensures id in Perform(v, op).orders
    ensures Position(v.orders[id].status) <= Position(Perform(v, op).orders[id].status)
  {
    if op.DoSubmit? {
      assert id < v.lastId + 1;
    }
  }

  /** Through a status off the pipeline it runs backwards: a mailed order is in preparation again after two advances. */
  lemma {:induction false} DetourRunsBackwards(v: Vendor, id: nat)
    requires id in v.orders && v.orders[id].status.Mailed?
    ensures var w := PerformAll(v, [DoAdvance(id, Failed), DoAdvance(id, Preparing)]);
            id in w.orders && w.orders[id].status == Preparing
  {
    var ops := [DoAdvance(id, Failed), DoAdvance(id, Preparing)];
    assert ops[1..][1..] == [];
    var w := Perform(v, ops[0]);
    assert PerformAll(v, ops) == PerformAll(w, ops[1..]) == PerformAll(Perform(w, ops[1]), []);
  }

  // ---------------------------------------------------------------- the vendor as an object

  class FakePrintVendor {
    var orders: map<nat, FakeOrder>
    var byOrderRef: map<string, nat>
    var counts: map<nat, nat>
    var lastId: nat
    var balanceCents: int

    ghost function View(): Vendor
      reads this
    {
      Vendor(orders, byOrderRef, counts, lastId, balanceCents)
    }

    constructor (balanceCents: int)
      ensures View() == Vendor(map[], map[], map[], 0, balanceCents) && Valid(View())
    {
      orders, byOrderRef, counts, lastId, this.balanceCents := map[], map[], map[], 0, balanceCents;
    }

    method NextId() returns (id: nat)
      modifies this`lastId
      ensures lastId == old(lastId) + 1 && id == lastId
    {
      lastId := lastId + 1;
      id := lastId;
    }

    method CreateAudienceCount(a: Audience) returns (id: Option<nat>)
      modifies this
      ensures (View(), id) == CreateCount(old(View()), a)
    {
      if a.Areas? && a.keys == [] {
        return None;
      }
      if a.Radius? && !a.details {
        return None;
      }
      var recordCount := if a.Radius? then 2_500 else 1_000 * |a.keys|;
      var next := NextId();
      counts := counts[next := recordCount];
      return Some(next);
    }

    method SubmitOrder(req: SubmitRequest) returns (reply: Reply)
      modifies this
      ensures (View(), reply) == Submit(old(View()), req)
    {
      var orderRef := Trim(req.orderRef);
      if orderRef == "" {
        return Rejected;
      }
      if orderRef in byOrderRef {
        return Duplicate;
      }
      if req.listCountId !in counts {
        return Rejected;
      }
      if req.recordCount != counts[req.listCountId] {
        return Rejected;
      }
      if req.front == "" || req.back == "" {
        return Rejected;
      }
      var vendorOrderId := NextId();
      var batchId := NextId();
      orders := orders[vendorOrderId := FakeOrder(batchId, orderRef, Preparing, false)];
      byOrderRef := byOrderRef[orderRef := vendorOrderId];
      balanceCents := balanceCents - req.recordCount * 40;
      return Created(vendorOrderId, batchId);
    }

    method CancelOrder(id: nat) returns (ok: bool)
      modifies this
      ensures (View(), ok) == Cancel(old(View()), id)
    {
      if id !in orders {
        return false;
      }
      if orders[id].batchClosed {
        return false;
      }
      orders := orders[id := orders[id].(status := Canceled)];
      return true;
    }

    method AdvanceOrder(id: nat, to: Status) returns (ok: bool)
      modifies this
      ensures (View(), ok) == Advance(old(View()), id, to)
    {
      if id !in orders {
        return false;
      }
      var from, next := Position(orders[id].status), Position(to);
      if from >= 0 && next >= 0 && next < from {
        return false;
      }
      orders := orders[id := orders[id].(status := to)];
      if next >= Position(Printing) {
        orders := orders[id := orders[id].(batchClosed := true)];
      }
      assert orders == Advance(old(View()), id, to).0.orders;
      return true;
    }

    method CloseOrderBatch(id: nat) returns (ok: bool)
      modifies this
      ensures (View(), ok) == CloseBatch(old(View()), id)
    {
      if id !in orders {
        return false;
      }
      orders := orders[id := orders[id].(batchClosed := true)];
      return true;
    }

    /** Another caller's operation. */
    method Handle(op: Operation)
      modifies this
      ensures View() == Perform(old(View()), op)
    {
      match op
      case DoCount(a) => var _ := CreateAudienceCount(a);
      case DoSubmit(req) => var _ := SubmitOrder(req);
      case DoCancel(id) => var _ := CancelOrder(id);
      case DoAdvance(id, to) => var _ := AdvanceOrder(id, to);
      case DoCloseBatch(id) => var _ := CloseOrderBatch(id);
    }

    method HandleAll(ops: seq<Operation>)
      modifies this
      ensures View() == PerformAll(old(View()), ops)
    {
      var k := 0;
      while k < |ops|
        invariant 0 <= k <= |ops|
        invariant PerformAll(View(), ops[k..]) == PerformAll(old(View()), ops)
      {
        assert ops[k..][1..] == ops[k + 1..];
        Handle(ops[k]);
        k := k + 1;
      }
    }
  }
}
