/** What holds over whole runs of the broker: a ticket reaches the adapter at most once, receipts are
    retained, and an unknown outcome waits for its reconciliation. */
module BrokerTheorems {
  import opened Common
  import opened Ledger
  import opened Broker

  datatype BrokerOp =
    | OpIssue(req: Request, id: Id, call: Id, now: Time, issued: Time, viewed: Time)
    | OpInvoke(id: Id, now: Time, outcome: Outcome, settledAt: Time)
    | OpReconcile(receipt: Receipt, now: Time)
    | OpExpire(id: Id)

  datatype Setup = Setup(cfg: LedgerConfig, ttl: int)

  function StepBroker(u: Setup, s: BrokerState, op: BrokerOp): BrokerState {
    match op
    case OpIssue(req, id, call, now, issued, viewed) =>
      IssueTicket(u.cfg, u.ttl, s, req, id, call, now, issued, viewed).0
    case OpInvoke(id, now, outcome, settledAt) => Invoke(s, id, now, outcome, settledAt).0
    case OpReconcile(receipt, now) => var t := Reconcile(s, receipt, now); if t.Some? then t.value else s
    case OpExpire(id) => ExpireUnsent(s, id)
  }

  /** Generated ids are new. */
  ghost predicate Plausible(s: BrokerState, op: BrokerOp) {
    op.OpIssue? ==> op.id !in s.tickets && op.id !in s.ids && forall id :: CallDiffers(s, id, op.call)
  }

  ghost predicate CallDiffers(s: BrokerState, id: Id, call: Id) {
    id in s.tickets ==> s.tickets[id].ticket.call != call
  }

  ghost predicate RunStep(u: Setup, states: seq<BrokerState>, ops: seq<BrokerOp>, i: int) {
    0 <= i < |ops| < |states| ==>
      Plausible(states[i], ops[i]) && states[i + 1] == StepBroker(u, states[i], ops[i])
  }

  ghost predicate BrokerRun(u: Setup, states: seq<BrokerState>, ops: seq<BrokerOp>) {
    |states| == |ops| + 1 && forall i :: RunStep(u, states, ops, i)
  }

  /** A broker that has issued nothing. */
  ghost predicate Idle(s: BrokerState) {
    s.ids == [] && s.tickets == map[] && s.settlementKeys == {} &&
    s.books.settledKeys == {} && s.invocations == [] && s.requestCount == 0
  }

  // ---- the tickets ----

  ghost predicate Distinct(ids: seq<Id>) {
    forall i, j :: 0 <= i < j < |ids| ==> ids[i] != ids[j]
  }

  ghost predicate TicketAt(s: BrokerState, id: Id) {
    && (id in s.tickets <==> id in s.ids)
    && (id in s.invocations <==> id in s.tickets && s.tickets[id].sent)
    && (id in s.tickets ==>
          && (s.tickets[id].receipt.Some? ==> s.tickets[id].sent)
          && (s.tickets[id].ticket.state.Unresolved? ==> Answered(s.tickets[id])))
  }

  ghost predicate CallsDiffer(s: BrokerState, a: Id, b: Id) {
    a in s.tickets && b in s.tickets && a != b ==> s.tickets[a].ticket.call != s.tickets[b].ticket.call
  }

  ghost predicate WellKept(s: BrokerState) {
    && Distinct(s.ids)
    && (forall id :: TicketAt(s, id))
    && (forall a, b :: CallsDiffer(s, a, b))
    && s.requestCount == |s.invocations|
    && s.books.settledKeys <= s.settlementKeys
  }

  /** `t` differs from `s` in how far ticket `id` has got, and in the ledger. */
  ghost predicate Advances(s: BrokerState, t: BrokerState, id: Id) {
    && id in s.tickets && id in t.tickets && t.tickets == s.tickets[id := t.tickets[id]]
    && t.ids == s.ids
    && t.tickets[id].ticket.call == s.tickets[id].ticket.call
    && t.tickets[id].ticket.amounts == s.tickets[id].ticket.amounts
    && (t.tickets[id].receipt.Some? ==> t.tickets[id].sent)
    && (t.tickets[id].ticket.state.Unresolved? ==> Answered(t.tickets[id]))
    && t.books.settledKeys <= t.settlementKeys
    && t.requestCount == |t.invocations|
    && (if t.tickets[id].sent == s.tickets[id].sent then t.invocations == s.invocations
        else t.tickets[id].sent && t.invocations == s.invocations + [id])
  }

  lemma AdvanceKeeps(s: BrokerState, t: BrokerState, id: Id)
    requires WellKept(s) && Advances(s, t, id)
    ensures WellKept(t)
  {
    forall x ensures TicketAt(t, x) {
      assert TicketAt(s, x) && TicketAt(s, id);
    }
    forall a, b ensures CallsDiffer(t, a, b) {
      assert CallsDiffer(s, a, b);
    }
  }

  lemma ReconcileKeeps(s: BrokerState, r: Receipt, now: Time)
    requires WellKept(s) && Reconcile(s, r, now).Some?
    ensures WellKept(Reconcile(s, r, now).value)
  {
    var t := Reconcile(s, r, now).value;
    var found := TicketOfCall(s.ids, s.tickets, r.call);
    if found.Some? {
      assert TicketAt(s, found.value);
      AdvanceKeeps(s, t, found.value);
    } else {
      forall x ensures TicketAt(t, x) {
        assert TicketAt(s, x);
      }
      forall a, b ensures CallsDiffer(t, a, b) {
        assert CallsDiffer(s, a, b);
      }
    }
  }

  lemma DropKeeps(s: BrokerState, id: Id, state: TicketState)
    requires WellKept(s) && id in s.tickets && !state.Unresolved?
    ensures WellKept(Drop(s, id, state))
  {
    assert TicketAt(s, id);
    AdvanceKeeps(s, Drop(s, id, state), id);
  }

  lemma DeliverKeeps(s: BrokerState, id: Id, outcome: Outcome, now: Time)
    requires WellKept(s) && id in s.tickets && s.tickets[id].sent && s.tickets[id].receipt.None?
    ensures WellKept(Deliver(s, id, outcome, now).0)
  {
    var p := s.tickets[id];
    assert TicketAt(s, id);
    var t := Deliver(s, id, outcome, now).0;
    if outcome.Replied? && outcome.reply.error != Some(PartialStream) && outcome.reply.error != Some(UnknownOutcome) {
      var r := outcome.reply;
      var answered := Put(s, id, Move(p, Settled, p.ticket.state).(receipt := Some(r)));
      AdvanceKeeps(s, answered, id);
      if Reconcile(answered, r, now).Some? {
        ReconcileKeeps(answered, r, now);
      } else {
        DropKeeps(answered, id, Released);
      }
    } else if !outcome.Escaped? {
      AdvanceKeeps(s, t, id);
    }
  }

  lemma InvokeKeeps(s: BrokerState, id: Id, now: Time, outcome: Outcome, settledAt: Time)
    requires WellKept(s)
    ensures WellKept(Invoke(s, id, now, outcome, settledAt).0)
  {
    if id in s.tickets && !Answered(s.tickets[id]) {
      assert TicketAt(s, id);
      if OverdueUnsent(s.tickets[id], now) {
        DropKeeps(s, id, Expired);
      } else {
        SendKeeps(s, id);
        DeliverKeeps(Send(s, id), id, outcome, settledAt);
      }
    }
  }

  /** A second send of one ticket is recorded like the first, so it is enough that each is recorded. */
  lemma SendKeeps(s: BrokerState, id: Id)
    requires WellKept(s) && id in s.tickets && !Answered(s.tickets[id])
    ensures WellKept(Send(s, id)) && Send(s, id).tickets[id].receipt.None?
  {
    var t := Send(s, id);
    assert TicketAt(s, id);
    forall x ensures TicketAt(t, x) {
      assert TicketAt(s, x);
    }
    forall a, b ensures CallsDiffer(t, a, b) {
      assert CallsDiffer(s, a, b);
    }
  }

  lemma IssueKeeps(u: Setup, s: BrokerState, op: BrokerOp)
    requires WellKept(s) && op.OpIssue? && Plausible(s, op)
    ensures WellKept(StepBroker(u, s, op))
  {
    var t := StepBroker(u, s, op);
    assert TicketAt(s, op.id);
    forall x ensures TicketAt(t, x) {
      assert TicketAt(s, x);
    }
    forall a, b ensures CallsDiffer(t, a, b) {
      assert CallsDiffer(s, a, b) && CallDiffers(s, a, op.call) && CallDiffers(s, b, op.call);
    }
  }

  lemma StepKeepsTickets(u: Setup, s: BrokerState, op: BrokerOp)
    requires WellKept(s) && Plausible(s, op)
    ensures WellKept(StepBroker(u, s, op))
  {
    match op
    case OpIssue(_, _, _, _, _, _) => IssueKeeps(u, s, op);
    case OpInvoke(id, now, outcome, settledAt) => InvokeKeeps(s, id, now, outcome, settledAt);
    case OpReconcile(receipt, now) =>
      if Reconcile(s, receipt, now).Some? {
        ReconcileKeeps(s, receipt, now);
      }
    case OpExpire(id) =>
      if id in s.tickets && !s.tickets[id].sent {
        DropKeeps(s, id, Expired);
      }
  }

  lemma {:induction false} RunsKeepTickets(u: Setup, states: seq<BrokerState>, ops: seq<BrokerOp>, i: nat)
    requires BrokerRun(u, states, ops) && i <= |ops| && Idle(states[0])
    ensures WellKept(states[i])
  {
    if i > 0 {
      RunsKeepTickets(u, states, ops, i - 1);
      assert RunStep(u, states, ops, i - 1);
      StepKeepsTickets(u, states[i - 1], ops[i - 1]);
    }
  }

  // ---- at most one send ----

  /** Whether the step hands ticket `id` to the adapter. */
  ghost predicate Sends(s: BrokerState, op: BrokerOp, id: Id) {
    op.OpInvoke? && op.id == id && id in s.tickets && !Answered(s.tickets[id]) && !OverdueUnsent(s.tickets[id], op.now)
  }

  ghost predicate SameReceipt(p: Pending, q: Pending) {
    && q.ticket.amounts == p.ticket.amounts && q.ticket.call == p.ticket.call
    && q.ticket.expiresAt == p.ticket.expiresAt
    && q.sent == p.sent && q.receipt == p.receipt
  }

  lemma ReconcileOnReceipts(s: BrokerState, r: Receipt, now: Time, id: Id)
    requires Reconcile(s, r, now).Some? && id in s.tickets
    ensures var t := Reconcile(s, r, now).value; id in t.tickets && SameReceipt(s.tickets[id], t.tickets[id])
  {
  }

  lemma DeliverOnReceipts(s: BrokerState, id: Id, outcome: Outcome, now: Time, x: Id)
    requires id in s.tickets && x in s.tickets && s.tickets[id].sent && s.tickets[id].receipt.None?
    ensures var t := Deliver(s, id, outcome, now).0;
            && x in t.tickets
            && (x != id ==> SameReceipt(s.tickets[x], t.tickets[x]))
            && (x == id ==> SameReceipt(s.tickets[x], t.tickets[x].(receipt := None))
                            && (t.tickets[x].receipt.Some? <==> !outcome.Escaped?))
  {
    if outcome.Replied? {
      var p, r := s.tickets[id], outcome.reply;
      var answered := Put(s, id, Move(p, Settled, p.ticket.state).(receipt := Some(r)));
      if Reconcile(answered, r, now).Some? {
        ReconcileOnReceipts(answered, r, now, x);
      }
    }
  }

  /** A ticket's receipt, once there, stays, and nothing but a send of it gives a ticket its receipt. */
  lemma StepOnReceipts(u: Setup, s: BrokerState, op: BrokerOp, id: Id)
    requires WellKept(s) && Plausible(s, op) && id in s.tickets
    ensures var t := StepBroker(u, s, op);
            && id in t.tickets
            && (if Sends(s, op, id)
                then t.tickets[id].sent && (t.tickets[id].receipt.Some? <==> !op.outcome.Escaped?)
                else SameReceipt(s.tickets[id], t.tickets[id]))
  {
    match op
    case OpIssue(_, _, _, _, _, _) =>
    case OpInvoke(x, _, outcome, settledAt) =>
      if Sends(s, op, x) {
        assert TicketAt(s, x);
        DeliverOnReceipts(Send(s, x), x, outcome, settledAt, id);
      }
    case OpReconcile(r, now) =>
      if Reconcile(s, r, now).Some? {
        ReconcileOnReceipts(s, r, now, id);
      }
    case OpExpire(_) =>
  }

  lemma StepOnInvocations(u: Setup, s: BrokerState, op: BrokerOp)
    ensures var t := StepBroker(u, s, op);
            t.invocations == if op.OpInvoke? && Sends(s, op, op.id) then s.invocations + [op.id] else s.invocations
  {
  }

  /** After a send the next invoke of the ticket sends again exactly when the outcome escaped every handler;
      otherwise it returns the receipt, and changes nothing. */
  lemma ResendIff(u: Setup, s: BrokerState, op: BrokerOp, now: Time, outcome: Outcome, settledAt: Time)
    requires WellKept(s) && op.OpInvoke? && Sends(s, op, op.id)
    ensures var t := StepBroker(u, s, op);
            var again := Invoke(t, op.id, now, outcome, settledAt);
            && (again.0.invocations == t.invocations + [op.id] <==> op.outcome.Escaped?)
            && (!op.outcome.Escaped? ==> op.id in t.tickets && t.tickets[op.id].receipt.Some?
                                         && again == (t, Returned(t.tickets[op.id].receipt.value)))
  {
    StepOnReceipts(u, s, op, op.id);
    assert TicketAt(s, op.id);
  }

  ghost predicate Handled(op: BrokerOp) {
    op.OpInvoke? ==> !op.outcome.Escaped?
  }

  ghost predicate OnceAt(s: BrokerState, id: Id) {
    id in s.tickets && s.tickets[id].sent ==> s.tickets[id].receipt.Some?
  }

  lemma {:induction false} RunsAnswerOnce(u: Setup, states: seq<BrokerState>, ops: seq<BrokerOp>, i: nat)
    requires BrokerRun(u, states, ops) && i <= |ops| && Idle(states[0])
    requires forall j :: 0 <= j < |ops| ==> Handled(ops[j])
    ensures forall id :: OnceAt(states[i], id)
    ensures Distinct(states[i].invocations)
  {
    if i > 0 {
      RunsAnswerOnce(u, states, ops, i - 1);
      RunsKeepTickets(u, states, ops, i - 1);
      assert RunStep(u, states, ops, i - 1);
      var s, op := states[i - 1], ops[i - 1];
      forall id ensures OnceAt(states[i], id) {
        assert OnceAt(s, id);
        if id in s.tickets {
          StepOnReceipts(u, s, op, id);
        }
      }
      StepOnInvocations(u, s, op);
      if op.OpInvoke? && Sends(s, op, op.id) {
        assert TicketAt(s, op.id) && OnceAt(s, op.id);
      }
    }
  }

  ghost predicate WasSent(s: BrokerState, id: Id) {
    id in s.tickets && s.tickets[id].sent
  }

  /** Each ticket reaches the adapter at most once in a run whose outcomes are all handled, and the
      request counter counts the tickets that did. */
  lemma SentAtMostOnce(u: Setup, states: seq<BrokerState>, ops: seq<BrokerOp>, i: nat)
    requires BrokerRun(u, states, ops) && i <= |ops| && Idle(states[0])
    requires forall j :: 0 <= j < |ops| ==> Handled(ops[j])
    ensures Distinct(states[i].invocations) && states[i].requestCount == |states[i].invocations|
    ensures forall id :: id in states[i].invocations <==> WasSent(states[i], id)
  {
    RunsAnswerOnce(u, states, ops, i);
    RunsKeepTickets(u, states, ops, i);
    forall id ensures id in states[i].invocations <==> WasSent(states[i], id) {
      assert TicketAt(states[i], id);
    }
  }

  /** An answered ticket's invoke returns the receipt and changes nothing. */
  lemma AnsweredInvokeReturns(s: BrokerState, id: Id, now: Time, outcome: Outcome, settledAt: Time)
    requires id in s.tickets && Answered(s.tickets[id])
    ensures Invoke(s, id, now, outcome, settledAt) == (s, Returned(s.tickets[id].receipt.value))
  {
  }

  lemma {:induction false} ReceiptStays(u: Setup, states: seq<BrokerState>, ops: seq<BrokerOp>, i: nat, j: nat, id: Id)
    requires BrokerRun(u, states, ops) && i <= j <= |ops| && Idle(states[0])
    requires id in states[i].tickets && Answered(states[i].tickets[id])
    ensures id in states[j].tickets && Answered(states[j].tickets[id])
    ensures states[j].tickets[id].receipt == states[i].tickets[id].receipt
    decreases j - i
  {
    if i < j {
      ReceiptStays(u, states, ops, i, j - 1, id);
      RunsKeepTickets(u, states, ops, j - 1);
      assert RunStep(u, states, ops, j - 1);
      StepOnReceipts(u, states[j - 1], ops[j - 1], id);
    }
  }

  /** A receipt is retained for the rest of any run, and every later invoke returns it and changes nothing. */
  lemma ReceiptIsRetained(u: Setup, states: seq<BrokerState>, ops: seq<BrokerOp>, i: nat, j: nat, id: Id,
                                             now: Time, outcome: Outcome, settledAt: Time)
    requires BrokerRun(u, states, ops) && i <= j <= |ops| && Idle(states[0])
    requires id in states[i].tickets && Answered(states[i].tickets[id])
    ensures Invoke(states[j], id, now, outcome, settledAt) == (states[j], Returned(states[i].tickets[id].receipt.value))
  {
    ReceiptStays(u, states, ops, i, j, id);
    AnsweredInvokeReturns(states[j], id, now, outcome, settledAt);
  }

  // ---- unknown outcomes ----

  /** The receipt the step reconciles, if it gets that far. */
  ghost function Reconciled(s: BrokerState, op: BrokerOp): Option<Receipt> {
    match op
    case OpReconcile(r, _) => Some(r)
    case OpInvoke(id, _, Replied(r), _) =>
      if Sends(s, op, id) && r.error != Some(PartialStream) && r.error != Some(UnknownOutcome) then Some(r) else None
    case _ => None
  }

  ghost predicate Reconciles(s: BrokerState, op: BrokerOp, call: Id) {
    Reconciled(s, op).Some? && Reconciled(s, op).value.call == call
  }

  lemma StepKeepsUnresolved(u: Setup, s: BrokerState, op: BrokerOp, id: Id)
    requires WellKept(s) && Plausible(s, op) && id in s.tickets && s.tickets[id].ticket.state.Unresolved?
    requires !Reconciles(s, op, s.tickets[id].ticket.call)
    ensures var t := StepBroker(u, s, op); id in t.tickets && t.tickets[id] == s.tickets[id]
  {
    assert TicketAt(s, id);
  }

  /** A ticket of unknown outcome stays exactly as it is until a receipt for its logical call is reconciled. */
  lemma {:induction false} UnresolvedUntilReconciled(u: Setup, states: seq<BrokerState>, ops: seq<BrokerOp>, i: nat,
          j: nat, id: Id)
    requires BrokerRun(u, states, ops) && i <= j <= |ops| && Idle(states[0])
    requires id in states[i].tickets && states[i].tickets[id].ticket.state.Unresolved?
    requires forall m :: i <= m < j ==> !Reconciles(states[m], ops[m], states[i].tickets[id].ticket.call)
    ensures id in states[j].tickets && states[j].tickets[id] == states[i].tickets[id]
    decreases j - i
  {
    if i < j {
      UnresolvedUntilReconciled(u, states, ops, i, j - 1, id);
      RunsKeepTickets(u, states, ops, j - 1);
      assert RunStep(u, states, ops, j - 1);
      StepKeepsUnresolved(u, states[j - 1], ops[j - 1], id);
    }
  }
}
