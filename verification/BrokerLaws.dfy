/** What the broker does with one ticket, from its issue to its settlement: deadlines, outcomes and receipts. */
module BrokerLaws {
  import opened Common
  import opened Ledger
  import opened LedgerLaws
  import opened Broker
  import opened BrokerTheorems

  // ---- issuing ----

  /** A ticket is issued exactly when the policy allows the call and every bucket it is estimated to draw on may give
      the sum; the same request that is refused leaves no ticket, and by policy nothing at all. */
  lemma IssuedIff(u: Setup, s: BrokerState, req: Request, id: Id, call: Id, now: Time, issued: Time, viewed: Time)
    ensures var (t, answer) := IssueTicket(u.cfg, u.ttl, s, req, id, call, now, issued, viewed);
            var asked := Estimate(u.cfg, s.books.buckets, req.buckets, req.input, req.output, req.benchmark);
            && (answer.Issued? <==>
                  && req.allowed && asked != []
                  && forall b :: MayReserveAt(u.cfg, req.who, s.books.buckets, asked, now, b))
            && (answer.PolicyDenied? <==> !req.allowed)
            && (answer.PolicyDenied? ==> t == s)
            && (!answer.Issued? ==> t.tickets == s.tickets && t.ids == s.ids)
            && (answer.Issued? ==>
                  && t.ids == s.ids + [id] && t.tickets == s.tickets[id := Pending(answer.ticket, false, None)]
                  && t.books.buckets == Inspect(AfterGrant(s.books.buckets, asked, now), Consolidate(asked), viewed))
            && t.invocations == s.invocations && t.settlementKeys == s.settlementKeys
  {
    var asked := Estimate(u.cfg, s.books.buckets, req.buckets, req.input, req.output, req.benchmark);
    GrantedIff(u.cfg, req.who, s.books.buckets, asked, now);
    GrantedMeans(u.cfg, req.who, s.books.buckets, asked, now);
  }

  // ---- the deadline ----

  ghost predicate Invokes(op: BrokerOp, id: Id) {
    op.OpInvoke? && op.id == id
  }

  /** The step brings a receipt for the logical call, from the adapter or from outside. */
  ghost predicate BringsReceipt(op: BrokerOp, call: Id) {
    || (op.OpReconcile? && op.receipt.call == call)
    || (op.OpInvoke? && op.outcome.Replied? && op.outcome.reply.call == call)
  }

  /** The ticket was issued at step i and is invoked for the first time at step j. */
  ghost predicate FirstInvoke(u: Setup, states: seq<BrokerState>, ops: seq<BrokerOp>, i: nat, j: nat) {
    && BrokerRun(u, states, ops) && Idle(states[0]) && i < j < |ops|
    && ops[i].OpIssue? && ops[i].id in states[i + 1].tickets && Invokes(ops[j], ops[i].id)
    && forall k :: i < k < j ==> !Invokes(ops[k], ops[i].id)
  }

  /** The ticket is unsent and as it was issued. */
  ghost predicate Awaits(u: Setup, s: BrokerState, op: BrokerOp, amounts: seq<Amount>)
    requires op.OpIssue?
  {
    && op.id in s.tickets
    && var p := s.tickets[op.id];
    && !p.sent && p.receipt == None && p.ticket.expiresAt == op.issued + u.ttl
    && p.ticket.call == op.call && p.ticket.amounts == amounts
  }

  lemma IssueAwaits(u: Setup, s: BrokerState, op: BrokerOp)
    requires op.OpIssue? && Plausible(s, op) && op.id in StepBroker(u, s, op).tickets
    ensures Awaits(u, StepBroker(u, s, op), op, StepBroker(u, s, op).tickets[op.id].ticket.amounts)
  {
  }

  lemma StepAwaits(u: Setup, s: BrokerState, op: BrokerOp, issue: BrokerOp, amounts: seq<Amount>)
    requires issue.OpIssue? && WellKept(s) && Plausible(s, op) && Awaits(u, s, issue, amounts)
    requires !Invokes(op, issue.id)
    ensures Awaits(u, StepBroker(u, s, op), issue, amounts)
  {
    StepOnReceipts(u, s, op, issue.id);
  }

  /** Until it is invoked a ticket keeps what it was issued with: its deadline, its call and its amounts. */
  lemma {:induction false} UntilInvoked(u: Setup, states: seq<BrokerState>, ops: seq<BrokerOp>, i: nat, j: nat)
    requires BrokerRun(u, states, ops) && Idle(states[0]) && i < j <= |ops|
    requires ops[i].OpIssue? && ops[i].id in states[i + 1].tickets
    requires forall k :: i < k < j ==> !Invokes(ops[k], ops[i].id)
    ensures Awaits(u, states[j], ops[i], states[i + 1].tickets[ops[i].id].ticket.amounts)
    decreases j
  {
    assert RunStep(u, states, ops, j - 1);
    if i + 1 == j {
      IssueAwaits(u, states[i], ops[i]);
    } else {
      UntilInvoked(u, states, ops, i, j - 1);
      RunsKeepTickets(u, states, ops, j - 1);
      StepAwaits(u, states[j - 1], ops[j - 1], ops[i], states[i + 1].tickets[ops[i].id].ticket.amounts);
    }
  }

  /** A ticket invoked by its deadline reaches the adapter, whatever happened in between. */
  lemma InvokedInTime(u: Setup, states: seq<BrokerState>, ops: seq<BrokerOp>, i: nat, j: nat)
    requires FirstInvoke(u, states, ops, i, j) && ops[j].now <= ops[i].issued + u.ttl
    ensures states[j + 1].invocations == states[j].invocations + [ops[i].id]
    ensures Invoke(states[j], ops[i].id, ops[j].now, ops[j].outcome, ops[j].settledAt).1 != ExpiredUnsent
  {
    UntilInvoked(u, states, ops, i, j);
    assert RunStep(u, states, ops, j);
    StepOnInvocations(u, states[j], ops[j]);
  }

  /** The amounts come off every bucket, down to nothing held; nothing else changes there. */
  ghost predicate GivenBack(before: Buckets, after: Buckets, amounts: seq<Amount>) {
    && after.Keys == before.Keys
    && forall b :: b in before ==>
         after[b] == if Names(amounts, b) then before[b].(reserved := Max(0, before[b].reserved - TotalFor(amounts, b)))
                     else before[b]
  }

  /** Past its deadline a ticket is refused and its amounts given back, exactly when it is still in the phase it was
      issued in; a ticket whose call was reconciled meanwhile is sent all the same. */
  lemma InvokedLateIff(u: Setup, states: seq<BrokerState>, ops: seq<BrokerOp>, i: nat, j: nat)
    requires FirstInvoke(u, states, ops, i, j) && ops[j].now > ops[i].issued + u.ttl
    ensures ops[i].id in states[j].tickets
    ensures var id, p := ops[i].id, states[j].tickets[ops[i].id];
            var answer := Invoke(states[j], id, ops[j].now, ops[j].outcome, ops[j].settledAt).1;
            && (answer == ExpiredUnsent <==> p.ticket.phase == Held)
            && (answer == ExpiredUnsent ==>
                  && states[j + 1].invocations == states[j].invocations
                  && states[j + 1].requestCount == states[j].requestCount
                  && states[j + 1].tickets == states[j].tickets[id := p.(ticket := p.ticket.(state := Expired))]
                  && GivenBack(states[j].books.buckets, states[j + 1].books.buckets, p.ticket.amounts))
            && (answer != ExpiredUnsent ==> states[j + 1].invocations == states[j].invocations + [id])
  {
    UntilInvoked(u, states, ops, i, j);
    assert RunStep(u, states, ops, j);
    StepOnInvocations(u, states[j], ops[j]);
  }

  lemma ReconcileKeepsPhase(s: BrokerState, r: Receipt, now: Time, id: Id)
    requires Reconcile(s, r, now).Some? && id in s.tickets && s.tickets[id].ticket.call != r.call
    ensures id in Reconcile(s, r, now).value.tickets && Reconcile(s, r, now).value.tickets[id] == s.tickets[id]
  {
  }

  lemma DeliverKeepsPhase(s: BrokerState, x: Id, outcome: Outcome, now: Time, id: Id)
    requires x in s.tickets && id in s.tickets && x != id
    requires outcome.Replied? ==> outcome.reply.call != s.tickets[id].ticket.call
    ensures id in Deliver(s, x, outcome, now).0.tickets && Deliver(s, x, outcome, now).0.tickets[id] == s.tickets[id]
  {
    if outcome.Replied? {
      var p, r := s.tickets[x], outcome.reply;
      var answered := Put(s, x, Move(p, Settled, p.ticket.state).(receipt := Some(r)));
      if Reconcile(answered, r, now).Some? {
        ReconcileKeepsPhase(answered, r, now, id);
      }
    }
  }

  lemma StepKeepsPhase(u: Setup, s: BrokerState, op: BrokerOp, id: Id)
    requires Plausible(s, op) && id in s.tickets && !Invokes(op, id) && !BringsReceipt(op, s.tickets[id].ticket.call)
    ensures id in StepBroker(u, s, op).tickets
    ensures StepBroker(u, s, op).tickets[id].ticket.phase == s.tickets[id].ticket.phase
  {
    match op
    case OpIssue(_, _, _, _, _, _) =>
    case OpInvoke(x, now, outcome, settledAt) =>
      if x in s.tickets && !Answered(s.tickets[x]) && !OverdueUnsent(s.tickets[x], now) {
        DeliverKeepsPhase(Send(s, x), x, outcome, settledAt, id);
      }
    case OpReconcile(r, now) =>
      if Reconcile(s, r, now).Some? {
        ReconcileKeepsPhase(s, r, now, id);
      }
    case OpExpire(_) =>
  }

  ghost predicate IsHeld(s: BrokerState, id: Id, call: Id) {
    id in s.tickets && s.tickets[id].ticket.phase == Held && s.tickets[id].ticket.call == call
  }

  lemma IssueHolds(u: Setup, s: BrokerState, op: BrokerOp)
    requires Plausible(s, op) && op.OpIssue? && op.id in StepBroker(u, s, op).tickets
    ensures IsHeld(StepBroker(u, s, op), op.id, op.call)
  {
  }

  lemma StepHolds(u: Setup, s: BrokerState, op: BrokerOp, id: Id, call: Id)
    requires WellKept(s) && Plausible(s, op) && IsHeld(s, id, call) && !Invokes(op, id) && !BringsReceipt(op, call)
    ensures IsHeld(StepBroker(u, s, op), id, call)
  {
    StepKeepsPhase(u, s, op, id);
    StepOnReceipts(u, s, op, id);
  }

  lemma {:induction false} HeldUntilReceipt(u: Setup, states: seq<BrokerState>, ops: seq<BrokerOp>, i: nat, j: nat)
    requires BrokerRun(u, states, ops) && Idle(states[0]) && i < j <= |ops|
    requires ops[i].OpIssue? && ops[i].id in states[i + 1].tickets
    requires forall k :: i < k < j ==> !Invokes(ops[k], ops[i].id) && !BringsReceipt(ops[k], ops[i].call)
    ensures IsHeld(states[j], ops[i].id, ops[i].call)
    decreases j
  {
    if i + 1 == j {
      assert RunStep(u, states, ops, i);
      IssueHolds(u, states[i], ops[i]);
    } else {
      HeldUntilReceipt(u, states, ops, i, j - 1);
      RunsKeepTickets(u, states, ops, j - 1);
      assert RunStep(u, states, ops, j - 1);
      StepHolds(u, states[j - 1], ops[j - 1], ops[i].id, ops[i].call);
    }
  }

  /** So a ticket whose call brings no receipt meanwhile is refused exactly when its deadline has passed. */
  lemma DeadlineIff(u: Setup, states: seq<BrokerState>, ops: seq<BrokerOp>, i: nat, j: nat)
    requires FirstInvoke(u, states, ops, i, j)
    requires forall k :: i < k < j ==> !BringsReceipt(ops[k], ops[i].call)
    ensures Invoke(states[j], ops[i].id, ops[j].now, ops[j].outcome, ops[j].settledAt).1 == ExpiredUnsent
            <==> ops[j].now > ops[i].issued + u.ttl
  {
    HeldUntilReceipt(u, states, ops, i, j);
    if ops[j].now <= ops[i].issued + u.ttl {
      InvokedInTime(u, states, ops, i, j);
    } else {
      InvokedLateIff(u, states, ops, i, j);
    }
  }

  /** A call reconciled before its ticket is first invoked has the ticket sent however late. */
  lemma ReconciledIsSentLate(s: BrokerState, id: Id, r: Receipt, at: Time, now: Time, outcome: Outcome, settledAt: Time)
    requires WellKept(s) && id in s.tickets && !s.tickets[id].sent && s.tickets[id].ticket.call == r.call
    requires SettlementKey(r) !in s.settlementKeys
    ensures Reconcile(s, r, at).Some?
    ensures var t := Reconcile(s, r, at).value;
            && Invoke(t, id, now, outcome, settledAt).0.invocations == s.invocations + [id]
            && Invoke(t, id, now, outcome, settledAt).1 != ExpiredUnsent
  {
    ReconcileSettles(s, r, at, id);
  }

  lemma {:induction false} SentForGood(u: Setup, states: seq<BrokerState>, ops: seq<BrokerOp>, i: nat, j: nat, id: Id)
    requires BrokerRun(u, states, ops) && Idle(states[0]) && i <= j <= |ops|
    requires id in states[i].tickets && states[i].tickets[id].sent
    ensures id in states[j].tickets && states[j].tickets[id].sent
    decreases j
  {
    if i < j {
      SentForGood(u, states, ops, i, j - 1, id);
      RunsKeepTickets(u, states, ops, j - 1);
      assert RunStep(u, states, ops, j - 1);
      StepOnReceipts(u, states[j - 1], ops[j - 1], id);
    }
  }

  /** Expiry gives back the amounts of a ticket that was never sent, and leaves one that was sent alone for good. */
  lemma ExpiryIff(u: Setup, states: seq<BrokerState>, ops: seq<BrokerOp>, i: nat, j: nat, id: Id)
    requires BrokerRun(u, states, ops) && Idle(states[0]) && i <= j < |ops| && ops[j] == OpExpire(id)
    requires id in states[i].tickets
    ensures states[i].tickets[id].sent ==> states[j + 1] == states[j]
    ensures id in states[j].tickets && !states[j].tickets[id].sent ==>
              && GivenBack(states[j].books.buckets, states[j + 1].books.buckets, states[j].tickets[id].ticket.amounts)
              && id in states[j + 1].tickets && states[j + 1].tickets[id].ticket.state == Expired
              && states[j + 1].invocations == states[j].invocations
  {
    assert RunStep(u, states, ops, j);
    if states[i].tickets[id].sent {
      SentForGood(u, states, ops, i, j, id);
    }
  }

  // ---- what a send leaves behind ----

  /** Sent without an answer that settles it, the ticket stays open or unresolved, and the ledger untouched. */
  lemma UnansweredSend(s: BrokerState, id: Id, now: Time, outcome: Outcome, settledAt: Time)
    requires id in s.tickets && !s.tickets[id].sent && now <= s.tickets[id].ticket.expiresAt
    requires outcome.Replied? ==> outcome.reply.error in {Some(PartialStream), Some(UnknownOutcome)}
    ensures var (t, answer) := Invoke(s, id, now, outcome, settledAt);
            && id in t.tickets && t.books == s.books && t.tickets[id].sent
            && answer == (if outcome.Replied? && outcome.reply.error == Some(PartialStream) then Returned(outcome.reply)
                          else AmbiguousSend)
            && (outcome.Escaped? ==> t.tickets[id].receipt == None || s.tickets[id].receipt.Some?)
            && (outcome.Escaped? ==> t.tickets[id].ticket.state == s.tickets[id].ticket.state)
            && (!outcome.Escaped? ==> t.tickets[id].ticket.state == Unresolved && t.tickets[id].receipt.Some?)
            && (outcome.Replied? ==> t.tickets[id].receipt == Some(outcome.reply))
            && (outcome.Raised? ==>
                  var r := t.tickets[id].receipt.value;
                  r.call == s.tickets[id].ticket.call && r.error == Some(outcome.kind) && r.idempotency == "")
  {
  }

  /** A conclusive answer to the ticket's own call under a new key settles its amounts at the reported usage. */
  lemma AnsweredSend(s: BrokerState, id: Id, now: Time, r: Receipt, settledAt: Time)
    requires WellKept(s) && id in s.tickets && !s.tickets[id].sent && now <= s.tickets[id].ticket.expiresAt
    requires r.call == s.tickets[id].ticket.call && r.error !in {Some(PartialStream), Some(UnknownOutcome)}
    ensures var (t, answer) := Invoke(s, id, now, Replied(r), settledAt);
            && id in t.tickets && t.tickets[id].receipt == Some(r)
            && (SettlementKey(r) !in s.settlementKeys ==>
                  && answer == Returned(r) && t.tickets[id].ticket.state == Committed
                  && t.books.buckets == Settle(s.books.buckets, s.tickets[id].ticket.amounts, r.usage, settledAt)
                  && SettlementKey(r) in t.settlementKeys)
            && (SettlementKey(r) in s.settlementKeys ==>
                  && answer == DuplicateKey && t.tickets[id].ticket.state == Released
                  && GivenBack(s.books.buckets, t.books.buckets, s.tickets[id].ticket.amounts))
  {
    assert TicketAt(s, id);
    var sent := Send(s, id);
    SendKeeps(s, id);
    var p := sent.tickets[id];
    var answered := Put(sent, id, Move(p, Settled, p.ticket.state).(receipt := Some(r)));
    AdvanceKeeps(sent, answered, id);
    if SettlementKey(r) !in s.settlementKeys {
      ReconcileSettles(answered, r, settledAt, id);
    }
  }

  // ---- reconciliation ----

  /** A receipt is turned away exactly when its key was settled before; otherwise it settles the ticket of its call. */
  lemma ReconcileSettles(s: BrokerState, r: Receipt, now: Time, id: Id)
    requires WellKept(s) && id in s.tickets && s.tickets[id].ticket.call == r.call
    ensures Reconcile(s, r, now).Some? <==> SettlementKey(r) !in s.settlementKeys
    ensures SettlementKey(r) !in s.settlementKeys ==>
              var t := Reconcile(s, r, now).value;
              && t.tickets == s.tickets[id := Move(s.tickets[id], Settled, Committed)]
              && t.settlementKeys == s.settlementKeys + {SettlementKey(r)}
              && t.books.buckets == Settle(s.books.buckets, s.tickets[id].ticket.amounts, r.usage, now)
  {
    assert TicketAt(s, id);
    var found := TicketOfCall(s.ids, s.tickets, r.call);
    assert found.Some?;
    assert CallsDiffer(s, id, found.value);
  }

  lemma ReconcileKeepsKeys(s: BrokerState, r: Receipt, now: Time)
    requires Reconcile(s, r, now).Some?
    ensures Reconcile(s, r, now).value.settlementKeys == s.settlementKeys + {SettlementKey(r)}
  {
  }

  lemma StepKeepsKeys(u: Setup, s: BrokerState, op: BrokerOp, key: string)
    requires key in s.settlementKeys
    ensures key in StepBroker(u, s, op).settlementKeys
  {
  }

  lemma {:induction false} KeysStay(u: Setup, states: seq<BrokerState>, ops: seq<BrokerOp>, i: nat, j: nat, key: string)
    requires BrokerRun(u, states, ops) && i <= j <= |ops| && key in states[i].settlementKeys
    ensures key in states[j].settlementKeys
    decreases j
  {
    if i < j {
      KeysStay(u, states, ops, i, j - 1, key);
      assert RunStep(u, states, ops, j - 1);
      StepKeepsKeys(u, states[j - 1], ops[j - 1], key);
    }
  }

  /** The same idempotency key; or neither has one, and they report the same attempt at the same call. */
  ghost predicate SameSettlement(r: Receipt, q: Receipt) {
    if r.idempotency != "" then q.idempotency == r.idempotency
    else q.idempotency == "" && q.call == r.call && q.network == r.network
  }

  /** Once a receipt is reconciled, every later receipt of the same settlement is turned away. */
  lemma SettledOnce(u: Setup, states: seq<BrokerState>, ops: seq<BrokerOp>, i: nat, j: nat, q: Receipt, now: Time)
    requires BrokerRun(u, states, ops) && i < j <= |ops| && ops[i].OpReconcile? && SameSettlement(ops[i].receipt, q)
    requires Reconcile(states[i], ops[i].receipt, ops[i].now).Some?
    ensures Reconcile(states[j], q, now) == None
  {
    assert RunStep(u, states, ops, i);
    ReconcileKeepsKeys(states[i], ops[i].receipt, ops[i].now);
    KeysStay(u, states, ops, i + 1, j, SettlementKey(q));
  }
}
