/** When the ledger holds exactly what the unsettled tickets hold: the exact condition, step by step. */
module BrokerReservations {
  import opened Common
  import opened Ledger
  import opened LedgerAmounts
  import opened LedgerTheorems
  import opened Broker
  import opened BrokerTheorems

  // ---- what the tickets hold ----

  predicate Holding(p: Pending) {
    p.ticket.state.Open? || p.ticket.state.Unresolved?
  }

  function HeldBy(tickets: Tickets, id: Id, bucket: Id): int {
    if id in tickets && Holding(tickets[id]) then TotalFor(tickets[id].ticket.amounts, bucket) else 0
  }

  function HeldByAll(ids: seq<Id>, tickets: Tickets, bucket: Id): int {
    if ids == [] then 0
    else HeldByAll(ids[..|ids| - 1], tickets, bucket) + HeldBy(tickets, ids[|ids| - 1], bucket)
  }

  ghost predicate SaneTicket(tickets: Tickets, id: Id) {
    id in tickets ==> NonNegative(tickets[id].ticket.amounts)
  }

  lemma {:induction false} HeldAfterPut(ids: seq<Id>, tickets: Tickets, id: Id, p: Pending, bucket: Id)
    requires Distinct(ids)
    ensures var after := tickets[id := p];
            HeldByAll(ids, after, bucket) - HeldByAll(ids, tickets, bucket)
            == if id in ids then HeldBy(after, id, bucket) - HeldBy(tickets, id, bucket) else 0
  {
    if ids != [] {
      var front, last := ids[..|ids| - 1], ids[|ids| - 1];
      assert ids == front + [last];
      HeldAfterPut(front, tickets, id, p, bucket);
    }
  }

  lemma {:induction false} HeldCovers(ids: seq<Id>, tickets: Tickets, id: Id, bucket: Id)
    requires forall x :: SaneTicket(tickets, x)
    ensures 0 <= HeldByAll(ids, tickets, bucket)
    ensures 0 <= HeldBy(tickets, id, bucket)
    ensures (id in ids ==> HeldBy(tickets, id, bucket) <= HeldByAll(ids, tickets, bucket))
  {
    assert SaneTicket(tickets, id);
    if id in tickets {
      TotalNonNegative(tickets[id].ticket.amounts, bucket);
    }
    if ids != [] {
      var front, last := ids[..|ids| - 1], ids[|ids| - 1];
      assert ids == front + [last];
      HeldCovers(front, tickets, id, bucket);
      assert SaneTicket(tickets, last);
      if last in tickets {
        TotalNonNegative(tickets[last].ticket.amounts, bucket);
      }
    }
  }

  /** The bucket holds exactly what the open and unresolved tickets hold, and nothing has leaked. */
  ghost predicate InStep(start: Bucket, s: BrokerState, bucket: Id) {
    && WellKept(s) && (forall id :: SaneTicket(s.tickets, id))
    && bucket in s.books.buckets
    && Balanced(start, s.books.buckets[bucket], HeldByAll(s.ids, s.tickets, bucket))
  }

  // ---- what a step must not do ----

  function TotalOf(s: BrokerState, id: Id, bucket: Id): int
    requires id in s.tickets
  {
    TotalFor(s.tickets[id].ticket.amounts, bucket)
  }

  /** Releasing the ticket takes nothing off the bucket that another ticket holds. */
  ghost predicate ReleaseHarmless(s: BrokerState, id: Id, bucket: Id)
    requires id in s.tickets
  {
    Holding(s.tickets[id]) || TotalOf(s, id, bucket) == 0 || HeldByAll(s.ids, s.tickets, bucket) == 0
  }

  /** Neither does settling the receipt, and the charge is still there to take. */
  ghost predicate SettleHarmless(s: BrokerState, r: Receipt, bucket: Id)
    requires bucket in s.books.buckets && s.books.buckets[bucket].remaining.Some?
  {
    var found := TicketOfCall(s.ids, s.tickets, r.call);
    SettlementKey(r) in s.settlementKeys || found.None? ||
    var amounts := s.tickets[found.value].ticket.amounts;
    || Holding(s.tickets[found.value])
    || TotalFor(amounts, bucket) == 0
    || (&& HeldByAll(s.ids, s.tickets, bucket) == 0 && Names(amounts, bucket)
        && Charge(TotalFor(amounts, bucket), DimensionFor(amounts, bucket), r.usage)
           <= s.books.buckets[bucket].remaining.value)
  }

  /** The adapter's reply leads to a settlement. */
  ghost predicate Conclusive(outcome: Outcome) {
    outcome.Replied? && outcome.reply.error != Some(PartialStream) && outcome.reply.error != Some(UnknownOutcome)
  }

  /** An inconclusive outcome makes the ticket hold again; a duplicate key makes the broker release it. */
  ghost predicate DeliverHarmless(s: BrokerState, id: Id, outcome: Outcome, bucket: Id)
    requires id in s.tickets && bucket in s.books.buckets && s.books.buckets[bucket].remaining.Some?
  {
    if outcome.Escaped? then true
    else if !Conclusive(outcome) then Holding(s.tickets[id]) || TotalOf(s, id, bucket) == 0
    else if SettlementKey(outcome.reply) in s.settlementKeys then ReleaseHarmless(s, id, bucket)
    else SettleHarmless(s, outcome.reply, bucket)
  }

  ghost predicate Harmless(s: BrokerState, op: BrokerOp, bucket: Id)
    requires bucket in s.books.buckets && s.books.buckets[bucket].remaining.Some?
  {
    match op
    case OpIssue(_, _, _, _, _, _) => true
    case OpInvoke(id, now, outcome, _) =>
      if id !in s.tickets || Answered(s.tickets[id]) then true
      else if OverdueUnsent(s.tickets[id], now) then ReleaseHarmless(s, id, bucket)
      else DeliverHarmless(s, id, outcome, bucket)
    case OpReconcile(r, _) => SettleHarmless(s, r, bucket)
    case OpExpire(id) => id in s.tickets && !s.tickets[id].sent ==> ReleaseHarmless(s, id, bucket)
  }

  /** A ticket is issued, and its bottleneck looked for, before the bucket's window is over. */
  ghost predicate WindowOpen(s: BrokerState, op: BrokerOp, bucket: Id) {
    op.OpIssue? && bucket in s.books.buckets ==>
      !RollsOver(s.books.buckets[bucket], op.now) && !RollsOver(s.books.buckets[bucket], op.viewed)
  }

  // ---- each kind of change ----

  /** Moving a ticket along without touching the ledger keeps step, if it holds as before. */
  lemma MoveInStep(start: Bucket, s: BrokerState, t: BrokerState, id: Id, bucket: Id)
    requires InStep(start, s, bucket) && WellKept(t)
    requires id in s.tickets && id in t.tickets && t.tickets == s.tickets[id := t.tickets[id]] && t.ids == s.ids
    requires t.tickets[id].ticket.amounts == s.tickets[id].ticket.amounts && t.books.buckets == s.books.buckets
    requires Holding(t.tickets[id]) == Holding(s.tickets[id])
    ensures InStep(start, t, bucket)
  {
    HeldAfterPut(s.ids, s.tickets, id, t.tickets[id], bucket);
    forall x ensures SaneTicket(t.tickets, x) {
      assert SaneTicket(s.tickets, x) && SaneTicket(s.tickets, id);
    }
  }

  lemma SaneAfterPut(s: BrokerState, t: BrokerState, id: Id)
    requires forall x :: SaneTicket(s.tickets, x)
    requires id in s.tickets && id in t.tickets && t.tickets == s.tickets[id := t.tickets[id]]
    requires t.tickets[id].ticket.amounts == s.tickets[id].ticket.amounts
    ensures forall x :: SaneTicket(t.tickets, x)
  {
    forall x ensures SaneTicket(t.tickets, x) {
      assert SaneTicket(s.tickets, x) && SaneTicket(s.tickets, id);
    }
  }

  lemma ReconcileIff(start: Bucket, s: BrokerState, r: Receipt, now: Time, bucket: Id)
    requires InStep(start, s, bucket) && Reconcile(s, r, now).Some?
    ensures InStep(start, Reconcile(s, r, now).value, bucket) <==> SettleHarmless(s, r, bucket)
  {
    var t := Reconcile(s, r, now).value;
    ReconcileKeeps(s, r, now);
    var found := TicketOfCall(s.ids, s.tickets, r.call);
    if found.Some? {
      var id := found.value;
      var amounts, open := s.tickets[id].ticket.amounts, HeldByAll(s.ids, s.tickets, bucket);
      SaneAfterPut(s, t, id);
      HeldAfterPut(s.ids, s.tickets, id, t.tickets[id], bucket);
      HeldCovers(s.ids, s.tickets, id, bucket);
      if Holding(s.tickets[id]) {
        SettleBalances(start, s.books.buckets, amounts, r.usage, now, bucket, open);
      } else {
        assert SaneTicket(s.tickets, id);
        StraySettleBalancesIff(start, s.books.buckets, amounts, r.usage, now, bucket, open);
      }
    }
  }

  /** Settling amounts that are not held: the bucket keeps holding `open` only in these cases. */
  lemma StraySettleBalancesIff(start: Bucket, buckets: Buckets, amounts: seq<Amount>, usage: Usage,
                                                  now: Time, id: Id, open: int)
    requires id in buckets && Balanced(start, buckets[id], open) && NonNegative(amounts)
    ensures Balanced(start, Settle(buckets, amounts, usage, now)[id], open)
            <==> || TotalFor(amounts, id) == 0
                 || (&& open == 0 && Names(amounts, id)
                     && Charge(TotalFor(amounts, id), DimensionFor(amounts, id), usage) <= buckets[id].remaining.value)
  {
    TotalNonNegative(amounts, id);
    if !Names(amounts, id) {
      UnnamedTotal(amounts, id);
    }
  }

  lemma StrayReleaseBalancesIff(start: Bucket, buckets: Buckets, amounts: seq<Amount>, id: Id, open: int)
    requires id in buckets && Balanced(start, buckets[id], open) && NonNegative(amounts)
    ensures Balanced(start, Release(buckets, amounts)[id], open) <==> TotalFor(amounts, id) == 0 || open == 0
  {
    TotalNonNegative(amounts, id);
    if !Names(amounts, id) {
      UnnamedTotal(amounts, id);
    }
  }

  lemma DropIff(start: Bucket, s: BrokerState, id: Id, state: TicketState, bucket: Id)
    requires InStep(start, s, bucket) && id in s.tickets && !state.Open? && !state.Unresolved?
    ensures InStep(start, Drop(s, id, state), bucket) <==> ReleaseHarmless(s, id, bucket)
  {
    var t := Drop(s, id, state);
    var amounts, open := s.tickets[id].ticket.amounts, HeldByAll(s.ids, s.tickets, bucket);
    DropKeeps(s, id, state);
    assert TicketAt(s, id) && SaneTicket(s.tickets, id);
    SaneAfterPut(s, t, id);
    HeldAfterPut(s.ids, s.tickets, id, t.tickets[id], bucket);
    HeldCovers(s.ids, s.tickets, id, bucket);
    if Holding(s.tickets[id]) {
      ReleaseBalances(start, s.books.buckets, amounts, bucket, open);
    } else {
      StrayReleaseBalancesIff(start, s.books.buckets, amounts, bucket, open);
    }
  }

  /** A ticket that becomes unresolved holds its amounts, whether the ledger does or not. */
  lemma UnresolveIff(start: Bucket, s: BrokerState, id: Id, p: Pending, bucket: Id)
    requires InStep(start, s, bucket) && id in s.tickets && p.ticket.state.Unresolved? && WellKept(Put(s, id, p))
    requires p.ticket.amounts == s.tickets[id].ticket.amounts
    ensures InStep(start, Put(s, id, p), bucket) <==> Holding(s.tickets[id]) || TotalOf(s, id, bucket) == 0
  {
    assert TicketAt(s, id);
    SaneAfterPut(s, Put(s, id, p), id);
    HeldAfterPut(s.ids, s.tickets, id, p, bucket);
    HeldCovers(s.ids, s.tickets, id, bucket);
  }

  lemma SendInStep(start: Bucket, s: BrokerState, id: Id, bucket: Id)
    requires InStep(start, s, bucket) && id in s.tickets && !Answered(s.tickets[id])
    ensures InStep(start, Send(s, id), bucket) && Send(s, id).tickets[id].receipt.None?
  {
    SendKeeps(s, id);
    MoveInStep(start, s, Send(s, id), id, bucket);
  }

  /** Marking or answering a ticket leaves what a receipt or a release would do as it was. */
  lemma SameHarm(start: Bucket, s: BrokerState, t: BrokerState, id: Id, r: Receipt, bucket: Id)
    requires InStep(start, s, bucket) && InStep(start, t, bucket)
    requires id in s.tickets && t.ids == s.ids && id in t.tickets && t.tickets == s.tickets[id := t.tickets[id]]
    requires t.tickets[id].ticket.call == s.tickets[id].ticket.call
    requires t.tickets[id].ticket.state == s.tickets[id].ticket.state
    requires t.tickets[id].ticket.amounts == s.tickets[id].ticket.amounts
    requires t.settlementKeys == s.settlementKeys && t.books == s.books
    ensures SettleHarmless(t, r, bucket) <==> SettleHarmless(s, r, bucket)
    ensures ReleaseHarmless(t, id, bucket) <==> ReleaseHarmless(s, id, bucket)
  {
    SameCallTicket(s.ids, s.tickets, id, t.tickets[id], r.call);
  }

  lemma {:induction false} SameCallTicket(ids: seq<Id>, tickets: Tickets, id: Id, p: Pending, call: Id)
    requires id in tickets && p.ticket.call == tickets[id].ticket.call
    ensures TicketOfCall(ids, tickets, call) == TicketOfCall(ids, tickets[id := p], call)
  {
    if ids != [] {
      SameCallTicket(ids[1..], tickets, id, p, call);
    }
  }

  lemma ConclusionIff(start: Bucket, s: BrokerState, id: Id, r: Receipt, now: Time, bucket: Id)
    requires InStep(start, s, bucket) && id in s.tickets && s.tickets[id].sent && s.tickets[id].receipt.None?
    requires Conclusive(Replied(r))
    ensures InStep(start, Deliver(s, id, Replied(r), now).0, bucket) <==> DeliverHarmless(s, id, Replied(r), bucket)
  {
    var p := s.tickets[id];
    assert TicketAt(s, id);
    var answered := Put(s, id, Move(p, Settled, p.ticket.state).(receipt := Some(r)));
    AdvanceKeeps(s, answered, id);
    MoveInStep(start, s, answered, id, bucket);
    SameHarm(start, s, answered, id, r, bucket);
    if Reconcile(answered, r, now).Some? {
      ReconcileIff(start, answered, r, now, bucket);
    } else {
      DropIff(start, answered, id, Released, bucket);
    }
  }

  lemma DeliverIff(start: Bucket, s: BrokerState, id: Id, outcome: Outcome, now: Time, bucket: Id)
    requires InStep(start, s, bucket) && id in s.tickets && s.tickets[id].sent && s.tickets[id].receipt.None?
    ensures InStep(start, Deliver(s, id, outcome, now).0, bucket) <==> DeliverHarmless(s, id, outcome, bucket)
  {
    if Conclusive(outcome) {
      ConclusionIff(start, s, id, outcome.reply, now, bucket);
    } else if !outcome.Escaped? {
      DeliverKeeps(s, id, outcome, now);
      var t := Deliver(s, id, outcome, now).0;
      UnresolveIff(start, s, id, t.tickets[id], bucket);
    }
  }

  lemma InvokeIff(start: Bucket, s: BrokerState, op: BrokerOp, bucket: Id)
    requires InStep(start, s, bucket) && op.OpInvoke?
    ensures InStep(start, Invoke(s, op.id, op.now, op.outcome, op.settledAt).0, bucket) <==> Harmless(s, op, bucket)
  {
    var id := op.id;
    if id in s.tickets && !Answered(s.tickets[id]) {
      if OverdueUnsent(s.tickets[id], op.now) {
        DropIff(start, s, id, Expired, bucket);
      } else {
        SendInStep(start, s, id, bucket);
        DeliverIff(start, Send(s, id), id, op.outcome, op.settledAt, bucket);
        if Conclusive(op.outcome) {
          SameHarm(start, s, Send(s, id), id, op.outcome.reply, bucket);
        }
      }
    }
  }

  lemma {:induction false} InspectWithinWindow(buckets: Buckets, amounts: seq<Amount>, now: Time, id: Id)
    requires id in buckets && !RollsOver(buckets[id], now)
    ensures var after := Inspect(buckets, amounts, now); id in after && after[id] == buckets[id]
    decreases |amounts|
  {
    if amounts != [] && amounts[0].bucket in buckets {
      InspectWithinWindow(buckets[amounts[0].bucket := MaybeReset(buckets[amounts[0].bucket], now)],
                          amounts[1..], now, id);
    }
  }

  /** A reservation within the window does not move its end. */
  lemma ReserveKeepsWindow(cfg: LedgerConfig, who: Asker, buckets: Buckets, amounts: seq<Amount>,
                                              now: Time, id: Id, later: Time)
    requires id in buckets && !RollsOver(buckets[id], now) && !RollsOver(buckets[id], later)
    ensures var after := Reserve(cfg, who, buckets, amounts, now).0; id in after && !RollsOver(after[id], later)
  {
    ReserveEffect(cfg, who, buckets, amounts, now, id);
  }

  /** What issuing a ticket does to a bucket within its window: hold the ticket's amounts, or nothing. */
  lemma IssueBalances(u: Setup, start: Bucket, s: BrokerState, op: BrokerOp, bucket: Id, open: int)
    requires op.OpIssue? && u.cfg.defaultRequest >= 0
    requires bucket in s.books.buckets && Balanced(start, s.books.buckets[bucket], open) && WindowOpen(s, op, bucket)
    ensures var t := StepBroker(u, s, op);
            && bucket in t.books.buckets
            && (t.ids == s.ids ==> t == s.(books := t.books) && Balanced(start, t.books.buckets[bucket], open))
            && (t.ids != s.ids ==>
                  && t.ids == s.ids + [op.id] && op.id in t.tickets && t.tickets == s.tickets[op.id := t.tickets[op.id]]
                  && Holding(t.tickets[op.id]) && NonNegative(t.tickets[op.id].ticket.amounts)
                  && Balanced(start, t.books.buckets[bucket], open + TotalFor(t.tickets[op.id].ticket.amounts, bucket)))
  {
    if op.req.allowed {
      var req := op.req;
      var amounts := Estimate(u.cfg, s.books.buckets, req.buckets, req.input, req.output, req.benchmark);
      EstimateIsSane(u.cfg, s.books.buckets, req.buckets, req.input, req.output, req.benchmark);
      ReserveBalances(u.cfg, start, req.who, s.books.buckets, amounts, op.now, bucket, open);
      var (after, reply) := Reserve(u.cfg, req.who, s.books.buckets, amounts, op.now);
      if reply.Granted? {
        ReserveKeepsWindow(u.cfg, req.who, s.books.buckets, amounts, op.now, bucket, op.viewed);
        InspectWithinWindow(after, reply.amounts, op.viewed, bucket);
      }
    }
  }

  lemma IssueInStep(u: Setup, start: Bucket, s: BrokerState, op: BrokerOp, bucket: Id)
    requires InStep(start, s, bucket) && op.OpIssue? && Plausible(s, op) && u.cfg.defaultRequest >= 0
    requires WindowOpen(s, op, bucket)
    ensures InStep(start, StepBroker(u, s, op), bucket)
  {
    var t := StepBroker(u, s, op);
    IssueKeeps(u, s, op);
    IssueBalances(u, start, s, op, bucket, HeldByAll(s.ids, s.tickets, bucket));
    if t.ids != s.ids {
      HeldAfterPut(s.ids, s.tickets, op.id, t.tickets[op.id], bucket);
      assert t.ids[..|t.ids| - 1] == s.ids;
    }
    forall x ensures SaneTicket(t.tickets, x) {
      assert SaneTicket(s.tickets, x);
    }
  }

  // ---- every step, and whole runs ----

  /** A step keeps the ledger in step with the tickets exactly when it is harmless to the bucket. */
  lemma StepInStepIff(u: Setup, start: Bucket, s: BrokerState, op: BrokerOp, bucket: Id)
    requires InStep(start, s, bucket) && Plausible(s, op) && WindowOpen(s, op, bucket) && u.cfg.defaultRequest >= 0
    ensures InStep(start, StepBroker(u, s, op), bucket) <==> Harmless(s, op, bucket)
  {
    match op
    case OpIssue(_, _, _, _, _, _) => IssueInStep(u, start, s, op, bucket);
    case OpInvoke(_, _, _, _) => InvokeIff(start, s, op, bucket);
    case OpReconcile(r, now) =>
      if Reconcile(s, r, now).Some? {
        ReconcileIff(start, s, r, now, bucket);
      }
    case OpExpire(id) =>
      if id in s.tickets && !s.tickets[id].sent {
        DropIff(start, s, id, Expired, bucket);
      }
  }

  ghost predicate HarmlessStep(s: BrokerState, op: BrokerOp, bucket: Id) {
    && WindowOpen(s, op, bucket)
    && (bucket in s.books.buckets && s.books.buckets[bucket].remaining.Some? ==> Harmless(s, op, bucket))
  }

  /** While every step is harmless, a known bucket holds within its window exactly what the open and the
      unresolved tickets hold, and `remaining + settled` is constant. */
  lemma {:induction false} RunsStayInStep(u: Setup, states: seq<BrokerState>, ops: seq<BrokerOp>, i: nat, bucket: Id)
    requires BrokerRun(u, states, ops) && i <= |ops| && Idle(states[0]) && u.cfg.defaultRequest >= 0
    requires Untouched(Account(states[0].books, []), bucket)
    requires forall j :: 0 <= j < i ==> HarmlessStep(states[j], ops[j], bucket)
    ensures InStep(states[0].books.buckets[bucket], states[i], bucket)
  {
    if i > 0 {
      RunsStayInStep(u, states, ops, i - 1, bucket);
      assert RunStep(u, states, ops, i - 1);
      StepInStepIff(u, states[0].books.buckets[bucket], states[i - 1], ops[i - 1], bucket);
    }
  }

  /** The first step that is not harmless is where the ledger and the tickets part. */
  lemma FirstHarmParts(u: Setup, states: seq<BrokerState>, ops: seq<BrokerOp>, i: nat, bucket: Id)
    requires BrokerRun(u, states, ops) && i < |ops| && Idle(states[0]) && u.cfg.defaultRequest >= 0
    requires Untouched(Account(states[0].books, []), bucket)
    requires forall j :: 0 <= j < i ==> HarmlessStep(states[j], ops[j], bucket)
    requires WindowOpen(states[i], ops[i], bucket) && !HarmlessStep(states[i], ops[i], bucket)
    ensures !InStep(states[0].books.buckets[bucket], states[i + 1], bucket)
  {
    RunsStayInStep(u, states, ops, i, bucket);
    assert RunStep(u, states, ops, i);
    StepInStepIff(u, states[0].books.buckets[bucket], states[i], ops[i], bucket);
  }

  /** So the ledger keeps the reservation of a ticket of unknown outcome until that is reconciled. */
  lemma UnresolvedKeepsReservation(u: Setup, states: seq<BrokerState>, ops: seq<BrokerOp>,
                                                      i: nat, j: nat, id: Id, bucket: Id)
    requires BrokerRun(u, states, ops) && i <= j <= |ops| && Idle(states[0]) && u.cfg.defaultRequest >= 0
    requires Untouched(Account(states[0].books, []), bucket)
    requires forall m :: 0 <= m < j ==> HarmlessStep(states[m], ops[m], bucket)
    requires id in states[i].tickets && states[i].tickets[id].ticket.state.Unresolved?
    requires forall m :: i <= m < j ==> !Reconciles(states[m], ops[m], states[i].tickets[id].ticket.call)
    ensures bucket in states[j].books.buckets
    ensures TotalFor(states[i].tickets[id].ticket.amounts, bucket) <= states[j].books.buckets[bucket].reserved
  {
    UnresolvedUntilReconciled(u, states, ops, i, j, id);
    RunsStayInStep(u, states, ops, j, bucket);
    assert TicketAt(states[j], id);
    HeldCovers(states[j].ids, states[j].tickets, id, bucket);
  }

  /** A discipline that is enough: only a ticket that still holds its amounts is expired, sent or settled.
      Which ticket a send settles is up to the receipt that the adapter gives. */
  ghost predicate Orderly(s: BrokerState, op: BrokerOp) {
    match op
    case OpIssue(_, _, _, _, _, _) => true
    case OpInvoke(id, _, outcome, _) =>
      && (id in s.tickets && !Answered(s.tickets[id]) ==> s.tickets[id].ticket.state.Open?)
      && (Conclusive(outcome) ==> SettlesHeld(s, outcome.reply))
    case OpReconcile(r, _) => SettlesHeld(s, r)
    case OpExpire(id) => id in s.tickets && !s.tickets[id].sent ==> s.tickets[id].ticket.state.Open?
  }

  ghost predicate SettlesHeld(s: BrokerState, r: Receipt) {
    var found := TicketOfCall(s.ids, s.tickets, r.call);
    found.Some? ==> Holding(s.tickets[found.value])
  }

  lemma OrderlyIsHarmless(s: BrokerState, op: BrokerOp, bucket: Id)
    requires Orderly(s, op) && bucket in s.books.buckets && s.books.buckets[bucket].remaining.Some?
    ensures Harmless(s, op, bucket)
  {
  }

  // ---- the ways out of step ----

  /** Expiring an unsent ticket again, or after it was settled, is harmless only where there is nothing to lose. */
  lemma StrayExpiryIff(start: Bucket, s: BrokerState, id: Id, bucket: Id)
    requires InStep(start, s, bucket) && id in s.tickets && !s.tickets[id].sent && !s.tickets[id].ticket.state.Open?
    ensures InStep(start, ExpireUnsent(s, id), bucket)
            <==> TotalOf(s, id, bucket) == 0 || HeldByAll(s.ids, s.tickets, bucket) == 0
  {
    assert TicketAt(s, id);
    DropIff(start, s, id, Expired, bucket);
  }

  /** Invoking a ticket whose reservation is gone: an overdue one is released again; any other is sent,
      because only the deadline is looked at, and comes to hold amounts that the ledger does not. */
  lemma StrayInvokeIff(start: Bucket, s: BrokerState, op: BrokerOp, bucket: Id)
    requires InStep(start, s, bucket) && op.OpInvoke? && op.id in s.tickets
    requires !Answered(s.tickets[op.id]) && !Holding(s.tickets[op.id])
    ensures var total, held := TotalOf(s, op.id, bucket), HeldByAll(s.ids, s.tickets, bucket);
            InStep(start, Invoke(s, op.id, op.now, op.outcome, op.settledAt).0, bucket)
            <==> if OverdueUnsent(s.tickets[op.id], op.now) then total == 0 || held == 0
                 else if op.outcome.Escaped? then true
                 else if !Conclusive(op.outcome) then total == 0
                 else if SettlementKey(op.outcome.reply) in s.settlementKeys then total == 0 || held == 0
                 else SettleHarmless(s, op.outcome.reply, bucket)
  {
    InvokeIff(start, s, op, bucket);
  }

  /** From every state in step: a ticket that was expired before its deadline is still sent when invoked,
      and an exception then leaves it holding what the ledger has already given back. */
  lemma ExpiredTicketIsStillSent(start: Bucket, s: BrokerState, op: BrokerOp, bucket: Id)
    requires InStep(start, s, bucket) && op.OpInvoke? && op.outcome.Raised? && op.id in s.tickets
    requires var p := s.tickets[op.id]; p.ticket.state.Open? && !p.sent && !OverdueUnsent(p, op.now)
    requires TotalOf(s, op.id, bucket) > 0
    ensures var expired := ExpireUnsent(s, op.id);
            var invoked := Invoke(expired, op.id, op.now, op.outcome, op.settledAt).0;
            && InStep(start, expired, bucket)
            && invoked.invocations == s.invocations + [op.id] && !InStep(start, invoked, bucket)
  {
    DropIff(start, s, op.id, Expired, bucket);
    assert TicketAt(s, op.id);
    InvokeIff(start, ExpireUnsent(s, op.id), op, bucket);
  }

  /** Two tickets of one request each: expiring the first twice gives away what the second holds. */
  lemma RepeatedExpiryExample() returns (start: Bucket, s: BrokerState)
    ensures InStep(start, s, "q") && "a" in s.tickets && s.tickets["a"].ticket.state.Open?
    ensures var t := ExpireUnsent(ExpireUnsent(s, "a"), "a");
            HeldByAll(t.ids, t.tickets, "q") == 1 && t.books.buckets["q"].reserved == 0
  {
    start := Bucket(Requests, None, Some(5), Lifetime, None, 0, 1, 0, 0);
    var one := [Amount("q", Requests, 1)];
    var a := Pending(Ticket("x", one, 9, Held, Open), false, None);
    var b := Pending(Ticket("y", one, 9, Held, Open), false, None);
    s := BrokerState(Books(map["q" := start.(reserved := 2)], {}), ["a", "b"], map["a" := a, "b" := b], {}, [], 0);
    assert one[..0] == [] && TotalFor(one, "q") == 1 && one[0].bucket == "q" && Names(one, "q");
    assert HeldByAll(["a"], s.tickets, "q") == 1 by {
      assert ["a"][..0] == [];
    }
    assert ["a", "b"][..1] == ["a"];
    assert HeldByAll(s.ids, s.tickets, "q") == 2;
    var once := ExpireUnsent(s, "a");
    DropIff(start, s, "a", Expired, "q");
    assert HeldByAll(once.ids, once.tickets, "q") == 1 by {
      HeldAfterPut(s.ids, s.tickets, "a", once.tickets["a"], "q");
    }
    var twice := ExpireUnsent(once, "a");
    HeldAfterPut(once.ids, once.tickets, "a", twice.tickets["a"], "q");
  }

  /** A second receipt for a settled call, under another key, is harmless only where the ticket asked nothing
      of the bucket, or where no other ticket holds it and the charge is still there to take. */
  lemma StrayReceiptIff(start: Bucket, s: BrokerState, r: Receipt, now: Time, id: Id, bucket: Id)
    requires InStep(start, s, bucket) && Reconcile(s, r, now).Some?
    requires TicketOfCall(s.ids, s.tickets, r.call) == Some(id) && !Holding(s.tickets[id])
    requires Names(s.tickets[id].ticket.amounts, bucket)
    ensures var amounts := s.tickets[id].ticket.amounts;
            var total := TotalFor(amounts, bucket);
            InStep(start, Reconcile(s, r, now).value, bucket)
            <==> || total == 0
                 || (&& HeldByAll(s.ids, s.tickets, bucket) == 0
                     && Charge(total, DimensionFor(amounts, bucket), r.usage)
                        <= s.books.buckets[bucket].remaining.value)
  {
    ReconcileIff(start, s, r, now, bucket);
  }
}
