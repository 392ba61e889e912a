/** The inference broker's tickets: reserve, send, reconcile, expire. */
module Broker {
  import opened Common
  import opened Ledger
  import opened LedgerService

  datatype TicketState = Open | Committed | Released | Expired | Unresolved

  datatype Phase = Held | Sending | Sent | Settled | Unknown

  datatype ErrorClass = PartialStream | UnknownOutcome | OtherError(name: string)

  /** An empty idempotency key counts as none. */
  datatype Receipt = Receipt(call: Id, network: Id, idempotency: string, usage: Usage, error: Option<ErrorClass>)

  datatype Ticket = Ticket(call: Id, amounts: seq<Amount>, expiresAt: Time, phase: Phase, state: TicketState)

  datatype Pending = Pending(ticket: Ticket, sent: bool, receipt: Option<Receipt>)

  type Tickets = map<Id, Pending>

  /** How one call of the adapter ends.  `Escaped` is an exception that no handler turns into a
      receipt: the adapter's own ambiguous-send error, or one that its classifier fails on. */
  datatype Outcome =
    | Replied(reply: Receipt)
    | Raised(kind: ErrorClass, network: Id)
    | Escaped

  datatype Request = Request(
    who: Asker, allowed: bool, buckets: seq<Id>, input: Option<int>, output: Option<int>, benchmark: bool)

  datatype Answer =
    | Issued(ticket: Ticket) | Returned(receipt: Receipt)
    | PolicyDenied | QuotaDenied(fault: LedgerFault) | NoTicket | ExpiredUnsent | AmbiguousSend | DuplicateKey

  /** `ids` is the order in which the ticket dictionary was filled. */
  datatype BrokerState = BrokerState(
    books: Books, ids: seq<Id>, tickets: Tickets, settlementKeys: set<string>, invocations: seq<Id>, requestCount: int)

  function SettlementKey(r: Receipt): string {
    if r.idempotency != "" then r.idempotency else r.call + ":" + r.network
  }

  /** The first ticket, in the order reserved, that carries the logical call. */
  function TicketOfCall(ids: seq<Id>, tickets: Tickets, call: Id): (found: Option<Id>)
    ensures found.Some? ==> found.value in ids && found.value in tickets && tickets[found.value].ticket.call == call
    ensures found.None? ==> forall id :: id in ids && id in tickets ==> tickets[id].ticket.call != call
  {
    if ids == [] then None
    else if ids[0] in tickets && tickets[ids[0]].ticket.call == call then Some(ids[0])
    else TicketOfCall(ids[1..], tickets, call)
  }

  function Put(s: BrokerState, id: Id, p: Pending): BrokerState {
    s.(tickets := s.tickets[id := p])
  }

  function Move(p: Pending, phase: Phase, state: TicketState): Pending {
    p.(ticket := p.ticket.(phase := phase, state := state))
  }

  /** Hand the ticket's amounts back to the ledger. */
  function Drop(s: BrokerState, id: Id, state: TicketState): BrokerState
    requires id in s.tickets
  {
    var p := s.tickets[id];
    Put(s, id, Move(p, p.ticket.phase, state))
    .(books := s.books.(buckets := Release(s.books.buckets, p.ticket.amounts)))
  }

  function IssueTicket(cfg: LedgerConfig, ttl: int, s: BrokerState, req: Request, id: Id, call: Id, now: Time,
                       issued: Time, viewed: Time): (BrokerState, Answer) {
    if !req.allowed then (s, PolicyDenied) else
    var amounts := Estimate(cfg, s.books.buckets, req.buckets, req.input, req.output, req.benchmark);
    var (after, reply) := Reserve(cfg, req.who, s.books.buckets, amounts, now);
    if reply.Denied? then (s.(books := s.books.(buckets := after)), QuotaDenied(reply.fault)) else
    var ticket := Ticket(call, reply.amounts, issued + ttl, Held, Open);
    (Put(s, id, Pending(ticket, false, None)).(ids := s.ids + [id],
          books := s.books.(buckets := Inspect(after, reply.amounts, viewed))),
     Issued(ticket))
  }

  /** Settle the ticket of the receipt's logical call, once per settlement key; `None` is a duplicate key. */
  function Reconcile(s: BrokerState, r: Receipt, now: Time): Option<BrokerState> {
    var key := SettlementKey(r);
    if key in s.settlementKeys then None else
    var found := TicketOfCall(s.ids, s.tickets, r.call);
    var marked := s.(settlementKeys := s.settlementKeys + {key});
    if found.None? then Some(marked)
    else if key in s.books.settledKeys then None
    else
      var p := s.tickets[found.value];
      Some(Put(marked, found.value, Move(p, Settled, Committed))
           .(books := Books(Settle(s.books.buckets, p.ticket.amounts, r.usage, now), s.books.settledKeys + {key})))
  }

  function Deliver(s: BrokerState, id: Id, outcome: Outcome, now: Time): (BrokerState, Answer)
    requires id in s.tickets
  {
    var p := s.tickets[id];
    match outcome
    case Escaped => (s, AmbiguousSend)
    case Raised(kind, network) =>
      var receipt := Receipt(p.ticket.call, network, "", map[], Some(kind));
      (Put(s, id, Move(p, Unknown, Unresolved).(receipt := Some(receipt))),
       AmbiguousSend)
    case Replied(r) =>
      if r.error == Some(PartialStream) then
        (Put(s, id, Move(p, Unknown, Unresolved).(receipt := Some(r))), Returned(r))
      else if r.error == Some(UnknownOutcome) then
        (Put(s, id, Move(p, Unknown, Unresolved).(receipt := Some(r))), AmbiguousSend)
      else
        var answered := Put(s, id, Move(p, Settled, p.ticket.state).(receipt := Some(r)));
        var settled := Reconcile(answered, r, now);
        if settled.Some? then (settled.value, Returned(r)) else (Drop(answered, id, Released), DuplicateKey)
  }

  /** The ticket is on its way: the adapter is about to be called. */
  function Send(s: BrokerState, id: Id): BrokerState
    requires id in s.tickets
  {
    var p := s.tickets[id];
    Put(s, id, Move(p, Sending, p.ticket.state).(sent := true))
    .(requestCount := s.requestCount + 1, invocations := s.invocations + [id])
  }

  predicate Answered(p: Pending) {
    p.sent && p.receipt.Some?
  }

  predicate OverdueUnsent(p: Pending, now: Time) {
    p.ticket.expiresAt < now && p.ticket.phase.Held?
  }

  function Invoke(s: BrokerState, id: Id, now: Time, outcome: Outcome, settledAt: Time): (BrokerState, Answer) {
    if id !in s.tickets then (s, NoTicket)
    else if Answered(s.tickets[id]) then (s, Returned(s.tickets[id].receipt.value))
    else if OverdueUnsent(s.tickets[id], now) then (Drop(s, id, Expired), ExpiredUnsent)
    else Deliver(Send(s, id), id, outcome, settledAt)
  }

  function ExpireUnsent(s: BrokerState, id: Id): BrokerState {
    if id !in s.tickets || s.tickets[id].sent then s else Drop(s, id, Expired)
  }

  /** A ticket as the caller holds it is the broker's own: both see every change. */
  class SharedInferenceBroker {
    const ledger: QuotaLedger
    const ttl: int
    var ids: seq<Id>
    var tickets: Tickets
    var settlementKeys: set<string>
    var invocations: seq<Id>
    var requestCount: int

    ghost function State(): BrokerState
      reads this, ledger
    {
      BrokerState(Books(ledger.buckets, ledger.settledKeys), ids, tickets, settlementKeys, invocations, requestCount)
    }

    /** Every bucket lock that a release or a settlement takes is taken once. */
    ghost predicate Valid()
      reads this
    {
      forall id :: id in tickets ==> LocksOnce(tickets[id].ticket.amounts)
    }

    constructor (ledger: QuotaLedger, ttl: int)
      ensures Valid() && this.ledger == ledger && this.ttl == ttl
      ensures State() == BrokerState(Books(ledger.buckets, ledger.settledKeys), [], map[], {}, [], 0)
    {
      this.ledger, this.ttl := ledger, ttl;
      ids, tickets, settlementKeys, invocations, requestCount := [], map[], {}, [], 0;
    }

    method ReserveTicket(req: Request, id: Id, call: Id, now: Time, issued: Time, viewed: Time) returns (answer: Answer)
      requires Valid()
      modifies this, ledger
      ensures Valid()
      ensures (State(), answer) == IssueTicket(ledger.cfg, ttl, old(State()), req, id, call, now, issued, viewed)
    {
      if !req.allowed {
        return PolicyDenied;
      }
      var amounts := ledger.EstimateAmounts(req.buckets, req.input, req.output, req.benchmark);
      GrantedMeans(ledger.cfg, req.who, ledger.buckets, amounts, now);
      var reply := ledger.ReserveAmounts(amounts, req.who, now);
      if reply.Denied? {
        return QuotaDenied(reply.fault);
      }
      var ticket := Ticket(call, reply.amounts, issued + ttl, Held, Open);
      var bottleneck := ledger.FindBottleneck(reply.amounts, viewed);
      ids, tickets := ids + [id], tickets[id := Pending(ticket, false, None)];
      return Issued(ticket);
    }

    method FindCall(call: Id) returns (found: Option<Id>)
      ensures found == TicketOfCall(ids, tickets, call)
    {
      var i := 0;
      while i < |ids|
        invariant 0 <= i <= |ids|
        invariant TicketOfCall(ids, tickets, call) == TicketOfCall(ids[i..], tickets, call)
      {
        if ids[i] in tickets && tickets[ids[i]].ticket.call == call {
          return Some(ids[i]);
        }
        assert ids[i..][1..] == ids[i + 1..];
        i := i + 1;
      }
      return None;
    }

    method ReconcileReceipt(r: Receipt, now: Time) returns (ok: bool)
      requires Valid()
      modifies this, ledger
      ensures Valid()
      ensures ok <==> Reconcile(old(State()), r, now).Some?
      ensures State() == if ok then Reconcile(old(State()), r, now).value else old(State())
    {
      var key := SettlementKey(r);
      if key in settlementKeys {
        return false;
      }
      var found := FindCall(r.call);
      if found.Some? {
        var p := tickets[found.value];
        var fault := ledger.SettleAmounts(p.ticket.amounts, key, r.usage, now);
        if fault.Some? {
          return false;
        }
        tickets := tickets[found.value := Move(p, Settled, Committed)];
      }
      settlementKeys := settlementKeys + {key};
      return true;
    }

    method ReleaseTicket(id: Id, state: TicketState)
      requires Valid() && id in tickets
      modifies this, ledger
      ensures Valid() && State() == Drop(old(State()), id, state)
    {
      var p := tickets[id];
      ledger.ReleaseAmounts(p.ticket.amounts);
      tickets := tickets[id := Move(p, p.ticket.phase, state)];
    }

    /** `outcome` is what the adapter does if it is called. */
    method InvokeTicket(id: Id, now: Time, outcome: Outcome, settledAt: Time) returns (answer: Answer)
      requires Valid()
      modifies this, ledger
      ensures Valid() && (State(), answer) == Invoke(old(State()), id, now, outcome, settledAt)
    {
      if id !in tickets {
        return NoTicket;
      }
      var p := tickets[id];
      if p.sent && p.receipt.Some? {
        return Returned(p.receipt.value);
      }
      if p.ticket.expiresAt < now && p.ticket.phase.Held? {
        ReleaseTicket(id, Expired);
        return ExpiredUnsent;
      }
      tickets := tickets[id := Move(p, Sending, p.ticket.state).(sent := true)];
      requestCount := requestCount + 1;
      invocations := invocations + [id];
      assert State() == Send(old(State()), id);
      answer := HandleOutcome(id, outcome, settledAt);
    }

    method HandleOutcome(id: Id, outcome: Outcome, now: Time) returns (answer: Answer)
      requires Valid() && id in tickets
      modifies this, ledger
      ensures Valid() && (State(), answer) == Deliver(old(State()), id, outcome, now)
    {
      var p := tickets[id];
      match outcome
      case Escaped =>
        return AmbiguousSend;
      case Raised(kind, network) =>
        var receipt := Receipt(p.ticket.call, network, "", map[], Some(kind));
        tickets := tickets[id := Move(p, Unknown, Unresolved).(receipt := Some(receipt))];
        return AmbiguousSend;
      case Replied(r) =>
        if r.error == Some(PartialStream) {
          tickets := tickets[id := Move(p, Unknown, Unresolved).(receipt := Some(r))];
          return Returned(r);
        }
        if r.error == Some(UnknownOutcome) {
          tickets := tickets[id := Move(p, Unknown, Unresolved).(receipt := Some(r))];
          return AmbiguousSend;
        }
        tickets := tickets[id := Move(p, Settled, p.ticket.state).(receipt := Some(r))];
        var ok := ReconcileReceipt(r, now);
        if ok {
          return Returned(r);
        }
        ReleaseTicket(id, Released);
        return DuplicateKey;
    }

    method ExpireTicket(id: Id)
      requires Valid()
      modifies this, ledger
      ensures Valid() && State() == ExpireUnsent(old(State()), id)
    {
      if id !in tickets || tickets[id].sent {
        return;
      }
      ReleaseTicket(id, Expired);
    }
  }
}
