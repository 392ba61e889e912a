/** The ledger's decisions in terms of its buckets' own fields: who gets a reservation and who does not, what a
    settlement costs, and when windows begin again. */
module LedgerLaws {
  import opened Common
  import opened Ledger
  import opened LedgerAmounts
  import opened LedgerTheorems

  // ---- windows ----

  /** When a window that is over at `now` ends the next time. */
  ghost function NextEnd(b: Bucket, now: Time): Time
    requires RollsOver(b, now)
  {
    if b.window == Rolling then now + 3_600_000_000
    else if b.observedAt < b.resetAt.value then b.resetAt.value + (b.resetAt.value - b.observedAt)
    else b.resetAt.value + 86_400_000_000
  }

  /** A window that is over starts again with its whole limit and nothing held; any other stays as it is. */
  lemma RolloverRestores(b: Bucket, now: Time, later: Time)
    ensures var after := MaybeReset(b, now);
            && (!RollsOver(b, now) ==> after == b)
            && (RollsOver(b, now) ==>
                  && after == b.(remaining := b.limit, reserved := 0, resetAt := Some(NextEnd(b, now)),
                                 observedAt := now, version := b.version + 1)
                  && (RollsOver(after, later) <==> later >= NextEnd(b, now)))
  {
  }

  /** A fixed window that was left alone past its next end as well is over again at once: what is reserved right after
      such a rollover is discarded by the very next request. */
  lemma RollsAgainIff(b: Bucket, now: Time, amount: int)
    requires RollsOver(b, now)
    ensures MaybeReset(Hold(MaybeReset(b, now), amount), now).reserved == amount
            <==> amount == 0 || b.window == Rolling || now < NextEnd(b, now)
  {
  }

  // ---- who gets a reservation ----

  /** What the bucket can still give at `now`; nothing is known of an unknown quota. */
  ghost function Free(b: Bucket, now: Time): Option<int> {
    if RollsOver(b, now) then Some(Max(0, b.limit.value))
    else if b.remaining.None? then None
    else Some(Max(0, b.remaining.value - b.reserved))
  }

  /** An unknown quota is open only to a probe on a route verified to be free; a known one to whoever asks for no more
      than is free, and mission work must leave the planning floor of the control bucket. */
  ghost predicate MayReserve(cfg: LedgerConfig, who: Asker, id: Id, b: Bucket, total: int, now: Time) {
    match Free(b, now)
    case None => who.probe && cfg.allowUnknownProbe && who.route in cfg.freeRoutes
    case Some(free) =>
      total <= free && (id == cfg.controlBucket && !who.privileged ==> free - total >= cfg.floor)
  }

  ghost predicate MayReserveAt(cfg: LedgerConfig, who: Asker, buckets: Buckets, amounts: seq<Amount>, now: Time,
                               id: Id) {
    Names(amounts, id) ==> id in buckets && MayReserve(cfg, who, id, buckets[id], TotalFor(amounts, id), now)
  }

  lemma AdmitIff(cfg: LedgerConfig, who: Asker, b: Bucket, amt: Amount, now: Time)
    ensures AdmitFault(cfg, who, MaybeReset(b, now), amt).None?
            <==> MayReserve(cfg, who, amt.bucket, b, amt.amount, now)
  {
  }

  lemma AdmitNamesObstacle(cfg: LedgerConfig, who: Asker, b: Bucket, amt: Amount, now: Time)
    ensures var fault := AdmitFault(cfg, who, MaybeReset(b, now), amt);
            fault.Some? ==> fault.value == Obstacle(cfg, amt.bucket, b, amt.amount, now)
  {
  }

  /** A request is granted exactly when it names something and every bucket it names may give the whole sum asked. */
  lemma GrantedIff(cfg: LedgerConfig, who: Asker, buckets: Buckets, amounts: seq<Amount>, now: Time)
    ensures Reserve(cfg, who, buckets, amounts, now).1.Granted?
            <==> amounts != [] && forall id :: MayReserveAt(cfg, who, buckets, amounts, now, id)
  {
    GrantedMeans(cfg, who, buckets, amounts, now);
    forall id
      ensures MayReserveAt(cfg, who, buckets, amounts, now, id) <==> Admissible(cfg, who, buckets, amounts, now, id)
    {
      if Names(amounts, id) && id in buckets {
        AdmitIff(cfg, who, buckets[id], Amount(id, DimensionFor(amounts, id), TotalFor(amounts, id)), now);
      }
    }
  }

  // ---- why a reservation is denied ----

  ghost function Obstacle(cfg: LedgerConfig, id: Id, b: Bucket, total: int, now: Time): LedgerFault {
    match Free(b, now)
    case None => UnknownQuota(id)
    case Some(free) =>
      if total <= free then ControlReserveProtected(id)
      else if free == 0 then ZeroRemaining(id)
      else Insufficient(id, total, free)
  }

  lemma {:induction false} MissingIsFirst(buckets: Buckets, ordered: seq<Amount>) returns (i: nat)
    requires FirstMissing(buckets, ordered).Some?
    ensures i < |ordered| && ordered[i].bucket !in buckets && FirstMissing(buckets, ordered) == Some(ordered[i].bucket)
    ensures forall j :: 0 <= j < i ==> ordered[j].bucket in buckets
  {
    if ordered[0].bucket !in buckets {
      i := 0;
    } else {
      var k := MissingIsFirst(buckets, ordered[1..]);
      i := k + 1;
      assert forall j :: 0 < j < |ordered| ==> ordered[j] == ordered[1..][j - 1];
    }
  }

  /** In a list in text order, what comes before a place is what is less. */
  lemma EarlierIsLess(amounts: seq<Amount>, i: nat, x: Id) returns (j: nat)
    requires i < |Consolidate(amounts)| && Names(amounts, x) && TextLess(x, Consolidate(amounts)[i].bucket)
    ensures j < i && Consolidate(amounts)[j].bucket == x
  {
    var ordered := Consolidate(amounts);
    assert Names(ordered, x);
    var k :| 0 <= k < |ordered| && ordered[k].bucket == x;
    TextTrichotomy(x, ordered[i].bucket);
    j := k;
  }

  /** A denial names the first bucket, in text order, that is missing; if none is, the first that may not give. */
  lemma DenialNamesFirst(cfg: LedgerConfig, who: Asker, buckets: Buckets, amounts: seq<Amount>, now: Time)
    returns (id: Id)
    requires amounts != [] && Reserve(cfg, who, buckets, amounts, now).1.Denied?
    ensures Names(amounts, id)
    ensures var fault := Reserve(cfg, who, buckets, amounts, now).1.fault;
            if id !in buckets then
              && fault == UnknownBucket(id)
              && forall x :: Names(amounts, x) && TextLess(x, id) ==> x in buckets
            else
              && (forall x :: Names(amounts, x) ==> x in buckets)
              && !MayReserveAt(cfg, who, buckets, amounts, now, id)
              && fault == Obstacle(cfg, id, buckets[id], TotalFor(amounts, id), now)
              && forall x :: Names(amounts, x) && TextLess(x, id) ==> MayReserveAt(cfg, who, buckets, amounts, now, x)
  {
    var ordered := Consolidate(amounts);
    if FirstMissing(buckets, ordered).Some? {
      var i := MissingIsFirst(buckets, ordered);
      id := ordered[i].bucket;
      forall x | Names(amounts, x) && TextLess(x, id) ensures x in buckets {
        var j := EarlierIsLess(amounts, i, x);
      }
    } else {
      id := FirstRefusal(cfg, who, buckets, amounts, now);
    }
  }

  lemma FirstRefusal(cfg: LedgerConfig, who: Asker, buckets: Buckets, amounts: seq<Amount>, now: Time) returns (id: Id)
    requires amounts != [] && Reserve(cfg, who, buckets, amounts, now).1.Denied?
    requires FirstMissing(buckets, Consolidate(amounts)).None?
    ensures id in buckets && Names(amounts, id) && forall x :: Names(amounts, x) ==> x in buckets
    ensures !MayReserveAt(cfg, who, buckets, amounts, now, id)
    ensures Reserve(cfg, who, buckets, amounts, now).1.fault
            == Obstacle(cfg, id, buckets[id], TotalFor(amounts, id), now)
    ensures forall x :: Names(amounts, x) && TextLess(x, id) ==> MayReserveAt(cfg, who, buckets, amounts, now, x)
  {
    var i := RefusalIndex(cfg, who, buckets, amounts, now);
    var ordered := Consolidate(amounts);
    id := ordered[i].bucket;
    forall x | Names(amounts, x) ensures x in buckets {
      assert Names(ordered, x);
    }
    forall x | Names(amounts, x) && TextLess(x, id) ensures MayReserveAt(cfg, who, buckets, amounts, now, x) {
      var j := EarlierIsLess(amounts, i, x);
    }
  }

  lemma RefusalIndex(cfg: LedgerConfig, who: Asker, buckets: Buckets, amounts: seq<Amount>, now: Time) returns (i: nat)
    requires amounts != [] && Reserve(cfg, who, buckets, amounts, now).1.Denied?
    requires FirstMissing(buckets, Consolidate(amounts)).None?
    ensures var ordered := Consolidate(amounts);
            && i < |ordered|
            && var id := ordered[i].bucket;
            && id in buckets && !MayReserve(cfg, who, id, buckets[id], ordered[i].amount, now)
            && Reserve(cfg, who, buckets, amounts, now).1.fault
               == Obstacle(cfg, id, buckets[id], ordered[i].amount, now)
            && forall j :: 0 <= j < i ==>
                 && ordered[j].bucket in buckets
                 && MayReserve(cfg, who, ordered[j].bucket, buckets[ordered[j].bucket], ordered[j].amount, now)
  {
    var ordered := Consolidate(amounts);
    i := FaultIsReal(cfg, who, buckets, ordered, now);
    AdmitIff(cfg, who, buckets[ordered[i].bucket], ordered[i], now);
    AdmitNamesObstacle(cfg, who, buckets[ordered[i].bucket], ordered[i], now);
    forall j | 0 <= j < i
      ensures MayReserve(cfg, who, ordered[j].bucket, buckets[ordered[j].bucket], ordered[j].amount, now)
    {
      AdmitIff(cfg, who, buckets[ordered[j].bucket], ordered[j], now);
    }
  }

  // ---- what a settlement costs ----

  /** The reported usage, if there is a report: never less than nothing and never more than was reserved.  Without a
      report, all that was reserved. */
  ghost function Cost(reserved: int, dimension: Dimension, usage: Usage): int {
    if dimension !in usage then reserved
    else if usage[dimension] < 0 then 0
    else if usage[dimension] > reserved then reserved
    else usage[dimension]
  }

  lemma {:induction false} SingleDimension(amounts: seq<Amount>, i: nat)
    requires LocksOnce(amounts) && i < |amounts|
    ensures Names(amounts, amounts[i].bucket) && DimensionFor(amounts, amounts[i].bucket) == amounts[i].dimension
  {
    var front, last := amounts[..|amounts| - 1], amounts[|amounts| - 1];
    assert amounts == front + [last];
    ExtendAmounts(front, last, amounts[i].bucket);
    if i < |front| {
      SingleDimension(front, i);
    }
  }

  /** Settling an amount that the bucket holds takes exactly its cost off what remains and adds it to what is settled;
      a bucket that no amount names stays as it was. */
  lemma SettleTakesCost(buckets: Buckets, amounts: seq<Amount>, usage: Usage, now: Time, i: nat)
    requires LocksOnce(amounts) && i < |amounts| && amounts[i].bucket in buckets && amounts[i].amount >= 0
    ensures var amt, b := amounts[i], buckets[amounts[i].bucket];
            var after, cost := Settle(buckets, amounts, usage, now)[amt.bucket], Cost(amt.amount, amt.dimension, usage);
            && after.settled == b.settled + cost && after.version == b.version + 1 && after.observedAt == now
            && (b.remaining.None? ==> after.remaining.None?)
            && (b.remaining.Some? && amt.amount <= b.reserved <= b.remaining.value ==>
                  after.remaining == Some(b.remaining.value - cost) && after.reserved == b.reserved - amt.amount)
  {
    SingleTotal(amounts, i);
    SingleDimension(amounts, i);
  }

  lemma SettleSparesOthers(buckets: Buckets, amounts: seq<Amount>, usage: Usage, now: Time, id: Id)
    requires id in buckets && !Names(amounts, id)
    ensures Settle(buckets, amounts, usage, now)[id] == buckets[id]
  {
  }

  // ---- what a whole run costs ----

  ghost function CostOf(a: Account, op: AccountOp, id: Id): int {
    if op.Spend? && op.k < |a.open| && op.key !in a.books.settledKeys && Names(a.open[op.k], id)
    then Cost(TotalFor(a.open[op.k], id), DimensionFor(a.open[op.k], id), op.usage) else 0
  }

  ghost function CostOfRun(states: seq<Account>, ops: seq<AccountOp>, i: nat, id: Id): int
    requires |states| == |ops| + 1 && i <= |ops|
  {
    if i == 0 then 0 else CostOfRun(states, ops, i - 1, id) + CostOf(states[i - 1], ops[i - 1], id)
  }

  lemma OpenStaysSane(cfg: LedgerConfig, a: Account, op: AccountOp)
    requires OpenSane(a.open) && Possible(a, op)
    ensures OpenSane(Transact(cfg, a, op).open)
  {
    if op.Take? && Reserve(cfg, op.who, a.books.buckets, op.amounts, op.now).1.Granted? {
      GrantedMeans(cfg, op.who, a.books.buckets, op.amounts, op.now);
      ConsolidateNonNegative(op.amounts);
    }
  }

  lemma TransactCosts(cfg: LedgerConfig, a: Account, op: AccountOp, id: Id)
    requires OpenSane(a.open) && Possible(a, op) && id in a.books.buckets
    ensures var after := Transact(cfg, a, op).books.buckets;
            id in after && after[id].settled == a.books.buckets[id].settled + CostOf(a, op, id)
  {
    match op
    case Take(who, amounts, now) => TakeCostsNothing(cfg, who, a.books.buckets, amounts, now, id);
    case GiveBack(_) =>
    case Spend(k, _, usage, now) => SpendCosts(a.books.buckets, a.open[k], usage, now, id);
  }

  lemma TakeCostsNothing(cfg: LedgerConfig, who: Asker, buckets: Buckets, amounts: seq<Amount>, now: Time, id: Id)
    requires id in buckets
    ensures var after := Reserve(cfg, who, buckets, amounts, now).0;
            id in after && after[id].settled == buckets[id].settled
  {
    ReserveEffect(cfg, who, buckets, amounts, now, id);
  }

  lemma SpendCosts(buckets: Buckets, amounts: seq<Amount>, usage: Usage, now: Time, id: Id)
    requires id in buckets && NonNegative(amounts)
    ensures Settle(buckets, amounts, usage, now)[id].settled == buckets[id].settled
            + if Names(amounts, id) then Cost(TotalFor(amounts, id), DimensionFor(amounts, id), usage) else 0
  {
    TotalNonNegative(amounts, id);
  }

  /** What a bucket has settled is what the spends of the run cost, through rollovers and for unknown quotas too. */
  lemma {:induction false} SettledIsCost(cfg: LedgerConfig, states: seq<Account>, ops: seq<AccountOp>, i: nat, id: Id)
    requires AccountRun(cfg, states, ops) && i <= |ops| && OpenSane(states[0].open) && id in states[0].books.buckets
    ensures OpenSane(states[i].open) && id in states[i].books.buckets
    ensures states[i].books.buckets[id].settled == states[0].books.buckets[id].settled + CostOfRun(states, ops, i, id)
  {
    if i > 0 {
      SettledIsCost(cfg, states, ops, i - 1, id);
      OpenStaysSane(cfg, states[i - 1], ops[i - 1]);
      TransactCosts(cfg, states[i - 1], ops[i - 1], id);
    }
  }

  // ---- estimates ----

  ghost function Tokens(count: Option<int>): int {
    if count.Some? then count.value else 0
  }

  /** How much an estimate asks of a bucket, by what the bucket counts. */
  ghost predicate AsksRight(cfg: LedgerConfig, amt: Amount, input: Option<int>, output: Option<int>) {
    && (amt.dimension in {Requests, Concurrency} ==> amt.amount == cfg.defaultRequest)
    && (amt.dimension in {Credit, Neurons} ==> amt.amount == 1)
    && (amt.dimension == OutputTokens ==> amt.amount == Max(1, Tokens(output) + cfg.tokenMargin))
    && (amt.dimension in {InputTokens, TotalTokens, UncachedTokens} ==>
          amt.amount == Max(1, Tokens(input) + Tokens(output) + cfg.tokenMargin))
  }

  lemma {:induction false} EstimateAsksRight(cfg: LedgerConfig, buckets: Buckets, ids: seq<Id>, input: Option<int>,
                                             output: Option<int>, i: nat)
    requires i < |EstimateEach(cfg, buckets, ids, input, output)|
    ensures var amt := EstimateEach(cfg, buckets, ids, input, output)[i];
            && amt.bucket in buckets && amt.dimension == buckets[amt.bucket].dimension
            && AsksRight(cfg, amt, input, output)
  {
    var front := ids[..|ids| - 1];
    if i < |EstimateEach(cfg, buckets, front, input, output)| {
      EstimateAsksRight(cfg, buckets, front, input, output, i);
    }
  }

  /** A call that keeps to its declared tokens is charged exactly what it reports. */
  lemma EstimateCovers(cfg: LedgerConfig, amt: Amount, input: Option<int>, output: Option<int>, usage: Usage)
    requires AsksRight(cfg, amt, input, output) && cfg.tokenMargin >= 0
    requires amt.dimension in {InputTokens, OutputTokens, TotalTokens, UncachedTokens} && amt.dimension in usage
    requires 0 <= usage[amt.dimension]
    requires usage[amt.dimension] <= Tokens(output) + (if amt.dimension == OutputTokens then 0 else Tokens(input))
    ensures Cost(amt.amount, amt.dimension, usage) == usage[amt.dimension]
  {
  }

  // ---- inspection ----

  /** The search gets past an amount whose bucket exists and, rolled over if due, has a known quota. */
  ghost predicate GetsPast(buckets: Buckets, amt: Amount, now: Time) {
    amt.bucket in buckets && MaybeReset(buckets[amt.bucket], now).remaining.Some?
  }

  lemma {:induction false} InspectSpares(buckets: Buckets, amounts: seq<Amount>, now: Time, id: Id)
    requires id in buckets && !Names(amounts, id)
    ensures Inspect(buckets, amounts, now).Keys == buckets.Keys && Inspect(buckets, amounts, now)[id] == buckets[id]
    decreases |amounts|
  {
    if amounts != [] && amounts[0].bucket in buckets {
      assert amounts[0].bucket != id && (Names(amounts[1..], id) ==> Names(amounts, id));
      InspectSpares(buckets[amounts[0].bucket := MaybeReset(buckets[amounts[0].bucket], now)], amounts[1..], now, id);
    }
  }

  /** Looking for the bottleneck rolls a bucket's window over, if due, exactly when it gets past all amounts before. */
  lemma {:induction false} InspectRollsIff(buckets: Buckets, amounts: seq<Amount>, now: Time, i: nat)
    requires LocksOnce(amounts) && i < |amounts| && amounts[i].bucket in buckets
    ensures var after, id := Inspect(buckets, amounts, now), amounts[i].bucket;
            && id in after
            && after[id] == if forall j :: 0 <= j < i ==> GetsPast(buckets, amounts[j], now)
                            then MaybeReset(buckets[id], now) else buckets[id]
    decreases |amounts|
  {
    var first, rest, id := amounts[0].bucket, amounts[1..], amounts[i].bucket;
    if first in buckets {
      var rolled := buckets[first := MaybeReset(buckets[first], now)];
      if i == 0 {
        assert !Names(rest, id);
        InspectSpares(rolled, rest, now, id);
      } else {
        assert forall j :: 0 < j < |amounts| ==> rest[j - 1] == amounts[j];
        assert forall j :: 0 < j < |amounts| ==>
            (GetsPast(rolled, amounts[j], now) <==> GetsPast(buckets, amounts[j], now));
        InspectRollsIff(rolled, rest, now, i - 1);
        assert GetsPast(buckets, amounts[0], now) ==>
            ((forall j :: 0 <= j < i - 1 ==> GetsPast(rolled, rest[j], now))
             <==> forall j :: 0 <= j < i ==> GetsPast(buckets, amounts[j], now));
      }
    }
  }
}
