/** Quota safety over whole runs of the ledger: no run oversubscribes a bucket, and disciplined
    use conserves every quota and protects the planning floor. */
module LedgerTheorems {
  import opened Common
  import opened Ledger
  import opened LedgerAmounts

  ghost predicate NonNegative(amounts: seq<Amount>) {
    forall i :: 0 <= i < |amounts| ==> amounts[i].amount >= 0
  }

  lemma {:induction false} TotalNonNegative(amounts: seq<Amount>, id: Id)
    requires NonNegative(amounts)
    ensures TotalFor(amounts, id) >= 0
  {
    if amounts != [] {
      TotalNonNegative(amounts[..|amounts| - 1], id);
    }
  }

  // ---- estimates ----

  lemma {:induction false} EstimateEachIsSane(cfg: LedgerConfig, buckets: Buckets, ids: seq<Id>, input: Option<int>,
          output: Option<int>)
    ensures var amounts := EstimateEach(cfg, buckets, ids, input, output);
            && LocksOnce(amounts)
            && (forall id :: Names(amounts, id) <==> id in ids && id in buckets)
            && (forall i :: 0 <= i < |amounts| ==> amounts[i].amount >= Min(1, cfg.defaultRequest))
  {
    if ids != [] {
      var front, id := ids[..|ids| - 1], ids[|ids| - 1];
      assert ids == front + [id];
      EstimateEachIsSane(cfg, buckets, front, input, output);
      var amounts := EstimateEach(cfg, buckets, front, input, output);
      if id !in front && id in buckets {
        var last := Amount(id, buckets[id].dimension, Need(cfg, buckets[id].dimension, input, output));
        assert !Names(amounts, id);
        forall other ensures Names(amounts + [last], other) <==> Names(amounts, other) || other == id {
          ExtendAmounts(amounts, last, other);
        }
      }
    }
  }

  /** An estimate names each known bucket of the route once, and asks at least one unit of it,
      or the configured request amount if that is less. */
  lemma EstimateIsSane(cfg: LedgerConfig, buckets: Buckets, ids: seq<Id>, input: Option<int>, output: Option<int>,
                       benchmark: bool)
    ensures var amounts := Estimate(cfg, buckets, ids, input, output, benchmark);
            && LocksOnce(amounts)
            && (forall id :: Names(amounts, id)
                  <==> id in buckets && (id in ids || (benchmark && id == cfg.benchmarkBucket)))
            && (forall i :: 0 <= i < |amounts| ==> amounts[i].amount >= Min(1, cfg.defaultRequest))
  {
    EstimateEachIsSane(cfg, buckets, ids, input, output);
    var amounts := EstimateEach(cfg, buckets, ids, input, output);
    var extra := cfg.benchmarkBucket;
    if benchmark && extra in buckets && extra !in ids {
      var last := Amount(extra, buckets[extra].dimension, 1);
      assert !Names(amounts, extra);
      forall other ensures Names(amounts + [last], other) <==> Names(amounts, other) || other == extra {
        ExtendAmounts(amounts, last, other);
      }
    }
  }

  // ---- any run: no oversubscription ----

  /** Held never exceeds what is left of a known quota; an unknown quota holds nothing. */
  ghost predicate Solvent(b: Bucket) {
    && (b.limit.Some? ==> b.limit.value >= 0)
    && (b.remaining.Some? ==> 0 <= b.reserved <= b.remaining.value)
    && (b.remaining.None? ==> b.reserved == 0)
  }

  ghost predicate SolventAt(buckets: Buckets, id: Id) {
    id in buckets ==> Solvent(buckets[id])
  }

  ghost predicate AllSolvent(buckets: Buckets) {
    forall id :: SolventAt(buckets, id)
  }

  /** Any call, disciplined or not: releases and settlements may repeat or name amounts never reserved. */
  datatype LedgerOp =
    | OpRegister(bucket: Id, row: Bucket)
    | OpReserve(who: Asker, amounts: seq<Amount>, now: Time)
    | OpRelease(amounts: seq<Amount>)
    | OpSettle(amounts: seq<Amount>, key: string, usage: Usage, now: Time)
    | OpInspect(amounts: seq<Amount>, now: Time)

  ghost function Applied(cfg: LedgerConfig, b: Books, op: LedgerOp): Books {
    match op
    case OpRegister(id, row) => b.(buckets := b.buckets[id := row.(reserved := 0, settled := 0)])
    case OpReserve(who, amounts, now) => b.(buckets := Reserve(cfg, who, b.buckets, amounts, now).0)
    case OpRelease(amounts) => b.(buckets := Release(b.buckets, amounts))
    case OpSettle(amounts, key, usage, now) =>
      if key in b.settledKeys then b
      else Books(Settle(b.buckets, amounts, usage, now), b.settledKeys + {key})
    case OpInspect(amounts, now) => b.(buckets := Inspect(b.buckets, amounts, now))
  }

  ghost predicate SaneOp(op: LedgerOp) {
    match op
    case OpRegister(_, row) => Solvent(row.(reserved := 0))
    case OpReserve(_, amounts, _) => NonNegative(amounts)
    case OpRelease(amounts) => NonNegative(amounts)
    case OpSettle(amounts, _, _, _) => NonNegative(amounts)
    case OpInspect(_, _) => true
  }

  /** What a reservation request may do to one bucket. */
  ghost predicate BucketEffect(b: Bucket, after: Bucket, named: bool, total: int, granted: bool, now: Time) {
    if !named then after == b
    else if !granted then after == b || after == MaybeReset(b, now)
    else
      var rolled := MaybeReset(b, now);
      && after == Hold(rolled, total)
      && (rolled.remaining.Some? ==> total <= Effective(rolled).value)
  }

  lemma ReserveEffect(cfg: LedgerConfig, who: Asker, buckets: Buckets, amounts: seq<Amount>, now: Time, id: Id)
    requires id in buckets
    ensures var (after, reply) := Reserve(cfg, who, buckets, amounts, now);
            && id in after
            && BucketEffect(buckets[id], after[id], Names(amounts, id), TotalFor(amounts, id), reply.Granted?, now)
            && (reply.Granted? && Names(amounts, id) && id == cfg.controlBucket && !who.privileged
                && MaybeReset(buckets[id], now).remaining.Some?
                ==> Effective(MaybeReset(buckets[id], now)).value - TotalFor(amounts, id) >= cfg.floor)
  {
    var reply := Reserve(cfg, who, buckets, amounts, now).1;
    GrantedMeans(cfg, who, buckets, amounts, now);
    if reply.Denied? {
      DeniedOnlyRolls(cfg, who, buckets, amounts, now);
    } else {
      assert Admissible(cfg, who, buckets, amounts, now, id);
    }
  }

  lemma ReserveKeys(cfg: LedgerConfig, who: Asker, buckets: Buckets, amounts: seq<Amount>, now: Time)
    ensures Reserve(cfg, who, buckets, amounts, now).0.Keys == buckets.Keys
  {
    GrantedMeans(cfg, who, buckets, amounts, now);
    if Reserve(cfg, who, buckets, amounts, now).1.Denied? {
      DeniedOnlyRolls(cfg, who, buckets, amounts, now);
    }
  }

  lemma EffectKeepsSolvent(b: Bucket, after: Bucket, named: bool, total: int, granted: bool, now: Time)
    requires Solvent(b) && total >= 0 && BucketEffect(b, after, named, total, granted, now)
    ensures Solvent(after)
  {
  }

  lemma ReserveKeepsSolvent(cfg: LedgerConfig, who: Asker, buckets: Buckets, amounts: seq<Amount>, now: Time)
    requires AllSolvent(buckets) && NonNegative(amounts)
    ensures AllSolvent(Reserve(cfg, who, buckets, amounts, now).0)
  {
    var after := Reserve(cfg, who, buckets, amounts, now).0;
    ReserveKeys(cfg, who, buckets, amounts, now);
    forall id ensures SolventAt(after, id) {
      assert SolventAt(buckets, id);
      if id in buckets {
        TotalNonNegative(amounts, id);
        ReserveEffect(cfg, who, buckets, amounts, now, id);
        var granted := Reserve(cfg, who, buckets, amounts, now).1.Granted?;
        EffectKeepsSolvent(buckets[id], after[id], Names(amounts, id), TotalFor(amounts, id), granted, now);
      }
    }
  }

  lemma {:induction false} InspectKeepsSolvent(buckets: Buckets, amounts: seq<Amount>, now: Time)
    requires AllSolvent(buckets)
    ensures AllSolvent(Inspect(buckets, amounts, now))
    decreases |amounts|
  {
    if amounts != [] && amounts[0].bucket in buckets {
      var b := MaybeReset(buckets[amounts[0].bucket], now);
      var rolled := buckets[amounts[0].bucket := b];
      forall id ensures SolventAt(rolled, id) {
        assert SolventAt(buckets, id) && SolventAt(buckets, amounts[0].bucket);
      }
      InspectKeepsSolvent(rolled, amounts[1..], now);
    }
  }

  lemma StepKeepsSolvent(cfg: LedgerConfig, b: Books, op: LedgerOp)
    requires AllSolvent(b.buckets) && SaneOp(op)
    ensures AllSolvent(Applied(cfg, b, op).buckets)
  {
    var after := Applied(cfg, b, op).buckets;
    match op
    case OpRegister(_, _) =>
      forall id ensures SolventAt(after, id) {
        assert SolventAt(b.buckets, id);
      }
    case OpReserve(who, amounts, now) => ReserveKeepsSolvent(cfg, who, b.buckets, amounts, now);
    case OpRelease(amounts) =>
      forall id ensures SolventAt(after, id) {
        assert SolventAt(b.buckets, id);
        TotalNonNegative(amounts, id);
      }
    case OpSettle(amounts, key, usage, now) =>
      forall id ensures SolventAt(after, id) {
        assert SolventAt(b.buckets, id);
        TotalNonNegative(amounts, id);
      }
    case OpInspect(amounts, now) =>
      InspectKeepsSolvent(b.buckets, amounts, now);
  }

  ghost predicate LedgerRun(cfg: LedgerConfig, states: seq<Books>, ops: seq<LedgerOp>) {
    && |states| == |ops| + 1
    && (forall i :: 0 <= i < |ops| ==> SaneOp(ops[i]) && states[i + 1] == Applied(cfg, states[i], ops[i]))
  }

  /** No run oversubscribes a bucket, through rollovers and through stale or repeated releases and settlements. */
  lemma {:induction false} RunsStaySolvent(cfg: LedgerConfig, states: seq<Books>, ops: seq<LedgerOp>, i: nat)
    requires LedgerRun(cfg, states, ops) && i <= |ops| && AllSolvent(states[0].buckets)
    ensures AllSolvent(states[i].buckets)
  {
    if i > 0 {
      RunsStaySolvent(cfg, states, ops, i - 1);
      StepKeepsSolvent(cfg, states[i - 1], ops[i - 1]);
    }
  }

  // ---- disciplined runs: conservation ----

  /** The ledger together with the reservations it has granted and not yet got back. */
  datatype Account = Account(books: Books, open: seq<seq<Amount>>)

  datatype AccountOp =
    | Take(who: Asker, amounts: seq<Amount>, now: Time)
    | GiveBack(k: nat)
    | Spend(k: nat, key: string, usage: Usage, now: Time)

  function Without<T>(xs: seq<T>, k: nat): seq<T>
    requires k < |xs|
  {
    xs[..k] + xs[k + 1..]
  }

  ghost predicate Possible(a: Account, op: AccountOp) {
    match op
    case Take(_, amounts, _) => NonNegative(amounts)
    case GiveBack(k) => k < |a.open|
    case Spend(k, _, _, _) => k < |a.open|
  }

  /** Each open reservation is released or settled at most once, and only with what was granted. */
  ghost function Transact(cfg: LedgerConfig, a: Account, op: AccountOp): Account
    requires Possible(a, op)
  {
    match op
    case Take(who, amounts, now) =>
      var reply := Reserve(cfg, who, a.books.buckets, amounts, now).1;
      Account(Applied(cfg, a.books, OpReserve(who, amounts, now)),
              if reply.Granted? then a.open + [reply.amounts] else a.open)
    case GiveBack(k) =>
      Account(Applied(cfg, a.books, OpRelease(a.open[k])), Without(a.open, k))
    case Spend(k, key, usage, now) =>
      Account(Applied(cfg, a.books, OpSettle(a.open[k], key, usage, now)),
              if key in a.books.settledKeys then a.open else Without(a.open, k))
  }

  function OpenTotal(open: seq<seq<Amount>>, id: Id): int {
    if open == [] then 0 else OpenTotal(open[..|open| - 1], id) + TotalFor(open[|open| - 1], id)
  }

  lemma {:induction false} OpenTotalAppend(a: seq<seq<Amount>>, b: seq<seq<Amount>>, id: Id)
    ensures OpenTotal(a + b, id) == OpenTotal(a, id) + OpenTotal(b, id)
  {
    if b == [] {
      assert a + b == a;
    } else {
      assert (a + b)[..|a + b| - 1] == a + b[..|b| - 1];
      OpenTotalAppend(a, b[..|b| - 1], id);
    }
  }

  lemma OpenTotalWithout(open: seq<seq<Amount>>, k: nat, id: Id)
    requires k < |open|
    ensures OpenTotal(Without(open, k), id) == OpenTotal(open, id) - TotalFor(open[k], id)
  {
    assert open == open[..k] + ([open[k]] + open[k + 1..]);
    OpenTotalAppend(open[..k], [open[k]] + open[k + 1..], id);
    OpenTotalAppend([open[k]], open[k + 1..], id);
    OpenTotalAppend(open[..k], open[k + 1..], id);
    assert [open[k]][..0] == [];
  }

  ghost predicate OpenSane(open: seq<seq<Amount>>) {
    forall k :: 0 <= k < |open| ==> NonNegative(open[k])
  }

  lemma {:induction false} OpenTotalNonNegative(open: seq<seq<Amount>>, id: Id)
    requires OpenSane(open)
    ensures OpenTotal(open, id) >= 0
  {
    if open != [] {
      OpenTotalNonNegative(open[..|open| - 1], id);
      TotalNonNegative(open[|open| - 1], id);
    }
  }

  /** Held is what is open; what is left plus what was charged is what there was. */
  ghost predicate Balanced(start: Bucket, b: Bucket, open: int) {
    && b.remaining.Some? && start.remaining.Some?
    && 0 <= b.reserved == open <= b.remaining.value
    && b.remaining.value + b.settled == start.remaining.value + start.settled
  }

  /** The step finds the bucket's window still open; returning and spending never look at it. */
  ghost predicate WithinWindow(a: Account, op: AccountOp, id: Id) {
    op.Take? && id in a.books.buckets ==> !RollsOver(a.books.buckets[id], op.now)
  }

  ghost predicate Conserved(start: Bucket, a: Account, id: Id) {
    && OpenSane(a.open) && id in a.books.buckets
    && Balanced(start, a.books.buckets[id], OpenTotal(a.open, id))
  }

  /** Consolidating amounts keeps the total of each bucket. */
  lemma ConsolidateTotals(amounts: seq<Amount>, id: Id)
    ensures TotalFor(Consolidate(amounts), id) == TotalFor(amounts, id)
  {
    var ordered := Consolidate(amounts);
    if Names(ordered, id) {
      var i :| 0 <= i < |ordered| && ordered[i].bucket == id;
      SingleTotal(ordered, i);
    } else {
      UnnamedTotal(ordered, id);
      UnnamedTotal(amounts, id);
    }
  }

  lemma {:induction false} SingleTotal(amounts: seq<Amount>, i: nat)
    requires LocksOnce(amounts) && i < |amounts|
    ensures TotalFor(amounts, amounts[i].bucket) == amounts[i].amount
  {
    var front, last := amounts[..|amounts| - 1], amounts[|amounts| - 1];
    assert amounts == front + [last];
    if i < |front| {
      SingleTotal(front, i);
    } else {
      OnlyLastNames(front, last);
      UnnamedTotal(front, last.bucket);
    }
  }

  lemma ConsolidateNonNegative(amounts: seq<Amount>)
    requires NonNegative(amounts)
    ensures NonNegative(Consolidate(amounts))
  {
    var ordered := Consolidate(amounts);
    forall i | 0 <= i < |ordered| ensures ordered[i].amount >= 0 {
      TotalNonNegative(amounts, ordered[i].bucket);
    }
  }

  lemma GrantReturnsTotals(cfg: LedgerConfig, who: Asker, buckets: Buckets, amounts: seq<Amount>, now: Time, id: Id)
    requires Reserve(cfg, who, buckets, amounts, now).1.Granted? && NonNegative(amounts)
    ensures var granted := Reserve(cfg, who, buckets, amounts, now).1.amounts;
            NonNegative(granted) && TotalFor(granted, id) == TotalFor(amounts, id) >= 0
  {
    GrantedMeans(cfg, who, buckets, amounts, now);
    ConsolidateNonNegative(amounts);
    ConsolidateTotals(amounts, id);
    TotalNonNegative(amounts, id);
  }

  lemma ReserveBalances(cfg: LedgerConfig, start: Bucket, who: Asker, buckets: Buckets, amounts: seq<Amount>,
                        now: Time, id: Id, open: int)
    requires id in buckets && Balanced(start, buckets[id], open) && NonNegative(amounts) && !RollsOver(buckets[id], now)
    ensures var (after, reply) := Reserve(cfg, who, buckets, amounts, now);
            && id in after
            && (reply.Denied? ==> Balanced(start, after[id], open))
            && (reply.Granted? ==>
                  NonNegative(reply.amounts) && Balanced(start, after[id], open + TotalFor(reply.amounts, id)))
  {
    ReserveEffect(cfg, who, buckets, amounts, now, id);
    if Reserve(cfg, who, buckets, amounts, now).1.Granted? {
      GrantReturnsTotals(cfg, who, buckets, amounts, now, id);
      if !Names(amounts, id) {
        UnnamedTotal(amounts, id);
      }
    }
  }

  /** Giving back what is held takes exactly that off the bucket: the clamp at zero has no effect. */
  lemma ReleaseBalances(start: Bucket, buckets: Buckets, amounts: seq<Amount>, id: Id, open: int)
    requires id in buckets && Balanced(start, buckets[id], open) && 0 <= TotalFor(amounts, id) <= open
    ensures Balanced(start, Release(buckets, amounts)[id], open - TotalFor(amounts, id))
  {
    if !Names(amounts, id) {
      UnnamedTotal(amounts, id);
    }
  }

  /** Settling what is held moves its charge from remaining to settled: neither clamp has an effect. */
  lemma SettleBalances(start: Bucket, buckets: Buckets, amounts: seq<Amount>, usage: Usage, now: Time, id: Id,
                       open: int)
    requires id in buckets && Balanced(start, buckets[id], open) && 0 <= TotalFor(amounts, id) <= open
    ensures Balanced(start, Settle(buckets, amounts, usage, now)[id], open - TotalFor(amounts, id))
  {
    if !Names(amounts, id) {
      UnnamedTotal(amounts, id);
    }
  }

  lemma OpenCovers(a: Account, k: nat, id: Id)
    requires OpenSane(a.open) && k < |a.open|
    ensures OpenTotal(Without(a.open, k), id) == OpenTotal(a.open, id) - TotalFor(a.open[k], id)
    ensures 0 <= TotalFor(a.open[k], id) <= OpenTotal(a.open, id)
  {
    TotalNonNegative(a.open[k], id);
    OpenTotalWithout(a.open, k, id);
    OpenTotalNonNegative(Without(a.open, k), id);
  }

  lemma TakeConserves(cfg: LedgerConfig, start: Bucket, a: Account, who: Asker, amounts: seq<Amount>, now: Time, id: Id)
    requires Conserved(start, a, id) && NonNegative(amounts) && !RollsOver(a.books.buckets[id], now)
    ensures Conserved(start, Transact(cfg, a, Take(who, amounts, now)), id)
  {
    ReserveBalances(cfg, start, who, a.books.buckets, amounts, now, id, OpenTotal(a.open, id));
    var reply := Reserve(cfg, who, a.books.buckets, amounts, now).1;
    if reply.Granted? {
      assert (a.open + [reply.amounts])[..|a.open|] == a.open;
    }
  }

  lemma GiveBackConserves(cfg: LedgerConfig, start: Bucket, a: Account, k: nat, id: Id)
    requires Conserved(start, a, id) && k < |a.open|
    ensures Conserved(start, Transact(cfg, a, GiveBack(k)), id)
  {
    OpenCovers(a, k, id);
    ReleaseBalances(start, a.books.buckets, a.open[k], id, OpenTotal(a.open, id));
  }

  lemma SpendConserves(cfg: LedgerConfig, start: Bucket, a: Account, k: nat, key: string, usage: Usage, now: Time,
                       id: Id)
    requires Conserved(start, a, id) && k < |a.open|
    ensures Conserved(start, Transact(cfg, a, Spend(k, key, usage, now)), id)
  {
    OpenCovers(a, k, id);
    SettleBalances(start, a.books.buckets, a.open[k], usage, now, id, OpenTotal(a.open, id));
  }

  lemma TransactConserves(cfg: LedgerConfig, start: Bucket, a: Account, op: AccountOp, id: Id)
    requires Conserved(start, a, id) && Possible(a, op) && WithinWindow(a, op, id)
    ensures Conserved(start, Transact(cfg, a, op), id)
  {
    match op
    case Take(who, amounts, now) => TakeConserves(cfg, start, a, who, amounts, now, id);
    case GiveBack(k) => GiveBackConserves(cfg, start, a, k, id);
    case Spend(k, key, usage, now) => SpendConserves(cfg, start, a, k, key, usage, now, id);
  }

  /** No request of the run comes after the end of the bucket's window. */
  ghost predicate OneWindow(states: seq<Account>, ops: seq<AccountOp>, id: Id)
    requires |states| == |ops| + 1
  {
    forall i :: 0 <= i < |ops| ==> WithinWindow(states[i], ops[i], id)
  }

  ghost predicate AccountRun(cfg: LedgerConfig, states: seq<Account>, ops: seq<AccountOp>) {
    && |states| == |ops| + 1
    && (forall i :: 0 <= i < |ops| ==> Possible(states[i], ops[i]) && states[i + 1] == Transact(cfg, states[i], ops[i]))
  }

  /** A known bucket before anything is reserved. */
  ghost predicate Untouched(a: Account, id: Id) {
    && a.open == [] && id in a.books.buckets
    && a.books.buckets[id].remaining.Some? && a.books.buckets[id].reserved == 0 <= a.books.buckets[id].remaining.value
  }

  /** When each grant is released or settled at most once, a known bucket keeps `remaining + settled`
      constant within its window and holds exactly the open grants. */
  lemma {:induction false} RunsConserve(cfg: LedgerConfig, states: seq<Account>, ops: seq<AccountOp>, i: nat, id: Id)
    requires AccountRun(cfg, states, ops) && i <= |ops| && Untouched(states[0], id) && OneWindow(states, ops, id)
    ensures Conserved(states[0].books.buckets[id], states[i], id)
  {
    if i > 0 {
      RunsConserve(cfg, states, ops, i - 1, id);
      TransactConserves(cfg, states[0].books.buckets[id], states[i - 1], ops[i - 1], id);
    }
  }

  /** The total charge of a run never exceeds the initial quota. */
  lemma ChargesWithinQuota(cfg: LedgerConfig, states: seq<Account>, ops: seq<AccountOp>, i: nat, id: Id)
    requires AccountRun(cfg, states, ops) && i <= |ops| && Untouched(states[0], id) && OneWindow(states, ops, id)
    ensures id in states[i].books.buckets
    ensures states[i].books.buckets[id].settled - states[0].books.buckets[id].settled
            <= states[0].books.buckets[id].remaining.value
  {
    RunsConserve(cfg, states, ops, i, id);
  }

  /** A settlement at a charge above what is left, as a second settlement of one grant can be, is
      exactly what breaks the constant sum. */
  lemma SettleConservesIff(b: Bucket, amount: int, charge: int, now: Time)
    requires b.remaining.Some?
    ensures var after := SettleOne(b, amount, charge, now);
            after.remaining.value + after.settled == b.remaining.value + b.settled <==> charge <= b.remaining.value
  {
  }

  // ---- the planning floor ----

  ghost predicate AboveFloor(cfg: LedgerConfig, buckets: Buckets) {
    && cfg.controlBucket in buckets
    && Effective(buckets[cfg.controlBucket]).Some? && Effective(buckets[cfg.controlBucket]).value >= cfg.floor
  }

  ghost predicate MissionOp(op: AccountOp) {
    op.Take? ==> !op.who.privileged
  }

  lemma TransactKeepsFloor(cfg: LedgerConfig, start: Bucket, a: Account, op: AccountOp)
    requires Conserved(start, a, cfg.controlBucket) && AboveFloor(cfg, a.books.buckets)
    requires Possible(a, op) && MissionOp(op) && WithinWindow(a, op, cfg.controlBucket)
    ensures AboveFloor(cfg, Transact(cfg, a, op).books.buckets)
  {
    var id := cfg.controlBucket;
    TransactConserves(cfg, start, a, op, id);
    match op
    case Take(who, amounts, now) =>
      ReserveEffect(cfg, who, a.books.buckets, amounts, now, id);
    case GiveBack(k) =>
      TotalNonNegative(a.open[k], id);
    case Spend(k, key, usage, now) =>
      OpenCovers(a, k, id);
      if !Names(a.open[k], id) {
        UnnamedTotal(a.open[k], id);
      }
  }

  /** Mission work never eats into the planning reserve. */
  lemma {:induction false} RunsKeepFloor(cfg: LedgerConfig, states: seq<Account>, ops: seq<AccountOp>, i: nat)
    requires AccountRun(cfg, states, ops) && i <= |ops| && Untouched(states[0], cfg.controlBucket)
    requires OneWindow(states, ops, cfg.controlBucket)
    requires AboveFloor(cfg, states[0].books.buckets) && forall j :: 0 <= j < |ops| ==> MissionOp(ops[j])
    ensures AboveFloor(cfg, states[i].books.buckets)
  {
    if i > 0 {
      RunsKeepFloor(cfg, states, ops, i - 1);
      RunsConserve(cfg, states, ops, i - 1, cfg.controlBucket);
      TransactKeepsFloor(cfg, states[0].books.buckets[cfg.controlBucket], states[i - 1], ops[i - 1]);
    }
  }

  lemma FloorIsAdmitted(cfg: LedgerConfig, who: Asker, buckets: Buckets, amounts: seq<Amount>, now: Time)
    requires AboveFloor(cfg, buckets) && !RollsOver(buckets[cfg.controlBucket], now)
    requires who.privileged && amounts != []
    requires forall k :: 0 <= k < |amounts| ==> amounts[k].bucket == cfg.controlBucket
    requires TotalFor(amounts, cfg.controlBucket) <= cfg.floor
    ensures Reserve(cfg, who, buckets, amounts, now).1.Granted?
  {
    GrantedMeans(cfg, who, buckets, amounts, now);
    forall id ensures Admissible(cfg, who, buckets, amounts, now, id) {
      if Names(amounts, id) {
        assert id == cfg.controlBucket;
        assert MaybeReset(buckets[id], now) == buckets[id];
      }
    }
  }

  /** So a planning, review or control request of up to the floor is granted at every point of the run. */
  lemma PlanningAlwaysAdmitted(cfg: LedgerConfig, states: seq<Account>, ops: seq<AccountOp>, i: nat, who: Asker,
                               amounts: seq<Amount>, now: Time)
    requires AccountRun(cfg, states, ops) && i <= |ops| && Untouched(states[0], cfg.controlBucket)
    requires OneWindow(states, ops, cfg.controlBucket)
    requires AboveFloor(cfg, states[0].books.buckets) && forall j :: 0 <= j < |ops| ==> MissionOp(ops[j])
    requires who.privileged && amounts != []
    requires forall k :: 0 <= k < |amounts| ==> amounts[k].bucket == cfg.controlBucket
    requires TotalFor(amounts, cfg.controlBucket) <= cfg.floor
    requires cfg.controlBucket in states[i].books.buckets ==>
               !RollsOver(states[i].books.buckets[cfg.controlBucket], now)
    ensures Reserve(cfg, who, states[i].books.buckets, amounts, now).1.Granted?
  {
    RunsKeepFloor(cfg, states, ops, i);
    RunsConserve(cfg, states, ops, i, cfg.controlBucket);
    FloorIsAdmitted(cfg, who, states[i].books.buckets, amounts, now);
  }

  /** A settlement eats into the reserve only when it takes back more than is held and charges below the floor. */
  lemma SettleKeepsFloorIff(cfg: LedgerConfig, b: Bucket, amount: int, charge: int, now: Time)
    requires Solvent(b) && Effective(b).Some? && Effective(b).value >= cfg.floor && charge <= amount
    ensures Effective(SettleOne(b, amount, charge, now)).value >= cfg.floor
            <==> cfg.floor <= 0 || amount <= b.reserved || b.remaining.value - charge >= cfg.floor
  {
  }

  /** A quota of ten with a floor of two, on which mission work reserves eight. */
  function SmallQuota(): (LedgerConfig, Books, seq<Amount>) {
    var control := "qb_control_reserve";
    (LedgerConfig(2, control, "qb_benchmark", false, {}, 1, 0),
     Books(map[control := Bucket(Requests, Some(10), Some(10), Lifetime, None, 0, 1, 0, 0)], {}),
     [Amount(control, Requests, 8)])
  }

  lemma SmallQuotaGrants()
    ensures var (cfg, books, amounts) := SmallQuota();
            var (after, reply) := Reserve(cfg, Asker("r", false, false), books.buckets, amounts, 0);
            && reply == Granted(amounts)
            && after == map[cfg.controlBucket := books.buckets[cfg.controlBucket].(reserved := 8)]
  {
    var (cfg, books, amounts) := SmallQuota();
    var who := Asker("r", false, false);
    var id := cfg.controlBucket;
    SmallTotals();
    GrantedMeans(cfg, who, books.buckets, amounts, 0);
    forall x ensures Admissible(cfg, who, books.buckets, amounts, 0, x) {
    }
    assert AfterGrant(books.buckets, amounts, 0)[id].reserved == 8;
    var ordered := Consolidate(amounts);
    assert Names(ordered, id);
    assert forall i :: 0 <= i < |ordered| ==> ordered[i].bucket == id;
    assert |ordered| == 1;
    assert ordered[0] == amounts[0];
  }

  lemma SmallTotals()
    ensures var amounts := SmallQuota().2;
            Names(amounts, "qb_control_reserve") && TotalFor(amounts, "qb_control_reserve") == 8
            && DimensionFor(amounts, "qb_control_reserve") == Requests
  {
    var amounts := SmallQuota().2;
    assert amounts[0].bucket == "qb_control_reserve" && amounts[..0] == [];
  }

  lemma SettlesSmall(books: Books, key: string, now: Time)
    requires SmallQuota().0.controlBucket in books.buckets && key !in books.settledKeys
    ensures var (cfg, _, amounts) := SmallQuota();
            var after := Applied(cfg, books, OpSettle(amounts, key, map[], now));
            && cfg.controlBucket in after.buckets && after.settledKeys == books.settledKeys + {key}
            && after.buckets[cfg.controlBucket] == SettleOne(books.buckets[cfg.controlBucket], 8, 8, now)
  {
    SmallTotals();
  }

  lemma SecondSettlementTakesFloor(b: Bucket)
    requires b.remaining == Some(10) && b.reserved == 8
    ensures Effective(SettleOne(b, 8, 8, 1)) == Some(2)
    ensures Effective(SettleOne(SettleOne(b, 8, 8, 1), 8, 8, 2)) == Some(0)
  {
  }

  /** The books once the eight are reserved. */
  function SmallGranted(): Books {
    var (cfg, books, _) := SmallQuota();
    books.(buckets := map[cfg.controlBucket := books.buckets[cfg.controlBucket].(reserved := 8)])
  }

  lemma SmallSettledTwice()
    ensures var (cfg, _, amounts) := SmallQuota();
            var once := Applied(cfg, SmallGranted(), OpSettle(amounts, "k1", map[], 1));
            var twice := Applied(cfg, once, OpSettle(amounts, "k2", map[], 2));
            && AboveFloor(cfg, once.buckets) && cfg.controlBucket in twice.buckets
            && Effective(twice.buckets[cfg.controlBucket]) == Some(0)
  {
    var (cfg, _, amounts) := SmallQuota();
    var granted := SmallGranted();
    var once := Applied(cfg, granted, OpSettle(amounts, "k1", map[], 1));
    SettlesSmall(granted, "k1", 1);
    SettlesSmall(once, "k2", 2);
    SecondSettlementTakesFloor(granted.buckets[cfg.controlBucket]);
  }

  /** One grant, settled under two keys, drains the planning reserve. */
  lemma DoubleSettlementDrainsFloor()
    ensures var (cfg, books, amounts) := SmallQuota();
            var granted := Applied(cfg, books, OpReserve(Asker("r", false, false), amounts, 0));
            var once := Applied(cfg, granted, OpSettle(amounts, "k1", map[], 1));
            var twice := Applied(cfg, once, OpSettle(amounts, "k2", map[], 2));
            && cfg.floor > 0 && AboveFloor(cfg, books.buckets) && AboveFloor(cfg, granted.buckets)
            && AboveFloor(cfg, once.buckets) && cfg.controlBucket in twice.buckets
            && Effective(twice.buckets[cfg.controlBucket]) == Some(0)
  {
    var (cfg, books, amounts) := SmallQuota();
    SmallQuotaGrants();
    assert Applied(cfg, books, OpReserve(Asker("r", false, false), amounts, 0)) == SmallGranted();
    SmallSettledTwice();
  }
}
