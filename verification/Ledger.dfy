/** The multi-bucket quota ledger: reserve, release and settle with window rollover. */
module Ledger {
  import opened Common
  import opened Ordering

  datatype Dimension =
    | Requests | InputTokens | OutputTokens | TotalTokens | UncachedTokens | Neurons | Credit | Concurrency

  datatype Window = Rolling | Fixed | Lifetime | UnknownWindow

  /** A live bucket; a missing `remaining` is an unknown quota, never a zero one. */
  datatype Bucket = Bucket(
    dimension: Dimension, limit: Option<int>, remaining: Option<int>, window: Window, resetAt: Option<Time>,
    observedAt: Time, version: int, reserved: int, settled: int)

  datatype Amount = Amount(bucket: Id, dimension: Dimension, amount: int)

  type Buckets = map<Id, Bucket>
  type Usage = map<Dimension, int>

  /** The buckets and the keys already settled under. */
  datatype Books = Books(buckets: Buckets, settledKeys: set<string>)

  datatype LedgerConfig = LedgerConfig(
    floor: int, controlBucket: Id, benchmarkBucket: Id, allowUnknownProbe: bool, freeRoutes: set<string>,
    defaultRequest: int, tokenMargin: int)

  /** Who asks: the route, whether the purpose is planning, review or control, and whether it is a probe. */
  datatype Asker = Asker(route: string, privileged: bool, probe: bool)

  datatype LedgerFault =
    | NoBuckets | UnknownBucket(bucket: Id) | UnknownQuota(bucket: Id) | ZeroRemaining(bucket: Id)
    | Insufficient(bucket: Id, need: int, have: int) | ControlReserveProtected(bucket: Id) | DuplicateSettlement

  datatype Reserved = Granted(amounts: seq<Amount>) | Denied(fault: LedgerFault)

  const DAY: int := 86_400 * SECOND
  const HOUR: int := 3_600 * SECOND

  // ---- windows ----

  function MaybeReset(b: Bucket, now: Time): Bucket {
    if b.resetAt.None? || now < b.resetAt.value || b.limit.None? then b
    else if b.window.Fixed? then
      var period := b.resetAt.value - b.observedAt;
      b.(remaining := b.limit, reserved := 0, resetAt := Some(b.resetAt.value + if period <= 0 then DAY else period),
         observedAt := now, version := b.version + 1)
    else if b.window.Rolling? then
      b.(remaining := b.limit, reserved := 0, resetAt := Some(now + HOUR), observedAt := now, version := b.version + 1)
    else b
  }

  /** The bucket has a window that renews, and it is over by `now`. */
  predicate RollsOver(b: Bucket, now: Time) {
    b.resetAt.Some? && b.resetAt.value <= now && b.limit.Some? && (b.window.Fixed? || b.window.Rolling?)
  }

  function Effective(b: Bucket): Option<int> {
    if b.remaining.None? then None else Some(Max(0, b.remaining.value - b.reserved))
  }

  // ---- consolidated amounts ----

  function TotalFor(amounts: seq<Amount>, id: Id): int {
    if amounts == [] then 0
    else
      var last := amounts[|amounts| - 1];
      TotalFor(amounts[..|amounts| - 1], id) + if last.bucket == id then last.amount else 0
  }

  predicate Names(amounts: seq<Amount>, id: Id) {
    exists i :: 0 <= i < |amounts| && amounts[i].bucket == id
  }

  /** The dimension of the last amount that names the bucket. */
  function DimensionFor(amounts: seq<Amount>, id: Id): Dimension
    requires Names(amounts, id)
  {
    var last := amounts[|amounts| - 1];
    if last.bucket == id then last.dimension
    else
      assert Names(amounts[..|amounts| - 1], id) by {
        var i :| 0 <= i < |amounts| && amounts[i].bucket == id;
        assert amounts[..|amounts| - 1][i].bucket == id;
      }
      DimensionFor(amounts[..|amounts| - 1], id)
  }

  function BucketIds(amounts: seq<Amount>): (ids: set<Id>)
    ensures forall id :: id in ids <==> Names(amounts, id)
  {
    set i | 0 <= i < |amounts| :: amounts[i].bucket
  }

  /** One amount per bucket, in bucket-id order. */
  function Consolidate(amounts: seq<Amount>): (ordered: seq<Amount>)
    ensures forall i :: 0 <= i < |ordered| ==>
              && Names(amounts, ordered[i].bucket)
              && ordered[i] == Amount(ordered[i].bucket, DimensionFor(amounts, ordered[i].bucket),
                                      TotalFor(amounts, ordered[i].bucket))
    ensures forall i, j :: 0 <= i < j < |ordered| ==>
              TextLess(ordered[i].bucket, ordered[j].bucket) && ordered[i].bucket != ordered[j].bucket
    ensures forall id :: Names(ordered, id) <==> Names(amounts, id)
  {
    TextOrderIsLinear();
    var ids := Enumerate(BucketIds(amounts), TextLess);
    assert forall i :: 0 <= i < |ids| ==> ids[i] in ids;
    var ordered := OneEach(amounts, ids);
    ordered
  }

  function OneEach(amounts: seq<Amount>, ids: seq<Id>): (each: seq<Amount>)
    requires forall i :: 0 <= i < |ids| ==> Names(amounts, ids[i])
    ensures |each| == |ids|
    ensures forall i :: 0 <= i < |ids| ==>
              each[i] == Amount(ids[i], DimensionFor(amounts, ids[i]), TotalFor(amounts, ids[i]))
    ensures forall id :: Names(each, id) <==> id in ids
  {
    var each := seq(|ids|, i requires 0 <= i < |ids| =>
                    Amount(ids[i], DimensionFor(amounts, ids[i]), TotalFor(amounts, ids[i])));
    assert forall id :: id in ids ==> Names(each, id) by {
      forall id | id in ids ensures Names(each, id) {
        var i :| 0 <= i < |ids| && ids[i] == id;
        assert each[i].bucket == id;
      }
    }
    each
  }

  // ---- estimates ----

  function Need(cfg: LedgerConfig, dimension: Dimension, input: Option<int>, output: Option<int>): int {
    var tokensIn := if input.Some? then input.value else 0;
    var tokensOut := if output.Some? then output.value else 0;
    match dimension
    case Requests | Concurrency => cfg.defaultRequest
    case InputTokens | TotalTokens | UncachedTokens => Max(1, tokensIn + tokensOut + cfg.tokenMargin)
    case OutputTokens => Max(1, tokensOut + cfg.tokenMargin)
    case Credit | Neurons => 1
  }

  /** One amount for each distinct known bucket, in the order first named. */
  function EstimateEach(cfg: LedgerConfig, buckets: Buckets, ids: seq<Id>, input: Option<int>,
                        output: Option<int>): seq<Amount> {
    if ids == [] then []
    else
      var front, id := ids[..|ids| - 1], ids[|ids| - 1];
      var amounts := EstimateEach(cfg, buckets, front, input, output);
      if id in front || id !in buckets then amounts
      else amounts + [Amount(id, buckets[id].dimension, Need(cfg, buckets[id].dimension, input, output))]
  }

  function Estimate(cfg: LedgerConfig, buckets: Buckets, ids: seq<Id>, input: Option<int>, output: Option<int>,
                    benchmark: bool): seq<Amount> {
    var amounts := EstimateEach(cfg, buckets, ids, input, output);
    var extra := cfg.benchmarkBucket;
    if benchmark && extra in buckets && extra !in ids then
      amounts + [Amount(extra, buckets[extra].dimension, 1)]
    else amounts
  }

  // ---- reserve ----

  function AdmitFault(cfg: LedgerConfig, who: Asker, b: Bucket, amt: Amount): Option<LedgerFault> {
    var have := Effective(b);
    if have.None? then
      if who.probe && cfg.allowUnknownProbe && who.route in cfg.freeRoutes then None else Some(UnknownQuota(amt.bucket))
    else if have.value < amt.amount then
      Some(if have.value == 0 then ZeroRemaining(amt.bucket) else Insufficient(amt.bucket, amt.amount, have.value))
    else if amt.bucket == cfg.controlBucket && !who.privileged && have.value - amt.amount < cfg.floor then
      Some(ControlReserveProtected(amt.bucket))
    else None
  }

  /** Check the amounts in order, rolling each bucket's window over as it is reached; stop at the first fault. */
  function Admit(cfg: LedgerConfig, who: Asker, buckets: Buckets, ordered: seq<Amount>,
                 now: Time): (Buckets, Option<LedgerFault>)
    requires forall i :: 0 <= i < |ordered| ==> ordered[i].bucket in buckets
    decreases |ordered|
  {
    if ordered == [] then (buckets, None)
    else
      var b := MaybeReset(buckets[ordered[0].bucket], now);
      var rolled := buckets[ordered[0].bucket := b];
      var fault := AdmitFault(cfg, who, b, ordered[0]);
      if fault.Some? then (rolled, fault) else Admit(cfg, who, rolled, ordered[1..], now)
  }

  function Hold(b: Bucket, amount: int): Bucket {
    if b.remaining.Some? then b.(reserved := b.reserved + amount) else b
  }

  function HoldAll(buckets: Buckets, ordered: seq<Amount>): Buckets
    requires forall i :: 0 <= i < |ordered| ==> ordered[i].bucket in buckets
    decreases |ordered|
  {
    if ordered == [] then buckets
    else HoldAll(buckets[ordered[0].bucket := Hold(buckets[ordered[0].bucket], ordered[0].amount)], ordered[1..])
  }

  function FirstMissing(buckets: Buckets, ordered: seq<Amount>): (m: Option<Id>)
    ensures m.None? <==> forall i :: 0 <= i < |ordered| ==> ordered[i].bucket in buckets
  {
    if ordered == [] then None
    else if ordered[0].bucket !in buckets then Some(ordered[0].bucket)
    else FirstMissing(buckets, ordered[1..])
  }

  function Reserve(cfg: LedgerConfig, who: Asker, buckets: Buckets, amounts: seq<Amount>,
                   now: Time): (Buckets, Reserved) {
    if amounts == [] then (buckets, Denied(NoBuckets)) else
    var ordered := Consolidate(amounts);
    var missing := FirstMissing(buckets, ordered);
    if missing.Some? then (buckets, Denied(UnknownBucket(missing.value))) else
    var (rolled, fault) := Admit(cfg, who, buckets, ordered, now);
    if fault.Some? then (rolled, Denied(fault.value))
    else
      AdmitRolls(cfg, who, buckets, ordered, now);
      (HoldAll(rolled, ordered), Granted(ordered))
  }

  /** Admission only rolls windows over. */
  lemma {:induction false} AdmitRolls(cfg: LedgerConfig, who: Asker, buckets: Buckets, ordered: seq<Amount>, now: Time)
    requires forall i :: 0 <= i < |ordered| ==> ordered[i].bucket in buckets
    requires forall i, j :: 0 <= i < j < |ordered| ==> ordered[i].bucket != ordered[j].bucket
    ensures var (rolled, fault) := Admit(cfg, who, buckets, ordered, now);
            && rolled.Keys == buckets.Keys
            && (forall id :: id in buckets ==> RolledAt(buckets, rolled, ordered, now, id))
            && (fault.None? ==> forall i :: 0 <= i < |ordered| ==>
                  && rolled[ordered[i].bucket] == MaybeReset(buckets[ordered[i].bucket], now)
                  && AdmitFault(cfg, who, rolled[ordered[i].bucket], ordered[i]).None?)
    decreases |ordered|
  {
    if ordered != [] {
      var id0 := ordered[0].bucket;
      var b := MaybeReset(buckets[id0], now);
      var next := buckets[id0 := b];
      if AdmitFault(cfg, who, b, ordered[0]).None? {
        var rest := ordered[1..];
        AdmitRolls(cfg, who, next, rest, now);
        var (rolled, fault) := Admit(cfg, who, next, rest, now);
        assert !Names(rest, id0);
        forall id | id in buckets ensures RolledAt(buckets, rolled, ordered, now, id) {
          assert RolledAt(next, rolled, rest, now, id);
          if Names(rest, id) {
            var i :| 0 <= i < |rest| && rest[i].bucket == id;
            assert ordered[i + 1].bucket == id;
          }
        }
        assert RolledAt(next, rolled, rest, now, id0);
        if fault.None? {
          forall i | 0 <= i < |ordered|
            ensures rolled[ordered[i].bucket] == MaybeReset(buckets[ordered[i].bucket], now)
            ensures AdmitFault(cfg, who, rolled[ordered[i].bucket], ordered[i]).None?
          {
            if i > 0 {
              assert ordered[i] == rest[i - 1];
            }
          }
        }
      }
    }
  }

  ghost predicate RolledAt(buckets: Buckets, rolled: Buckets, amounts: seq<Amount>, now: Time, id: Id)
    requires id in buckets
  {
    id in rolled && (rolled[id] == buckets[id] || (Names(amounts, id) && rolled[id] == MaybeReset(buckets[id], now)))
  }

  // ---- release and settle ----

  /** Every bucket lock is taken at most once; a second request would wait for itself. */
  predicate LocksOnce(amounts: seq<Amount>) {
    forall i, j :: 0 <= i < j < |amounts| ==> amounts[i].bucket != amounts[j].bucket
  }

  function Unhold(b: Bucket, amount: int): Bucket {
    b.(reserved := Max(0, b.reserved - amount))
  }

  function Release(buckets: Buckets, amounts: seq<Amount>): Buckets {
    map id | id in buckets :: if Names(amounts, id) then Unhold(buckets[id], TotalFor(amounts, id)) else buckets[id]
  }

  function Charge(amount: int, dimension: Dimension, usage: Usage): int {
    if dimension in usage then Min(amount, Max(0, usage[dimension])) else amount
  }

  function SettleOne(b: Bucket, amount: int, charge: int, now: Time): Bucket {
    b.(remaining := if b.remaining.Some? then Some(Max(0, b.remaining.value - charge)) else None,
       reserved := Max(0, b.reserved - amount),
       settled := b.settled + charge, version := b.version + 1, observedAt := now)
  }

  function Settle(buckets: Buckets, amounts: seq<Amount>, usage: Usage, now: Time): Buckets {
    map id | id in buckets ::
      if Names(amounts, id)
      then SettleOne(buckets[id], TotalFor(amounts, id),
                     Charge(TotalFor(amounts, id), DimensionFor(amounts, id), usage), now)
      else buckets[id]
  }

  // ---- inspection ----

  /** Looking for the bottleneck rolls windows over, up to the first unknown bucket or quota. */
  function Inspect(buckets: Buckets, amounts: seq<Amount>, now: Time): Buckets
    decreases |amounts|
  {
    if amounts == [] || amounts[0].bucket !in buckets then buckets
    else
      var b := MaybeReset(buckets[amounts[0].bucket], now);
      var rolled := buckets[amounts[0].bucket := b];
      if b.remaining.None? then rolled else Inspect(rolled, amounts[1..], now)
  }

  // ---- what a reservation does, bucket by bucket ----

  ghost predicate Admissible(cfg: LedgerConfig, who: Asker, buckets: Buckets, amounts: seq<Amount>, now: Time, id: Id) {
    Names(amounts, id) ==>
      && id in buckets
      && AdmitFault(cfg, who, MaybeReset(buckets[id], now),
                    Amount(id, DimensionFor(amounts, id), TotalFor(amounts, id))).None?
  }

  /** Rolled over if due, then holding the whole amount asked of the bucket. */
  ghost function AfterGrant(buckets: Buckets, amounts: seq<Amount>, now: Time): Buckets {
    map id | id in buckets ::
      if Names(amounts, id) then Hold(MaybeReset(buckets[id], now), TotalFor(amounts, id)) else buckets[id]
  }

  lemma {:induction false} HoldAllAt(buckets: Buckets, ordered: seq<Amount>, id: Id)
    requires forall i :: 0 <= i < |ordered| ==> ordered[i].bucket in buckets
    requires LocksOnce(ordered) && id in buckets
    ensures HoldAll(buckets, ordered).Keys == buckets.Keys
    ensures !Names(ordered, id) ==> HoldAll(buckets, ordered)[id] == buckets[id]
    ensures forall i :: 0 <= i < |ordered| && ordered[i].bucket == id ==>
              HoldAll(buckets, ordered)[id] == Hold(buckets[id], ordered[i].amount)
    decreases |ordered|
  {
    if ordered != [] {
      var rest := ordered[1..];
      var next := buckets[ordered[0].bucket := Hold(buckets[ordered[0].bucket], ordered[0].amount)];
      HoldAllAt(next, rest, id);
      assert Names(rest, id) ==> Names(ordered, id) by {
        if Names(rest, id) {
          var i :| 0 <= i < |rest| && rest[i].bucket == id;
          assert ordered[i + 1].bucket == id;
        }
      }
      forall i | 0 <= i < |ordered| && ordered[i].bucket == id
        ensures HoldAll(buckets, ordered)[id] == Hold(buckets[id], ordered[i].amount)
      {
        if i == 0 {
          assert !Names(rest, id);
        } else {
          assert rest[i - 1] == ordered[i];
        }
      }
    }
  }

  /** Granted exactly when every named bucket exists and admits its whole amount; then each of them
      holds exactly the sum asked of it, one amount per bucket comes back, and no lock is needed twice. */
  lemma GrantedMeans(cfg: LedgerConfig, who: Asker, buckets: Buckets, amounts: seq<Amount>, now: Time)
    ensures var (after, reply) := Reserve(cfg, who, buckets, amounts, now);
            && (reply.Granted? <==> amounts != [] && forall id :: Admissible(cfg, who, buckets, amounts, now, id))
            && (reply.Granted? ==> after == AfterGrant(buckets, amounts, now) && reply.amounts == Consolidate(amounts)
                                   && LocksOnce(reply.amounts))
  {
    var (after, reply) := Reserve(cfg, who, buckets, amounts, now);
    var ordered := Consolidate(amounts);
    if amounts != [] && FirstMissing(buckets, ordered).None? {
      AdmitRolls(cfg, who, buckets, ordered, now);
      var (rolled, fault) := Admit(cfg, who, buckets, ordered, now);
      if fault.None? {
        GrantHolds(cfg, who, buckets, amounts, now, rolled);
        forall id ensures Admissible(cfg, who, buckets, amounts, now, id) {
          if Names(amounts, id) {
            assert Names(ordered, id);
            var i :| 0 <= i < |ordered| && ordered[i].bucket == id;
          }
        }
      } else {
        var i := FaultIsReal(cfg, who, buckets, ordered, now);
        assert !Admissible(cfg, who, buckets, amounts, now, ordered[i].bucket);
      }
    } else if amounts != [] {
      var i :| 0 <= i < |ordered| && ordered[i].bucket !in buckets;
      assert !Admissible(cfg, who, buckets, amounts, now, ordered[i].bucket);
    }
  }

  lemma GrantHolds(cfg: LedgerConfig, who: Asker, buckets: Buckets, amounts: seq<Amount>, now: Time, rolled: Buckets)
    requires forall i :: 0 <= i < |Consolidate(amounts)| ==> Consolidate(amounts)[i].bucket in buckets
    requires Admit(cfg, who, buckets, Consolidate(amounts), now) == (rolled, None)
    ensures rolled.Keys == buckets.Keys && HoldAll(rolled, Consolidate(amounts)) == AfterGrant(buckets, amounts, now)
  {
    AdmitRolls(cfg, who, buckets, Consolidate(amounts), now);
    var held := HoldAll(rolled, Consolidate(amounts));
    HoldAllKeys(rolled, Consolidate(amounts));
    forall id | id in buckets ensures held[id] == AfterGrant(buckets, amounts, now)[id] {
      GrantHoldsAt(cfg, who, buckets, amounts, now, rolled, id);
    }
  }

  lemma {:induction false} HoldAllKeys(buckets: Buckets, ordered: seq<Amount>)
    requires forall i :: 0 <= i < |ordered| ==> ordered[i].bucket in buckets
    ensures HoldAll(buckets, ordered).Keys == buckets.Keys
    decreases |ordered|
  {
    if ordered != [] {
      HoldAllKeys(buckets[ordered[0].bucket := Hold(buckets[ordered[0].bucket], ordered[0].amount)], ordered[1..]);
    }
  }

  lemma GrantHoldsAt(cfg: LedgerConfig, who: Asker, buckets: Buckets, amounts: seq<Amount>, now: Time,
                     rolled: Buckets, id: Id)
    requires forall i :: 0 <= i < |Consolidate(amounts)| ==> Consolidate(amounts)[i].bucket in buckets
    requires Admit(cfg, who, buckets, Consolidate(amounts), now) == (rolled, None) && id in buckets
    ensures rolled.Keys == buckets.Keys && id in HoldAll(rolled, Consolidate(amounts))
    ensures HoldAll(rolled, Consolidate(amounts))[id] == AfterGrant(buckets, amounts, now)[id]
  {
    var ordered := Consolidate(amounts);
    AdmitRolls(cfg, who, buckets, ordered, now);
    HoldAllAt(rolled, ordered, id);
    assert RolledAt(buckets, rolled, ordered, now, id);
    if Names(ordered, id) {
      var i :| 0 <= i < |ordered| && ordered[i].bucket == id;
    }
  }

  lemma {:induction false} FaultIsReal(cfg: LedgerConfig, who: Asker, buckets: Buckets, ordered: seq<Amount>,
                                       now: Time) returns (i: nat)
    requires forall i :: 0 <= i < |ordered| ==> ordered[i].bucket in buckets
    requires LocksOnce(ordered) && Admit(cfg, who, buckets, ordered, now).1.Some?
    ensures i < |ordered|
    ensures AdmitFault(cfg, who, MaybeReset(buckets[ordered[i].bucket], now), ordered[i])
            == Admit(cfg, who, buckets, ordered, now).1
    ensures forall j :: 0 <= j < i ==>
              AdmitFault(cfg, who, MaybeReset(buckets[ordered[j].bucket], now), ordered[j]).None?
    decreases |ordered|
  {
    var b := MaybeReset(buckets[ordered[0].bucket], now);
    if AdmitFault(cfg, who, b, ordered[0]).Some? {
      i := 0;
    } else {
      var next := buckets[ordered[0].bucket := b];
      var k := FaultIsReal(cfg, who, next, ordered[1..], now);
      i := k + 1;
      assert forall j :: 0 < j < |ordered| ==> ordered[j] == ordered[1..][j - 1];
    }
  }

  /** All or nothing: a denied request leaves every bucket as it was, apart from due rollovers. */
  lemma DeniedOnlyRolls(cfg: LedgerConfig, who: Asker, buckets: Buckets, amounts: seq<Amount>, now: Time)
    requires Reserve(cfg, who, buckets, amounts, now).1.Denied?
    ensures var after := Reserve(cfg, who, buckets, amounts, now).0;
            after.Keys == buckets.Keys &&
            forall id :: id in buckets ==>
              after[id] == buckets[id] || (Names(amounts, id) && after[id] == MaybeReset(buckets[id], now))
  {
    var ordered := Consolidate(amounts);
    if amounts != [] && FirstMissing(buckets, ordered).None? {
      AdmitRolls(cfg, who, buckets, ordered, now);
      var after := Reserve(cfg, who, buckets, amounts, now).0;
      forall id | id in buckets
        ensures after[id] == buckets[id] || (Names(amounts, id) && after[id] == MaybeReset(buckets[id], now))
      {
        assert RolledAt(buckets, after, ordered, now, id);
      }
    }
  }
}
