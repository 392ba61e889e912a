/** The ledger as it runs: bucket by bucket under its admission lock. */
module LedgerService {
  import opened Common
  import opened Ledger
  import opened LedgerAmounts

  // ---- bottlenecks ----

  /** Why a request may have to wait; a tight bucket with nothing remaining is reported as zero. */
  datatype Squeeze =
    | MissingBucket(bucket: Id, dimension: Dimension)
    | UnknownRemaining(bucket: Id, dimension: Dimension)
    | Tight(bucket: Id, dimension: Dimension, remaining: int, requested: int)

  /** What the bucket has left at `now`. */
  function Reading(b: Bucket, now: Time): Option<int> {
    Effective(MaybeReset(b, now))
  }

  predicate Readable(buckets: Buckets, amt: Amount, now: Time) {
    amt.bucket in buckets && Reading(buckets[amt.bucket], now).Some?
  }

  /** How many times over the bucket could serve the amount. */
  function Slack(buckets: Buckets, amt: Amount, now: Time): real
    requires Readable(buckets, amt, now) && amt.amount > 0
  {
    Reading(buckets[amt.bucket], now).value as real / amt.amount as real
  }

  function SqueezeOf(buckets: Buckets, amt: Amount, now: Time): Squeeze
    requires Readable(buckets, amt, now)
  {
    Tight(amt.bucket, amt.dimension, Reading(buckets[amt.bucket], now).value, amt.amount)
  }

  /** Among the first `n` amounts: the first of those with the least slack below two, if there is one. */
  ghost predicate Leads(buckets: Buckets, amounts: seq<Amount>, now: Time, n: nat, leader: Option<nat>, ratio: real)
    requires n <= |amounts| && forall j :: 0 <= j < n ==> Readable(buckets, amounts[j], now)
  {
    && (leader.None? ==> ratio == 2.0)
    && (leader.Some? ==>
          && leader.value < n && amounts[leader.value].amount > 0
          && ratio == Slack(buckets, amounts[leader.value], now) && ratio < 2.0)
    && (forall j :: 0 <= j < n && amounts[j].amount > 0 ==> ratio <= Slack(buckets, amounts[j], now))
    && (forall j :: 0 <= j < n && amounts[j].amount > 0 && leader.Some? && j < leader.value ==>
          ratio < Slack(buckets, amounts[j], now))
  }

  /** The first bucket that is missing or unknown, or else the amount that leads. */
  ghost predicate IsBottleneck(buckets: Buckets, amounts: seq<Amount>, now: Time, worst: Option<Squeeze>) {
    || (exists i :: 0 <= i < |amounts| && FirstUnreadable(buckets, amounts, now, i)
                    && worst == Some(if amounts[i].bucket !in buckets
                                     then MissingBucket(amounts[i].bucket, amounts[i].dimension)
                                     else UnknownRemaining(amounts[i].bucket, amounts[i].dimension)))
    || (&& (forall j :: 0 <= j < |amounts| ==> Readable(buckets, amounts[j], now))
        && exists leader: Option<nat>, ratio: real :: Leads(buckets, amounts, now, |amounts|, leader, ratio)
                                   && worst == if leader.None? then None
                                               else Some(SqueezeOf(buckets, amounts[leader.value], now)))
  }

  ghost predicate FirstUnreadable(buckets: Buckets, amounts: seq<Amount>, now: Time, i: nat)
    requires i < |amounts|
  {
    !Readable(buckets, amounts[i], now) && forall j :: 0 <= j < i ==> Readable(buckets, amounts[j], now)
  }

  ghost predicate ReadsAlike(a: Buckets, b: Buckets, now: Time, id: Id) {
    (id in a <==> id in b) && (id in a ==> Reading(a[id], now) == Reading(b[id], now))
  }

  ghost predicate SameReadings(a: Buckets, b: Buckets, now: Time) {
    forall id :: ReadsAlike(a, b, now, id)
  }

  /** Rolling a window over at `now` does not change what is read at `now`. */
  lemma RollKeepsReadings(was: Buckets, buckets: Buckets, now: Time, x: Id)
    requires SameReadings(was, buckets, now) && x in buckets
    ensures SameReadings(was, buckets[x := MaybeReset(buckets[x], now)], now)
  {
    var after := buckets[x := MaybeReset(buckets[x], now)];
    forall id ensures ReadsAlike(was, after, now, id) {
      assert ReadsAlike(was, buckets, now, id);
    }
  }

  class QuotaLedger {
    const cfg: LedgerConfig
    var buckets: Buckets
    var settledKeys: set<string>

    constructor (cfg: LedgerConfig, buckets: Buckets)
      ensures this.cfg == cfg && this.buckets == buckets && settledKeys == {}
    {
      this.cfg, this.buckets, settledKeys := cfg, buckets, {};
    }

    method EstimateAmounts(ids: seq<Id>, input: Option<int>, output: Option<int>, benchmark: bool)
      returns (amounts: seq<Amount>)
      ensures amounts == Estimate(cfg, buckets, ids, input, output, benchmark)
    {
      amounts := [];
      var seen: set<Id> := {};
      var i := 0;
      while i < |ids|
        invariant 0 <= i <= |ids|
        invariant forall id :: id in seen <==> id in ids[..i]
        invariant amounts == EstimateEach(cfg, buckets, ids[..i], input, output)
      {
        assert ids[..i + 1][..i] == ids[..i];
        if ids[i] !in seen {
          seen := seen + {ids[i]};
          if ids[i] in buckets {
            var dimension := buckets[ids[i]].dimension;
            amounts := amounts + [Amount(ids[i], dimension, Need(cfg, dimension, input, output))];
          }
        }
        i := i + 1;
      }
      assert ids[..i] == ids;
      if benchmark && cfg.benchmarkBucket in buckets && cfg.benchmarkBucket !in seen {
        amounts := amounts + [Amount(cfg.benchmarkBucket, buckets[cfg.benchmarkBucket].dimension, 1)];
      }
    }

    method ReserveAmounts(amounts: seq<Amount>, who: Asker, now: Time) returns (reply: Reserved)
      modifies this
      ensures (buckets, reply) == Reserve(cfg, who, old(buckets), amounts, now)
      ensures settledKeys == old(settledKeys)
    {
      if amounts == [] {
        return Denied(NoBuckets);
      }
      var ordered := MergeAmounts(amounts);
      var missing := FindMissing(ordered);
      if missing.Some? {
        return Denied(UnknownBucket(missing.value));
      }
      var fault := AdmitInOrder(ordered, who, now);
      if fault.Some? {
        return Denied(fault.value);
      }
      HoldInOrder(ordered);
      return Granted(ordered);
    }

    method FindMissing(ordered: seq<Amount>) returns (missing: Option<Id>)
      ensures missing == FirstMissing(buckets, ordered)
    {
      var i := 0;
      while i < |ordered|
        invariant 0 <= i <= |ordered|
        invariant FirstMissing(buckets, ordered) == FirstMissing(buckets, ordered[i..])
      {
        if ordered[i].bucket !in buckets {
          return Some(ordered[i].bucket);
        }
        assert ordered[i..][1..] == ordered[i + 1..];
        i := i + 1;
      }
      return None;
    }

    method AdmitInOrder(ordered: seq<Amount>, who: Asker, now: Time) returns (fault: Option<LedgerFault>)
      requires forall j :: 0 <= j < |ordered| ==> ordered[j].bucket in buckets
      modifies this`buckets
      ensures (buckets, fault) == Admit(cfg, who, old(buckets), ordered, now)
      ensures buckets.Keys == old(buckets.Keys)
    {
      var i := 0;
      while i < |ordered|
        invariant 0 <= i <= |ordered| && buckets.Keys == old(buckets.Keys)
        invariant Admit(cfg, who, old(buckets), ordered, now) == Admit(cfg, who, buckets, ordered[i..], now)
      {
        var amt := ordered[i];
        buckets := buckets[amt.bucket := MaybeReset(buckets[amt.bucket], now)];
        fault := AdmitFault(cfg, who, buckets[amt.bucket], amt);
        if fault.Some? {
          return;
        }
        assert ordered[i..][1..] == ordered[i + 1..];
        i := i + 1;
      }
      return None;
    }

    method HoldInOrder(ordered: seq<Amount>)
      requires forall j :: 0 <= j < |ordered| ==> ordered[j].bucket in buckets
      modifies this`buckets
      ensures buckets == HoldAll(old(buckets), ordered)
    {
      var i := 0;
      while i < |ordered|
        invariant 0 <= i <= |ordered|
        invariant forall j :: 0 <= j < |ordered| ==> ordered[j].bucket in buckets
        invariant HoldAll(old(buckets), ordered) == HoldAll(buckets, ordered[i..])
      {
        var amt := ordered[i];
        if buckets[amt.bucket].remaining.Some? {
          buckets := buckets[amt.bucket := buckets[amt.bucket].(reserved := buckets[amt.bucket].reserved + amt.amount)];
        } else {
          assert buckets == buckets[amt.bucket := Hold(buckets[amt.bucket], amt.amount)];
        }
        assert ordered[i..][1..] == ordered[i + 1..];
        i := i + 1;
      }
    }

    /** Looks for the amount that is scarcest in its bucket, rolling windows over on the way. */
    method FindBottleneck(amounts: seq<Amount>, now: Time) returns (worst: Option<Squeeze>)
      modifies this`buckets
      ensures buckets == Inspect(old(buckets), amounts, now)
      ensures IsBottleneck(old(buckets), amounts, now, worst)
    {
      worst := None;
      var worstRatio := 2.0;
      ghost var leader: Option<nat> := None;
      var i := 0;
      while i < |amounts|
        invariant 0 <= i <= |amounts|
        invariant Inspect(old(buckets), amounts, now) == Inspect(buckets, amounts[i..], now)
        invariant SameReadings(old(buckets), buckets, now)
        invariant forall j :: 0 <= j < i ==> Readable(old(buckets), amounts[j], now)
        invariant Leads(old(buckets), amounts, now, i, leader, worstRatio)
        invariant worst == if leader.None? then None else Some(SqueezeOf(old(buckets), amounts[leader.value], now))
      {
        var amt := amounts[i];
        assert ReadsAlike(old(buckets), buckets, now, amt.bucket);
        if amt.bucket !in buckets {
          return Some(MissingBucket(amt.bucket, amt.dimension));
        }
        RollKeepsReadings(old(buckets), buckets, now, amt.bucket);
        buckets := buckets[amt.bucket := MaybeReset(buckets[amt.bucket], now)];
        var have := Effective(buckets[amt.bucket]);
        if have.None? {
          return Some(UnknownRemaining(amt.bucket, amt.dimension));
        }
        if amt.amount > 0 {
          var ratio := have.value as real / amt.amount as real;
          if ratio < worstRatio {
            worstRatio := ratio;
            worst := Some(Tight(amt.bucket, amt.dimension, have.value, amt.amount));
            leader := Some(i);
          }
        }
        assert amounts[i..][1..] == amounts[i + 1..];
        i := i + 1;
      }
    }

    method ReleaseAmounts(amounts: seq<Amount>)
      requires LocksOnce(amounts)
      modifies this
      ensures buckets == Release(old(buckets), amounts) && settledKeys == old(settledKeys)
    {
      var i := 0;
      while i < |amounts|
        invariant 0 <= i <= |amounts| && settledKeys == old(settledKeys)
        invariant buckets == Release(old(buckets), amounts[..i])
      {
        var amt := amounts[i];
        assert amounts[..i] + [amt] == amounts[..i + 1];
        ReleaseNext(old(buckets), amounts[..i], amt);
        if amt.bucket in buckets {
          buckets := buckets[amt.bucket := buckets[amt.bucket].(
            reserved := Max(0, buckets[amt.bucket].reserved - amt.amount))];
        }
        i := i + 1;
      }
      assert amounts[..i] == amounts;
    }

    method SettleAmounts(amounts: seq<Amount>, key: string, usage: Usage, now: Time)
      returns (fault: Option<LedgerFault>)
      requires LocksOnce(amounts)
      modifies this
      ensures fault == if key in old(settledKeys) then Some(DuplicateSettlement) else None
      ensures fault.Some? ==> buckets == old(buckets) && settledKeys == old(settledKeys)
      ensures fault.None? ==>
                buckets == Settle(old(buckets), amounts, usage, now) && settledKeys == old(settledKeys) + {key}
    {
      if key in settledKeys {
        return Some(DuplicateSettlement);
      }
      var i := 0;
      while i < |amounts|
        invariant 0 <= i <= |amounts| && settledKeys == old(settledKeys)
        invariant buckets == Settle(old(buckets), amounts[..i], usage, now)
      {
        var amt := amounts[i];
        assert amounts[..i] + [amt] == amounts[..i + 1];
        SettleNext(old(buckets), amounts[..i], amt, usage, now);
        if amt.bucket in buckets {
          var b := buckets[amt.bucket];
          var charge := amt.amount;
          if amt.dimension in usage {
            charge := Min(amt.amount, Max(0, usage[amt.dimension]));
          }
          if b.remaining.Some? {
            b := b.(remaining := Some(Max(0, b.remaining.value - charge)));
          }
          b := b.(reserved := Max(0, b.reserved - amt.amount), settled := b.settled + charge);
          buckets := buckets[amt.bucket := b.(version := b.version + 1, observedAt := now)];
        }
        i := i + 1;
      }
      assert amounts[..i] == amounts;
      settledKeys := settledKeys + {key};
      return None;
    }
  }
}
