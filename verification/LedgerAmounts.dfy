/** Merging amounts by bucket, and releasing or settling them one at a time.  Sorting the amounts first
    only fixes the order in which bucket locks are taken, so these loops visit them as given. */
module LedgerAmounts {
  import opened Common
  import opened Ordering
  import opened Ledger

  ghost predicate MergedAt(merged: map<Id, Amount>, amounts: seq<Amount>, id: Id) {
    && (id in merged <==> Names(amounts, id))
    && (id in merged ==> merged[id] == Amount(id, DimensionFor(amounts, id), TotalFor(amounts, id)))
  }

  lemma ExtendAmounts(front: seq<Amount>, last: Amount, id: Id)
    ensures var amounts := front + [last];
            && (Names(amounts, id) <==> Names(front, id) || last.bucket == id)
            && TotalFor(amounts, id) == TotalFor(front, id) + (if last.bucket == id then last.amount else 0)
            && (last.bucket == id ==> DimensionFor(amounts, id) == last.dimension)
            && (last.bucket != id && Names(front, id) ==> DimensionFor(amounts, id) == DimensionFor(front, id))
  {
    var amounts := front + [last];
    assert amounts[..|amounts| - 1] == front;
    if Names(front, id) {
      var i :| 0 <= i < |front| && front[i].bucket == id;
      assert amounts[i].bucket == id;
    }
    if last.bucket == id {
      assert amounts[|front|].bucket == id;
    }
  }

  /** A bucket that is not named asks for nothing. */
  lemma {:induction false} UnnamedTotal(amounts: seq<Amount>, id: Id)
    requires !Names(amounts, id)
    ensures TotalFor(amounts, id) == 0
  {
    if amounts != [] {
      var front, last := amounts[..|amounts| - 1], amounts[|amounts| - 1];
      assert amounts == front + [last];
      ExtendAmounts(front, last, id);
      UnnamedTotal(front, id);
    }
  }

  lemma MergeNext(merged: map<Id, Amount>, front: seq<Amount>, amt: Amount)
    requires forall id :: MergedAt(merged, front, id)
    ensures var total := if amt.bucket in merged then merged[amt.bucket].amount + amt.amount else amt.amount;
            var next, longer := merged[amt.bucket := Amount(amt.bucket, amt.dimension, total)], front + [amt];
            forall id :: MergedAt(next, longer, id)
  {
    var total := if amt.bucket in merged then merged[amt.bucket].amount + amt.amount else amt.amount;
    var next, longer := merged[amt.bucket := Amount(amt.bucket, amt.dimension, total)], front + [amt];
    assert MergedAt(merged, front, amt.bucket);
    if amt.bucket !in merged {
      UnnamedTotal(front, amt.bucket);
    }
    forall id ensures MergedAt(next, longer, id) {
      assert MergedAt(merged, front, id);
      ExtendAmounts(front, amt, id);
    }
  }

  method MergeByBucket(amounts: seq<Amount>) returns (merged: map<Id, Amount>)
    ensures forall id :: MergedAt(merged, amounts, id)
  {
    merged := map[];
    var i := 0;
    while i < |amounts|
      invariant 0 <= i <= |amounts|
      invariant forall id :: MergedAt(merged, amounts[..i], id)
    {
      var amt := amounts[i];
      assert amounts[..i + 1] == amounts[..i] + [amt];
      MergeNext(merged, amounts[..i], amt);
      if amt.bucket in merged {
        merged := merged[amt.bucket := Amount(amt.bucket, amt.dimension, merged[amt.bucket].amount + amt.amount)];
      } else {
        merged := merged[amt.bucket := amt];
      }
      i := i + 1;
    }
    assert amounts[..i] == amounts;
  }

  method MergeAmounts(amounts: seq<Amount>) returns (ordered: seq<Amount>)
    ensures ordered == Consolidate(amounts)
  {
    var merged := MergeByBucket(amounts);
    TextOrderIsLinear();
    forall id ensures id in merged <==> id in BucketIds(amounts) {
      assert MergedAt(merged, amounts, id);
    }
    assert merged.Keys == BucketIds(amounts);
    var ids := Enumerate(merged.Keys, TextLess);
    assert forall k :: 0 <= k < |ids| ==> ids[k] in ids;
    ordered := seq(|ids|, k requires 0 <= k < |ids| => merged[ids[k]]);
    forall k | 0 <= k < |ids|
      ensures ordered[k] == Amount(ids[k], DimensionFor(amounts, ids[k]), TotalFor(amounts, ids[k]))
    {
      assert MergedAt(merged, amounts, ids[k]);
    }
  }

  lemma ReleaseNext(buckets: Buckets, front: seq<Amount>, last: Amount)
    requires LocksOnce(front + [last])
    ensures var after := Release(buckets, front);
            Release(buckets, front + [last])
            == if last.bucket in buckets then after[last.bucket := Unhold(after[last.bucket], last.amount)] else after
  {
    OnlyLastNames(front, last);
    UnnamedTotal(front, last.bucket);
    forall id | id in buckets
      ensures Release(buckets, front + [last])[id]
              == if id == last.bucket then Unhold(buckets[id], last.amount) else Release(buckets, front)[id]
    {
      ExtendAmounts(front, last, id);
    }
  }

  lemma OnlyLastNames(front: seq<Amount>, last: Amount)
    requires LocksOnce(front + [last])
    ensures !Names(front, last.bucket) && LocksOnce(front)
  {
    var amounts := front + [last];
    assert amounts[|front|] == last;
    assert forall i :: 0 <= i < |front| ==> amounts[i] == front[i];
  }

  lemma SettleNext(buckets: Buckets, front: seq<Amount>, last: Amount, usage: Usage, now: Time)
    requires LocksOnce(front + [last])
    ensures var after := Settle(buckets, front, usage, now);
            Settle(buckets, front + [last], usage, now)
            == if last.bucket in buckets
               then after[last.bucket := SettleOne(after[last.bucket], last.amount,
                                                   Charge(last.amount, last.dimension, usage), now)]
               else after
  {
    forall id | id in buckets
      ensures Settle(buckets, front + [last], usage, now)[id]
              == if id == last.bucket
                 then SettleOne(buckets[id], last.amount, Charge(last.amount, last.dimension, usage), now)
                 else Settle(buckets, front, usage, now)[id]
    {
      SettleNextAt(buckets, front, last, usage, now, id);
    }
    OnlyLastNames(front, last);
  }

  lemma SettleNextAt(buckets: Buckets, front: seq<Amount>, last: Amount, usage: Usage, now: Time, id: Id)
    requires LocksOnce(front + [last]) && id in buckets
    ensures Settle(buckets, front + [last], usage, now)[id]
            == if id == last.bucket
               then SettleOne(buckets[id], last.amount, Charge(last.amount, last.dimension, usage), now)
               else Settle(buckets, front, usage, now)[id]
  {
    OnlyLastNames(front, last);
    UnnamedTotal(front, last.bucket);
    ExtendAmounts(front, last, id);
  }
}
