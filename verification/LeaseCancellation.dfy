/** A cancelled mission stays without live leases and without new acceptances. */
module LeaseCancellation {
  import opened Common
  import opened Ordering
  import opened LeaseRows
  import opened LeaseProtocol
  import opened LeaseInvariant
  import opened LeaseSteps
  import opened LeaseHistory
  import opened LeaseRuns
  import opened LeaseTheorems
  import opened LeaseRevocation

  // ---- mission cancellation ----

  ghost predicate NoLiveLeaseOf(db: Db, mission: Id) {
    forall l :: l in db.leases && db.leases[l].mission == mission ==> !Live(db.leases[l])
  }

  ghost predicate ClosedMission(db: Db, mission: Id) {
    mission in db.missions && db.missions[mission].status.Cancelled? && NoLiveLeaseOf(db, mission)
  }

  /** A new live lease can only come from a claim on a runnable mission. */
  lemma OnlyClaimOpens(cfg: Config, db: Db, op: Op, l: Id)
    requires AnchorInv(cfg, db) && Admissible(db, op)
    requires var db' := Apply(cfg, db, op).db;
             l in db'.leases && Live(db'.leases[l]) && !(l in db.leases && Live(db.leases[l]))
    ensures var lease := Apply(cfg, db, op).db.leases[l];
            lease.mission in db.missions && Runnable(db.missions[lease.mission].status)
  {
    if op.OpClaim? {
      KeyOrderIsLinear();
    } else if !op.OpRenew? {
      ClosingOpsOnlyClose(cfg, db, op, l);
    }
  }

  lemma ClosedStepStaysClosed(cfg: Config, db: Db, op: Op, mission: Id)
    requires AnchorInv(cfg, db) && Admissible(db, op) && ClosedMission(db, mission)
    ensures ClosedMission(Apply(cfg, db, op).db, mission)
  {
    var db' := Apply(cfg, db, op).db;
    StepIsLater(cfg, db, op);
    assert RowsLater(db, db', mission);
    forall l | l in db'.leases && db'.leases[l].mission == mission ensures !Live(db'.leases[l]) {
      assert RowsLater(db, db', l);
      if Live(db'.leases[l]) {
        OnlyClaimOpens(cfg, db, op, l);
      }
    }
  }

  lemma {:induction false} CancelAllSparesUnleased(db: Db, ls: seq<Id>, reason: string, now: Time, t: Id)
    requires forall l :: l in ls ==> l in db.leases
    requires t in db.tasks && !db.tasks[t].status.Leased?
    ensures var db' := CancelAll(db, ls, reason, now); t in db'.tasks && db'.tasks[t] == db.tasks[t]
    decreases |ls|
  {
    if ls != [] {
      CancelAllSparesUnleased(CancelOne(db, ls[0], reason, now), ls[1..], reason, now, t);
    }
  }

  /** The task of a live lease goes where the reason sends it. */
  lemma {:induction false} CancelAllMovesTask(cfg: Config, db: Db, ls: seq<Id>, reason: string, now: Time, l: Id, t: Id)
    requires Inv(cfg, db) && l in ls && l in db.leases && db.leases[l].task == t
    requires t in db.tasks && db.tasks[t].status.Leased?
    requires forall i :: 0 <= i < |ls| ==> ls[i] in db.leases && Live(db.leases[ls[i]])
    requires forall i, j :: 0 <= i < j < |ls| ==> ls[i] != ls[j]
    ensures var db', status := CancelAll(db, ls, reason, now),
                               if reason == "cancelled" then TaskStatus.Cancelled else TaskStatus.Ready;
            t in db'.tasks && db'.tasks[t] == db.tasks[t].(status := status)
    decreases |ls|
  {
    var next := CancelOne(db, ls[0], reason, now);
    if ls[0] == l {
      CancelAllSparesUnleased(next, ls[1..], reason, now, t);
    } else {
      assert NotBothLive(db, ls[0], l);
      CancelOneKeepsInv(cfg, db, ls[0], reason, now);
      CancelAllMovesTask(cfg, next, ls[1..], reason, now, l, t);
    }
  }

  /** Cancelling a mission ends every live lease, and every task leased under one is cancelled. */
  lemma CancelMissionCloses(cfg: Config, db: Db, mission: Id, now: Time)
    requires Inv(cfg, db) && mission in db.missions
    ensures var db' := CancelMission(db, mission, now).db;
            && ClosedMission(db', mission)
            && (forall l :: l in db.leases && db.leases[l].mission == mission && Live(db.leases[l])
                            && db.leases[l].task in db.tasks && db.tasks[db.leases[l].task].status.Leased? ==>
                  db.leases[l].task in db'.tasks && db'.tasks[db.leases[l].task].status.Cancelled?)
  {
    var bumped := BumpGeneration(db, mission);
    var ls := LiveLeasesOf(bumped, mission);
    TextOrderIsLinear();
    AscendingIsDistinct(ls, TextLess);
    BumpGenerationKeepsInv(cfg, db, mission);
    forall l | l in db.leases && db.leases[l].mission == mission && Live(db.leases[l])
               && db.leases[l].task in db.tasks && db.tasks[db.leases[l].task].status.Leased?
      ensures var db' := CancelMission(db, mission, now).db;
              db.leases[l].task in db'.tasks && db'.tasks[db.leases[l].task].status.Cancelled?
    {
      CancelAllMovesTask(cfg, bumped, ls, "cancelled", now, l, db.leases[l].task);
    }
  }

  lemma {:induction false} ClosedRunStaysClosed(cfg: Config, states: seq<Db>, ops: seq<Op>, i: nat, j: nat, mission: Id)
    requires Run(cfg, states, ops) && i <= j <= |ops| && ClosedMission(states[i], mission)
    ensures ClosedMission(states[j], mission)
    decreases j
  {
    if i < j {
      ClosedRunStaysClosed(cfg, states, ops, i, j - 1, mission);
      ClosedRunStep(cfg, states, ops, j - 1, mission);
    }
  }

  lemma ClosedRunStep(cfg: Config, states: seq<Db>, ops: seq<Op>, j: nat, mission: Id)
    requires Run(cfg, states, ops) && j < |ops| && ClosedMission(states[j], mission)
    ensures ClosedMission(states[j + 1], mission)
  {
    RunInv(cfg, states, ops, j);
    assert RunStep(cfg, states, ops, j);
    ClosedStepStaysClosed(cfg, states[j], ops[j], mission);
  }

  /** After cancellation the mission never again has a live lease, and no step accepts a result of it. */
  lemma CancelledMissionStaysQuiet(cfg: Config, states: seq<Db>, ops: seq<Op>, i: nat, mission: Id, j: nat)
    requires Run(cfg, states, ops) && i < j <= |ops|
    requires ops[i].OpCancelMission? && ops[i].mission == mission && mission in states[i].missions
    ensures ClosedMission(states[j], mission)
    ensures j < |ops| ==> forall r :: IsAccepted(states[j + 1], r) && states[j + 1].results[r].mission == mission ==>
                            IsAccepted(states[j], r)
  {
    RunInv(cfg, states, ops, i);
    assert RunStep(cfg, states, ops, i);
    CancelMissionCloses(cfg, states[i], mission, ops[i].now);
    ClosedRunStaysClosed(cfg, states, ops, i + 1, j, mission);
    if j < |ops| {
      RunInv(cfg, states, ops, j);
      assert RunStep(cfg, states, ops, j);
      forall r | IsAccepted(states[j + 1], r) && states[j + 1].results[r].mission == mission
        ensures IsAccepted(states[j], r)
      {
        assert ResultOk(states[j], r);
        if !IsAccepted(states[j], r) {
          OnlyAcceptAccepts(cfg, states[j], ops[j], r);
        }
      }
    }
  }
}
