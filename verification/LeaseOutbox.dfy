/** The outbox over whole runs: every event of the protocol is announced once, and nothing else is. */
module LeaseOutbox {
  import opened Common
  import opened LeaseRows
  import opened LeaseProtocol
  import opened LeaseInvariant
  import opened LeaseSteps
  import opened LeaseRuns

  /** No two outbox rows ever share a stable workflow id, so the unique constraint never fires, and no lease
      is announced as cancelled twice, not even in different seconds; rows are only ever appended. */
  lemma OutboxNeverRepeats(cfg: Config, states: seq<Db>, ops: seq<Op>, i: nat)
    requires Run(cfg, states, ops) && i <= |ops|
    ensures forall m, n :: 0 <= m < n < |states[i].outbox| ==>
              WorkflowText(states[i].outbox[m]) != WorkflowText(states[i].outbox[n])
    ensures forall m, n :: CancelledApart(states[i], m, n)
    ensures forall j :: i <= j <= |ops| ==> states[i].outbox <= states[j].outbox
  {
    RunInv(cfg, states, ops, i);
    var db := states[i];
    forall m, n | 0 <= m < n < |db.outbox| ensures WorkflowText(db.outbox[m]) != WorkflowText(db.outbox[n]) {
      if WorkflowText(db.outbox[m]) == WorkflowText(db.outbox[n]) {
        WorkflowTextInjective(db.outbox[m], db.outbox[n]);
      }
    }
    forall j | i <= j <= |ops| ensures db.outbox <= states[j].outbox {
      RunLater(cfg, states, ops, i, j);
    }
  }

  /** Claims, submissions, acceptances and lease cancellations correspond one to one with their rows. */
  lemma OutboxTellsAll(cfg: Config, states: seq<Db>, ops: seq<Op>, i: nat, x: Id)
    requires Run(cfg, states, ops) && i <= |ops|
    ensures var db := states[i];
            && (ClaimedAttempt(x) in db.outbox <==> x in db.attempts)
            && (SubmittedResult(x) in db.outbox <==> x in db.results)
            && (AcceptedResult(x) in db.outbox <==> IsAccepted(db, x))
            && ((exists s :: CancelledLease(x, s) in db.outbox) <==> x in db.leases && db.leases[x].state.Cancelled?)
  {
    RunInv(cfg, states, ops, i);
    var db := states[i];
    assert Announced(db, x);
    assert ClaimedAttempt(x) in db.outbox ==> Recorded(db, ClaimedAttempt(x));
    assert SubmittedResult(x) in db.outbox ==> Recorded(db, SubmittedResult(x));
    assert AcceptedResult(x) in db.outbox ==> Recorded(db, AcceptedResult(x));
    assert forall s :: CancelledLease(x, s) in db.outbox ==> Recorded(db, CancelledLease(x, s));
  }

  ghost predicate BumpAnnounced(db: Db, m: Id, g: int) {
    BumpedGeneration(m, g) in db.outbox
  }

  lemma {:induction false} CancelAllBumpsNone(db: Db, ls: seq<Id>, reason: string, now: Time, m: Id, g: int)
    requires forall l :: l in ls ==> l in db.leases
    ensures BumpAnnounced(CancelAll(db, ls, reason, now), m, g) <==> BumpAnnounced(db, m, g)
    decreases |ls|
  {
    if ls != [] {
      CancelAllBumpsNone(CancelOne(db, ls[0], reason, now), ls[1..], reason, now, m, g);
    }
  }

  /** Exactly the generations that the mission gained are newly announced. */
  ghost predicate BumpsRight(db: Db, db': Db, m: Id, g: int) {
    m in db.missions ==>
      && m in db'.missions && db.missions[m].cancelGen <= db'.missions[m].cancelGen
      && (BumpAnnounced(db', m, g)
          <==> BumpAnnounced(db, m, g) || db.missions[m].cancelGen < g <= db'.missions[m].cancelGen)
  }

  lemma RevokeBumps(db: Db, mission: Id, reason: string, notify: bool, now: Time, m: Id, g: int)
    ensures BumpsRight(db, Revoke(db, mission, reason, notify, now).db, m, g)
  {
    if mission in db.missions && notify {
      var bumped := BumpGeneration(db, mission);
      CancelAllBumpsNone(bumped, LiveLeasesOf(bumped, mission), reason, now, m, g);
    }
  }

  lemma CancelMissionBumps(db: Db, mission: Id, now: Time, m: Id, g: int)
    ensures BumpsRight(db, CancelMission(db, mission, now).db, m, g)
  {
    RevokeBumps(db, mission, "cancelled", true, now, m, g);
  }

  lemma ClaimBumps(cfg: Config, db: Db, worker: Id, token: string, now: Time, asked: Option<int>,
                                      hidden: set<Id>, a: Id, l: Id, m: Id, g: int)
    ensures BumpsRight(db, Claim(cfg, db, worker, token, now, asked, hidden, a, l).db, m, g)
  {
  }

  lemma AcceptBumps(db: Db, r: Id, now: Time, keep: bool, m: Id, g: int)
    ensures BumpsRight(db, Accept(db, r, now, keep).db, m, g)
  {
  }

  lemma SubmitBumps(db: Db, l: Id, worker: Id, token: string, generation: int, checks: Checks,
                                       refs: set<string>, now: Time, r: Id, m: Id, g: int)
    ensures BumpsRight(db, Submit(db, l, worker, token, generation, checks, refs, now, r).db, m, g)
  {
  }

  lemma CancelLeaseBumps(db: Db, l: Id, reason: string, now: Time, m: Id, g: int)
    ensures BumpsRight(db, CancelLease(db, l, reason, now).db, m, g)
  {
  }

  lemma CommitBumps(db: Db, p: Proposal, now: Time, m: Id, g: int)
    ensures BumpsRight(db, CommitGraph(db, p, now).db, m, g)
  {
  }

  lemma WorkerBumps(db: Db, worker: Id, op: WorkerOp, m: Id, g: int)
    ensures BumpsRight(db, ApplyWorker(db, worker, op).db, m, g)
  {
    WorkerStepTouchesOneRow(db, worker, op);
  }

  lemma SilentOpsBump(cfg: Config, db: Db, op: Op, m: Id, g: int)
    requires Feasible(db, op)
    requires op.OpRenew? || op.OpExpire? || op.OpInsertMission? || op.OpMissionStatus? || op.OpMissionSource?
    ensures BumpsRight(db, Apply(cfg, db, op).db, m, g)
  {
  }

  /** A step announces exactly the generations it adds to a mission. */
  lemma StepBumps(cfg: Config, db: Db, op: Op, m: Id, g: int)
    requires Feasible(db, op)
    ensures BumpsRight(db, Apply(cfg, db, op).db, m, g)
  {
    match op
    case OpRevoke(mission, reason, notify, now) => RevokeBumps(db, mission, reason, notify, now, m, g);
    case OpCancelMission(mission, now) => CancelMissionBumps(db, mission, now, m, g);
    case OpClaim(worker, token, now, asked, hidden, a, l) =>
      ClaimBumps(cfg, db, worker, token, now, asked, hidden, a, l, m, g);
    case OpAccept(r, now, keep) => AcceptBumps(db, r, now, keep, m, g);
    case OpCommit(p, now) => CommitBumps(db, p, now, m, g);
    case OpSubmit(l, worker, token, generation, checks, refs, now, r) =>
      SubmitBumps(db, l, worker, token, generation, checks, refs, now, r, m, g);
    case OpCancelLease(l, reason, now) => CancelLeaseBumps(db, l, reason, now, m, g);
    case OpWorker(worker, wop) => WorkerBumps(db, worker, wop, m, g);
    case _ => SilentOpsBump(cfg, db, op, m, g);
  }

  /** From any point of a run on, exactly the generations that a mission gains are announced. */
  lemma {:induction false} BumpsAreAnnounced(cfg: Config, states: seq<Db>, ops: seq<Op>, i: nat, j: nat, m: Id, g: int)
    requires Run(cfg, states, ops) && i <= j <= |ops| && m in states[i].missions
    ensures BumpsRight(states[i], states[j], m, g)
    decreases j
  {
    if i < j {
      BumpsAreAnnounced(cfg, states, ops, i, j - 1, m, g);
      assert RunStep(cfg, states, ops, j - 1);
      StepBumps(cfg, states[j - 1], ops[j - 1], m, g);
    }
  }

  /** So for a mission inserted during the run: every generation above the inserted one, and no other. */
  lemma InsertedMissionBumps(cfg: Config, states: seq<Db>, ops: seq<Op>, i: nat, j: nat, m: Id, g: int)
    requires Run(cfg, states, ops) && i < j <= |ops| && m !in states[i].missions && m in states[i + 1].missions
    ensures m in states[j].missions
    ensures BumpAnnounced(states[j], m, g)
            <==> states[i + 1].missions[m].cancelGen < g <= states[j].missions[m].cancelGen
  {
    RunInv(cfg, states, ops, i);
    assert RunStep(cfg, states, ops, i);
    assert BumpAnnounced(states[i], m, g) ==> Recorded(states[i], BumpedGeneration(m, g));
    if !ops[i].OpInsertMission? {
      OnlyInsertAdds(cfg, states[i], ops[i], m);
    }
    BumpsAreAnnounced(cfg, states, ops, i + 1, j, m, g);
  }

  lemma OnlyInsertAdds(cfg: Config, db: Db, op: Op, m: Id)
    requires Feasible(db, op) && m !in db.missions && !op.OpInsertMission?
    ensures m !in Apply(cfg, db, op).db.missions
  {
    if op.OpWorker? {
      WorkerStepTouchesOneRow(db, op.worker, op.op);
    }
  }
}
