/** After a revocation or a mission cancellation nothing that was under way comes back. */
module LeaseRevocation {
  import opened Common
  import opened LeaseRows
  import opened LeaseProtocol
  import opened LeaseInvariant
  import opened LeaseSteps
  import opened LeaseHistory
  import opened LeaseRuns
  import opened LeaseTheorems

  // ---- revocation ----

  /** The lease carries an older cancellation generation than its mission. */
  ghost predicate Fenced(db: Db, l: Id) {
    && l in db.leases
    && db.leases[l].mission in db.missions
    && db.leases[l].cancelGen < db.missions[db.leases[l].mission].cancelGen
  }

  ghost predicate NewlyAcceptedUnder(db: Db, db': Db, l: Id) {
    exists r :: IsAccepted(db', r) && db'.results[r].lease == l && !IsAccepted(db, r)
  }

  lemma QuietOpsKeepLeases(cfg: Config, db: Db, op: Op)
    requires Admissible(db, op)
    requires op.OpSubmit? || op.OpCommit? || op.OpWorker?
             || op.OpInsertMission? || op.OpMissionStatus? || op.OpMissionSource?
    ensures Apply(cfg, db, op).db.leases == db.leases
  {
    if op.OpWorker? {
      WorkerStepTouchesOneRow(db, op.worker, op.op);
    }
  }

  ghost predicate LeftOrClosed(before: Lease, after: Lease) {
    after == before || (after == before.(state := after.state) && !Live(after))
  }

  ghost predicate OnlyCloses(db: Db, db': Db, l: Id) {
    db'.leases.Keys == db.leases.Keys && (l in db.leases ==> LeftOrClosed(db.leases[l], db'.leases[l]))
  }

  lemma AcceptOnlyCloses(db: Db, r: Id, now: Time, keep: bool, l: Id)
    ensures OnlyCloses(db, Accept(db, r, now, keep).db, l)
  {
  }

  lemma ExpireOnlyCloses(db: Db, batch: seq<Id>, now: Time, l: Id)
    requires forall k :: k in batch ==> k in db.leases
    ensures OnlyCloses(db, ExpireAll(db, batch, now), l)
  {
  }

  lemma RevokeOnlyCloses(db: Db, mission: Id, reason: string, notify: bool, now: Time, l: Id)
    ensures OnlyCloses(db, Revoke(db, mission, reason, notify, now).db, l)
  {
  }

  lemma CancelMissionOnlyCloses(db: Db, mission: Id, now: Time, l: Id)
    ensures OnlyCloses(db, CancelMission(db, mission, now).db, l)
  {
    RevokeOnlyCloses(db, mission, "cancelled", true, now, l);
  }

  /** Apart from claims and renewals a step leaves a lease alone or closes it. */
  lemma ClosingOpsOnlyClose(cfg: Config, db: Db, op: Op, l: Id)
    requires Admissible(db, op) && !op.OpClaim? && !op.OpRenew?
    ensures OnlyCloses(db, Apply(cfg, db, op).db, l)
  {
    match op
    case OpExpire(batch, now, _, _, _) => ExpireOnlyCloses(db, batch, now, l);
    case OpAccept(r, now, keep) => AcceptOnlyCloses(db, r, now, keep, l);
    case OpCancelLease(_, _, _) =>
    case OpRevoke(mission, reason, notify, now) => RevokeOnlyCloses(db, mission, reason, notify, now, l);
    case OpCancelMission(mission, now) => CancelMissionOnlyCloses(db, mission, now, l);
    case _ => QuietOpsKeepLeases(cfg, db, op);
  }

  /** Only a successful renewal of `l` itself moves its expiry. */
  lemma OnlyRenewExtends(cfg: Config, db: Db, op: Op, l: Id)
    requires AnchorInv(cfg, db) && Admissible(db, op) && l in db.leases
    ensures var db' := Apply(cfg, db, op).db;
            l in db'.leases &&
            (db'.leases[l].expiresAt != db.leases[l].expiresAt
             || (db'.leases[l].state.Renewed? && !db.leases[l].state.Renewed?) ==>
              op.OpRenew? && op.lease == l && Apply(cfg, db, op).reply.Done?)
  {
    if op.OpClaim? {
      KeyOrderIsLinear();
    } else if !op.OpRenew? {
      ClosingOpsOnlyClose(cfg, db, op, l);
    }
  }

  lemma FencedStepIsBarren(cfg: Config, db: Db, op: Op, l: Id)
    requires Inv(cfg, db) && Admissible(db, op) && Fenced(db, l)
    ensures Fenced(Apply(cfg, db, op).db, l)
    ensures op.OpRenew? && op.lease == l ==> Apply(cfg, db, op).reply.Refused?
    ensures Apply(cfg, db, op).db.leases[l].expiresAt == db.leases[l].expiresAt
    ensures !NewlyAcceptedUnder(db, Apply(cfg, db, op).db, l)
  {
    var db' := Apply(cfg, db, op).db;
    assert Anchored(db, l);
    StepIsLater(cfg, db, op);
    assert RowsLater(db, db', l) && RowsLater(db, db', db.leases[l].mission);
    OnlyRenewExtends(cfg, db, op, l);
    forall r | IsAccepted(db', r) && !IsAccepted(db, r) ensures db'.results[r].lease != l {
      OnlyAcceptAccepts(cfg, db, op, r);
      assert ResultOk(db, r);
    }
  }

  /** Once fenced, a lease stays fenced: never extended again, nothing newly accepted under it. */
  lemma {:induction false} FencedRunIsBarren(cfg: Config, states: seq<Db>, ops: seq<Op>, i: nat, j: nat, l: Id)
    requires Run(cfg, states, ops) && i <= j <= |ops| && Fenced(states[i], l)
    ensures Fenced(states[j], l)
    ensures states[j].leases[l].expiresAt == states[i].leases[l].expiresAt
    ensures !NewlyAcceptedUnder(states[i], states[j], l)
    decreases j
  {
    if i < j {
      FencedRunIsBarren(cfg, states, ops, i, j - 1, l);
      FencedRunStep(cfg, states, ops, j - 1, l);
      NoNewAcceptanceComposes(states[i], states[j - 1], states[j], l);
    }
  }

  lemma FencedRunStep(cfg: Config, states: seq<Db>, ops: seq<Op>, j: nat, l: Id)
    requires Run(cfg, states, ops) && j < |ops| && Fenced(states[j], l)
    ensures Fenced(states[j + 1], l) && states[j + 1].leases[l].expiresAt == states[j].leases[l].expiresAt
    ensures !NewlyAcceptedUnder(states[j], states[j + 1], l) && Later(states[j], states[j + 1])
  {
    RunInv(cfg, states, ops, j);
    assert RunStep(cfg, states, ops, j);
    FencedStepIsBarren(cfg, states[j], ops[j], l);
    RunLater(cfg, states, ops, j, j + 1);
  }

  lemma NoNewAcceptanceComposes(a: Db, b: Db, c: Db, l: Id)
    requires !NewlyAcceptedUnder(a, b, l) && !NewlyAcceptedUnder(b, c, l) && Later(b, c)
    ensures !NewlyAcceptedUnder(a, c, l)
  {
    forall r | IsAccepted(c, r) && c.results[r].lease == l ensures IsAccepted(a, r) {
      assert RowsLater(b, c, r);
      assert IsAccepted(b, r) && b.results[r].lease == l;
    }
  }

  /** Revocation, with or without notifying the workers, and mission cancellation. */
  ghost predicate RevokesMission(op: Op, mission: Id) {
    (op.OpRevoke? && op.mission == mission) || (op.OpCancelMission? && op.mission == mission)
  }

  lemma RevocationFences(cfg: Config, db: Db, op: Op, mission: Id, l: Id)
    requires Inv(cfg, db) && RevokesMission(op, mission) && mission in db.missions
    requires l in db.leases && db.leases[l].mission == mission
    ensures Fenced(Apply(cfg, db, op).db, l)
  {
    assert Anchored(db, l);
    StepIsLater(cfg, db, op);
    assert RowsLater(db, Apply(cfg, db, op).db, l);
  }

  lemma RevocationAcceptsNothing(cfg: Config, db: Db, op: Op, mission: Id, l: Id)
    requires RevokesMission(op, mission) && Admissible(db, op)
    ensures !NewlyAcceptedUnder(db, Apply(cfg, db, op).db, l)
  {
    forall r | IsAccepted(Apply(cfg, db, op).db, r) ensures IsAccepted(db, r) {
      if !IsAccepted(db, r) {
        OnlyAcceptAccepts(cfg, db, op, r);
      }
    }
  }

  /** After a revocation no lease that existed then is ever renewed, and no result submitted under
      one is ever newly accepted, whatever happens next. */
  lemma RevokedWorkNeverReturns(cfg: Config, states: seq<Db>, ops: seq<Op>, i: nat, mission: Id, j: nat, l: Id)
    requires Run(cfg, states, ops) && i < j <= |ops|
    requires RevokesMission(ops[i], mission) && mission in states[i].missions
    requires l in states[i].leases && states[i].leases[l].mission == mission
    ensures l in states[j].leases && states[j].leases[l].expiresAt == states[i].leases[l].expiresAt
    ensures !NewlyAcceptedUnder(states[i], states[j], l)
  {
    RunInv(cfg, states, ops, i);
    assert RunStep(cfg, states, ops, i);
    RevocationFences(cfg, states[i], ops[i], mission, l);
    FencedRunIsBarren(cfg, states, ops, i + 1, j, l);
    OnlyRenewExtends(cfg, states[i], ops[i], l);
    RevocationAcceptsNothing(cfg, states[i], ops[i], mission, l);
    RunLater(cfg, states, ops, i + 1, j);
    NoNewAcceptanceComposes(states[i], states[i + 1], states[j], l);
  }

  /** … and every later attempt to renew such a lease is refused. */
  lemma RevokedLeaseRefusesRenewal(cfg: Config, states: seq<Db>, ops: seq<Op>, i: nat, mission: Id, j: nat, l: Id)
    requires Run(cfg, states, ops) && i < j < |ops|
    requires RevokesMission(ops[i], mission) && mission in states[i].missions
    requires l in states[i].leases && states[i].leases[l].mission == mission
    requires ops[j].OpRenew? && ops[j].lease == l
    ensures RunStep(cfg, states, ops, j) && Apply(cfg, states[j], ops[j]).reply.Refused?
  {
    RunInv(cfg, states, ops, i);
    assert RunStep(cfg, states, ops, i) && RunStep(cfg, states, ops, j);
    RevocationFences(cfg, states[i], ops[i], mission, l);
    FencedRunIsBarren(cfg, states, ops, i + 1, j, l);
    RunInv(cfg, states, ops, j);
    FencedStepIsBarren(cfg, states[j], ops[j], l);
  }
}
