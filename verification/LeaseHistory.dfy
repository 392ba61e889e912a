/** What one database state says about every later one: identities and stamps are fixed,
    revisions, generations and expiries only grow, and ended things stay ended. */
module LeaseHistory {
  import opened Common
  import opened Ordering
  import opened LeaseRows
  import opened LeaseProtocol
  import opened LeaseInvariant
  import opened LeaseSteps

  ghost predicate MissionLater(m: Mission, m': Mission) {
    && m'.project == m.project
    && m.revision <= m'.revision
    && m.cancelGen <= m'.cancelGen
    && (m.status.Cancelled? ==> m'.status.Cancelled?)
  }

  /** At an unchanged graph revision only the status of a task may have changed. */
  ghost predicate TaskLater(t: Task, t': Task) {
    && t'.mission == t.mission && t'.project == t.project && t'.createdAt == t.createdAt
    && t.graphRevision <= t'.graphRevision
    && (t.graphRevision == t'.graphRevision ==> t' == t.(status := t'.status))
  }

  ghost predicate LeaseLater(l: Lease, l': Lease) {
    && SameStamps(l, l')
    && l.expiresAt <= l'.expiresAt
    && (!Live(l) ==> l' == l)
    && (l'.state.Active? ==> l.state.Active?)
  }

  /** A result keeps its content, and a disposition, once given, is final. */
  ghost predicate ResultLater(r: WorkerResult, r': WorkerResult) {
    && r' == r.(state := r'.state, rejection := r'.rejection, acceptedAt := r'.acceptedAt)
    && (!r.state.Submitted? ==> r' == r)
  }

  ghost predicate RowsLater(db: Db, db': Db, x: Id) {
    && (x in db.missions ==> x in db'.missions && MissionLater(db.missions[x], db'.missions[x]))
    && (x in db.tasks ==> x in db'.tasks && TaskLater(db.tasks[x], db'.tasks[x]))
    && (x in db.leases ==> x in db'.leases && LeaseLater(db.leases[x], db'.leases[x]))
    && (x in db.results ==> x in db'.results && ResultLater(db.results[x], db'.results[x]))
    && (x in db.workers ==> x in db'.workers && (db.workers[x].revokedAt.Some? ==> db'.workers[x].revokedAt.Some?))
  }

  ghost predicate Later(db: Db, db': Db) {
    db.outbox <= db'.outbox && forall x :: RowsLater(db, db', x)
  }

  lemma LaterReflexive(db: Db)
    ensures Later(db, db)
  {
  }

  lemma LaterTransitive(a: Db, b: Db, c: Db)
    requires Later(a, b) && Later(b, c)
    ensures Later(a, c)
  {
    forall x ensures RowsLater(a, c, x) {
      assert RowsLater(a, b, x) && RowsLater(b, c, x);
    }
  }

  // ---- single steps ----

  lemma ClaimIsLater(cfg: Config, db: Db, worker: Id, t: Id, now: Time, seconds: int, a: Id, l: Id)
    requires worker in db.workers && Claimable(db, db.workers[worker], t) && l !in db.leases
    ensures Later(db, BindClaim(cfg, db, worker, t, now, seconds, a, l))
  {
    var db' := BindClaim(cfg, db, worker, t, now, seconds, a, l);
    forall x ensures RowsLater(db, db', x) {
    }
  }

  lemma ClaimStepIsLater(cfg: Config, db: Db, worker: Id, token: string, now: Time, asked: Option<int>,
                         hidden: set<Id>, a: Id, l: Id)
    ensures Later(db, Claim(cfg, db, worker, token, now, asked, hidden, a, l).db)
  {
    if Claim(cfg, db, worker, token, now, asked, hidden, a, l).reply.Done? {
      KeyOrderIsLinear();
      var t := Least(ClaimKeys(db, db.workers[worker], hidden), KeyLess).id;
      ClaimIsLater(cfg, db, worker, t, now, LeaseSeconds(cfg, asked), a, l);
    }
  }

  lemma RenewIsLater(cfg: Config, db: Db, l: Id, worker: Id, generation: int, token: string,
                     asked: Option<int>, now: Time)
    requires LeasesWindowed(cfg, db)
    ensures Later(db, Renew(cfg, db, l, worker, generation, token, asked, now).db)
  {
    assert Windowed(cfg, db, l);
  }

  lemma ExpireOneIsLater(db: Db, l: Id, now: Time)
    requires l in db.leases && Live(db.leases[l])
    ensures Later(db, ExpireOne(db, l, now))
  {
  }

  lemma CancelOneIsLater(db: Db, l: Id, reason: string, now: Time)
    requires l in db.leases && Live(db.leases[l])
    ensures Later(db, CancelOne(db, l, reason, now))
  {
  }

  lemma SubmitIsLater(db: Db, l: Id, worker: Id, token: string, generation: int, checks: Checks,
                      refs: set<string>, now: Time, r: Id)
    ensures Later(db, Submit(db, l, worker, token, generation, checks, refs, now, r).db)
  {
  }

  lemma MarkAcceptedIsLater(db: Db, r: Id, now: Time)
    requires r in db.results && db.results[r].state.Submitted? && FencePasses(db, r, now)
    ensures Later(db, MarkAccepted(db, r, now))
  {
  }

  lemma RejectIsLater(db: Db, r: Id, fault: Fault, keep: bool)
    requires r in db.results && db.results[r].state.Submitted?
    ensures Later(db, RejectMark(db, r, fault, keep))
  {
  }

  lemma AcceptIsLater(db: Db, r: Id, now: Time, keep: bool)
    ensures Later(db, Accept(db, r, now, keep).db)
  {
    if r in db.results && db.results[r].state.Submitted? {
      var step := Accept(db, r, now, keep);
      if step.reply.Done? {
        MarkAcceptedIsLater(db, r, now);
      } else {
        RejectIsLater(db, r, step.reply.fault, keep);
      }
    }
  }

  lemma MissionWriteIsLater(db: Db, mission: Id, m: Mission)
    requires mission in db.missions ==> MissionLater(db.missions[mission], m)
    ensures Later(db, WithMission(db, mission, m))
  {
  }

  lemma CommitIsLater(db: Db, db': Db, mission: Id)
    requires TasksOk(db) && Commits(db, db', mission)
    ensures Later(db, db')
  {
    forall x ensures RowsLater(db, db', x) {
      assert TaskOk(db, x) && TaskCommitted(db, db', mission, x);
    }
  }

  lemma WorkerStepIsLater(db: Db, worker: Id, op: WorkerOp)
    ensures Later(db, ApplyWorker(db, worker, op).db)
  {
    var db' := ApplyWorker(db, worker, op).db;
    WorkerStepTouchesOneRow(db, worker, op);
    forall x ensures RowsLater(db, db', x) {
    }
  }

  // ---- batches ----

  lemma {:induction false} ExpireAllIsLater(db: Db, batch: seq<Id>, now: Time)
    requires forall i :: 0 <= i < |batch| ==> batch[i] in db.leases && Live(db.leases[batch[i]])
    requires forall i, j :: 0 <= i < j < |batch| ==> batch[i] != batch[j]
    ensures Later(db, ExpireAll(db, batch, now))
    decreases |batch|
  {
    if batch != [] {
      var next := ExpireOne(db, batch[0], now);
      ExpireOneIsLater(db, batch[0], now);
      ExpireAllIsLater(next, batch[1..], now);
      LaterTransitive(db, next, ExpireAll(db, batch, now));
    }
  }

  lemma {:induction false} CancelAllIsLater(db: Db, ls: seq<Id>, reason: string, now: Time)
    requires forall i :: 0 <= i < |ls| ==> ls[i] in db.leases && Live(db.leases[ls[i]])
    requires forall i, j :: 0 <= i < j < |ls| ==> ls[i] != ls[j]
    ensures Later(db, CancelAll(db, ls, reason, now))
    decreases |ls|
  {
    if ls != [] {
      var next := CancelOne(db, ls[0], reason, now);
      CancelOneIsLater(db, ls[0], reason, now);
      CancelAllIsLater(next, ls[1..], reason, now);
      LaterTransitive(db, next, CancelAll(db, ls, reason, now));
    }
  }

  lemma RevokeIsLater(db: Db, mission: Id, reason: string, notify: bool, now: Time)
    ensures Later(db, Revoke(db, mission, reason, notify, now).db)
  {
    if mission in db.missions {
      var bumped := BumpGeneration(db, mission);
      assert Later(db, bumped);
      if notify {
        TextOrderIsLinear();
        AscendingIsDistinct(LiveLeasesOf(bumped, mission), TextLess);
        CancelAllIsLater(bumped, LiveLeasesOf(bumped, mission), reason, now);
        LaterTransitive(db, bumped, Revoke(db, mission, reason, notify, now).db);
      }
    }
  }

  lemma CancelMissionIsLater(db: Db, mission: Id, now: Time)
    ensures Later(db, CancelMission(db, mission, now).db)
  {
    var revoked := Revoke(db, mission, "cancelled", true, now);
    RevokeIsLater(db, mission, "cancelled", true, now);
    if revoked.reply.Done? {
      MissionWriteIsLater(revoked.db, mission, revoked.db.missions[mission].(status := MissionStatus.Cancelled));
      LaterTransitive(db, revoked.db, CancelMission(db, mission, now).db);
    }
  }

  lemma LeaseStepIsLater(cfg: Config, db: Db, op: Op)
    requires LeasesWindowed(cfg, db) && Admissible(db, op)
    requires op.OpClaim? || op.OpRenew? || op.OpExpire? || op.OpSubmit? || op.OpAccept? || op.OpCancelLease?
    ensures Later(db, Apply(cfg, db, op).db)
  {
    match op
    case OpClaim(worker, token, now, asked, hidden, a, l) =>
      ClaimStepIsLater(cfg, db, worker, token, now, asked, hidden, a, l);
    case OpRenew(lease, worker, generation, token, asked, now) =>
      RenewIsLater(cfg, db, lease, worker, generation, token, asked, now);
    case OpExpire(batch, now, _, _, _) => ExpireAllIsLater(db, batch, now);
    case OpSubmit(lease, worker, token, generation, checks, refs, now, result) =>
      SubmitIsLater(db, lease, worker, token, generation, checks, refs, now, result);
    case OpAccept(result, now, keep) => AcceptIsLater(db, result, now, keep);
    case OpCancelLease(lease, reason, now) =>
      if lease in db.leases && Live(db.leases[lease]) {
        CancelOneIsLater(db, lease, reason, now);
      }
  }

  lemma CommitStepIsLater(db: Db, p: Proposal, now: Time)
    requires TasksOk(db) && HomeProposal(db, p)
    ensures Later(db, CommitGraph(db, p, now).db)
  {
    if CommitGraph(db, p, now).reply.Done? {
      CommitGraphCommits(db, p, now);
      CommitIsLater(db, CommitGraph(db, p, now).db, p.mission);
    }
  }

  /** Every admissible step leads to a later state. */
  lemma StepIsLater(cfg: Config, db: Db, op: Op)
    requires AnchorInv(cfg, db) && Admissible(db, op)
    ensures Later(db, Apply(cfg, db, op).db)
  {
    match op
    case OpRevoke(mission, reason, notify, now) => RevokeIsLater(db, mission, reason, notify, now);
    case OpCancelMission(mission, now) => CancelMissionIsLater(db, mission, now);
    case OpCommit(proposal, now) => CommitStepIsLater(db, proposal, now);
    case OpWorker(worker, wop) => WorkerStepIsLater(db, worker, wop);
    case OpInsertMission(mission, row) =>
      if mission !in db.missions {
        MissionWriteIsLater(db, mission, row);
      }
    case OpMissionStatus(mission, status) =>
      if mission in db.missions {
        MissionWriteIsLater(db, mission, db.missions[mission].(status := status));
      }
    case OpMissionSource(mission, source) =>
      if mission in db.missions {
        MissionWriteIsLater(db, mission, db.missions[mission].(source := source));
      }
    case _ => LeaseStepIsLater(cfg, db, op);
  }
}
