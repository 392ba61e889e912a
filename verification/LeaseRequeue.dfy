/** What a claim takes, and when a task that lost its lease can be claimed again. */
module LeaseRequeue {
  import opened Common
  import opened Ordering
  import opened LeaseRows
  import opened LeaseProtocol
  import opened LeaseInvariant
  import opened LeaseSteps
  import opened LeaseHistory
  import opened LeaseRuns

  // ---- requeueing ----

  /** Claimable by every worker of the project that is capable enough. */
  ghost predicate Requeued(db: Db, t: Id) {
    && t in db.tasks
    && db.tasks[t].status.Ready?
    && !HasLiveLease(db, t)
    && DependenciesSatisfied(db, db.tasks[t])
    && ClaimableMission(db, db.tasks[t])
  }

  lemma ExpireOneRequeues(cfg: Config, db: Db, l: Id, now: Time)
    requires Inv(cfg, db) && l in db.leases && Live(db.leases[l])
    requires db.leases[l].task in db.tasks && db.tasks[db.leases[l].task].status.Leased?
    requires ExpireOne(db, l, now).tasks[db.leases[l].task].status.Ready?
    ensures Requeued(ExpireOne(db, l, now), db.leases[l].task)
    ensures db.tasks[db.leases[l].task].graphRevision == db.leases[l].taskRevision
  {
    var db' := ExpireOne(db, l, now);
    var t := db.leases[l].task;
    assert Anchored(db, l) && HoldsDependencies(db, l) && TaskOk(db, t);
    ExpireOneCloses(db, l, now);
    CloseKeepsDependencies(db, db', l);
    KeepsDependencyMet(db, db', t);
    forall k | k in db'.leases && db'.leases[k].task == t ensures !Live(db'.leases[k]) {
      assert NotBothLive(db, k, l);
    }
  }

  lemma ExpireOneKeepsRequeued(cfg: Config, db: Db, k: Id, now: Time, t: Id)
    requires Inv(cfg, db) && Requeued(db, t) && k in db.leases && Live(db.leases[k])
    ensures Requeued(ExpireOne(db, k, now), t) && ExpireOne(db, k, now).tasks[t] == db.tasks[t]
  {
    var db' := ExpireOne(db, k, now);
    assert db.leases[k].task != t;
    assert TaskOk(db, t);
    ExpireOneCloses(db, k, now);
    CloseKeepsDependencies(db, db', k);
    KeepsDependencyMet(db, db', t);
    forall j | j in db'.leases && db'.leases[j].task == t ensures !Live(db'.leases[j]) {
      assert j in db.leases && db.leases[j].task == t;
    }
  }

  lemma {:induction false} ExpireAllKeepsRequeued(cfg: Config, db: Db, batch: seq<Id>, now: Time, t: Id)
    requires Inv(cfg, db) && Requeued(db, t)
    requires forall i :: 0 <= i < |batch| ==> batch[i] in db.leases && Live(db.leases[batch[i]])
    requires forall i, j :: 0 <= i < j < |batch| ==> batch[i] != batch[j]
    ensures Requeued(ExpireAll(db, batch, now), t) && ExpireAll(db, batch, now).tasks[t] == db.tasks[t]
    decreases |batch|
  {
    if batch != [] {
      ExpireOneKeepsRequeued(cfg, db, batch[0], now, t);
      ExpireOneKeepsInv(cfg, db, batch[0], now);
      ExpireAllKeepsRequeued(cfg, ExpireOne(db, batch[0], now), batch[1..], now, t);
    }
  }

  /** A leased task that an expiry scan puts back to ready was leased under exactly one lease of the
      batch, stamped with the task's current revision, and is claimable at once. */
  lemma {:induction false} ExpiryRequeues(cfg: Config, db: Db, batch: seq<Id>, now: Time, t: Id) returns (l: Id)
    requires Inv(cfg, db) && t in db.tasks && db.tasks[t].status.Leased?
    requires forall i :: 0 <= i < |batch| ==> batch[i] in db.leases && Live(db.leases[batch[i]])
    requires forall i, j :: 0 <= i < j < |batch| ==> batch[i] != batch[j]
    requires t in ExpireAll(db, batch, now).tasks && ExpireAll(db, batch, now).tasks[t].status.Ready?
    ensures l in batch && l in db.leases && db.leases[l].task == t
    ensures db.leases[l].taskRevision == db.tasks[t].graphRevision
    ensures Requeued(ExpireAll(db, batch, now), t)
    ensures ExpireAll(db, batch, now).tasks[t] == db.tasks[t].(status := TaskStatus.Ready)
    decreases |batch|
  {
    var next := ExpireOne(db, batch[0], now);
    ExpireOneKeepsInv(cfg, db, batch[0], now);
    if next.tasks[t].status.Leased? {
      l := ExpiryRequeues(cfg, next, batch[1..], now, t);
    } else {
      l := batch[0];
      ExpireAllSparesUnleased(next, batch[1..], now, t);
      ExpireOneRequeues(cfg, db, l, now);
      ExpireAllKeepsRequeued(cfg, next, batch[1..], now, t);
    }
  }

  lemma {:induction false} ExpireAllSparesUnleased(db: Db, batch: seq<Id>, now: Time, t: Id)
    requires forall l :: l in batch ==> l in db.leases
    requires t in db.tasks && !db.tasks[t].status.Leased?
    ensures var db' := ExpireAll(db, batch, now); t in db'.tasks && db'.tasks[t] == db.tasks[t]
    decreases |batch|
  {
    if batch != [] {
      ExpireAllSparesUnleased(ExpireOne(db, batch[0], now), batch[1..], now, t);
    }
  }

  ghost predicate InReach(db: Db, w: Worker, hidden: set<Id>, t: Id) {
    t !in hidden && Claimable(db, w, t)
  }

  /** A claim by a member in good standing is idle, and changes nothing, exactly when no visible task is
      claimable; otherwise it leases the least claimable one in (priority, age, id) order. */
  lemma ClaimTakesLeastEligible(cfg: Config, db: Db, worker: Id, token: string, now: Time, asked: Option<int>,
                                hidden: set<Id>, a: Id, l: Id)
    requires ClaimantFault(db, worker, token).None? && db.workers[worker].project.Some?
    requires db.workers[worker].project != Some("")
    requires a !in db.attempts && l !in db.leases
    ensures var step, w := Claim(cfg, db, worker, token, now, asked, hidden, a, l), db.workers[worker];
            && (step.reply.Idle? <==> forall t :: !InReach(db, w, hidden, t))
            && (step.reply.Idle? ==> step.db == db)
            && (!step.reply.Idle? ==>
                  && step.reply == Done(l) && l in step.db.leases
                  && var c := step.db.leases[l].task;
                  && InReach(db, w, hidden, c)
                  && step.db == BindClaim(cfg, db, worker, c, now, LeaseSeconds(cfg, asked), a, l)
                  && forall t :: InReach(db, w, hidden, t) && t != c ==>
                       KeyLess(KeyOf(c, db.tasks[c]), KeyOf(t, db.tasks[t])))
  {
    KeyOrderIsLinear();
    var w := db.workers[worker];
    var keys := ClaimKeys(db, w, hidden);
    forall t | InReach(db, w, hidden, t) ensures KeyOf(t, db.tasks[t]) in keys {
    }
    if keys != {} {
      var k := Least(keys, KeyLess);
      assert InReach(db, w, hidden, k.id);
    }
  }

  ghost predicate AtLeastAsCapable(w: Worker, v: Worker) {
    w.project == v.project && v.capabilities <= w.capabilities && v.privacy <= w.privacy
  }

  /** What a claim by `worker` leaves behind: the lease is stamped with the task's revision, and the
      worker was eligible for the task. */
  lemma ClaimStampsLease(cfg: Config, db: Db, op: Op)
    requires op.OpClaim? && Apply(cfg, db, op).reply.Done?
    ensures var db' := Apply(cfg, db, op).db;
            && op.worker in db.workers && op.newLease in db'.leases
            && var lease := db'.leases[op.newLease];
            && lease.task in db.tasks && lease.task in db'.tasks
            && Claimable(db, db.workers[op.worker], lease.task)
            && lease.taskRevision == db.tasks[lease.task].graphRevision
            && db'.tasks[lease.task] == db.tasks[lease.task].(status := TaskStatus.Leased)
  {
    KeyOrderIsLinear();
  }

  /** A requeued task is open to every worker of its project that meets its requirements. */
  lemma RequeuedIsClaimable(db: Db, w: Worker, t: Id)
    requires Requeued(db, t) && w.project == Some(db.tasks[t].project) && WorkerEligible(w, db.tasks[t])
    ensures Claimable(db, w, t)
  {
  }

  /** What the claimed task was stays on its row for as long as its revision does. */
  lemma ClaimedTaskKeepsTerms(cfg: Config, states: seq<Db>, ops: seq<Op>, i: nat, j: nat, w: Worker)
    requires Run(cfg, states, ops) && i < j <= |ops|
    requires RunStep(cfg, states, ops, i) && ops[i].OpClaim? && Apply(cfg, states[i], ops[i]).reply.Done?
    requires ops[i].worker in states[i].workers && AtLeastAsCapable(w, states[i].workers[ops[i].worker])
    ensures ops[i].newLease in states[j].leases
    ensures var lease := states[j].leases[ops[i].newLease];
            && lease.task in states[j].tasks
            && (states[j].tasks[lease.task].graphRevision == lease.taskRevision ==>
                  && w.project == Some(states[j].tasks[lease.task].project)
                  && WorkerEligible(w, states[j].tasks[lease.task]))
  {
    var l := ops[i].newLease;
    ClaimStampsLease(cfg, states[i], ops[i]);
    RunLater(cfg, states, ops, i + 1, j);
    assert RowsLater(states[i + 1], states[j], l);
    assert RowsLater(states[i + 1], states[j], states[i + 1].leases[l].task);
  }

  /** If a claimed lease expires at step `j` and its task returns to ready, every worker of the same
      project that is at least as capable as the one that claimed it may claim the task at once. */
  lemma ExpiredTaskIsReclaimable(cfg: Config, states: seq<Db>, ops: seq<Op>, i: nat, j: nat, w: Worker)
    requires Run(cfg, states, ops) && i < j < |ops|
    requires RunStep(cfg, states, ops, i) && ops[i].OpClaim? && Apply(cfg, states[i], ops[i]).reply.Done?
    requires ops[i].worker in states[i].workers && AtLeastAsCapable(w, states[i].workers[ops[i].worker])
    requires ops[i].newLease in states[j].leases && Live(states[j].leases[ops[i].newLease])
    requires ops[j].OpExpire? && ops[i].newLease in ops[j].batch
    requires var t := states[j].leases[ops[i].newLease].task;
             && t in states[j].tasks && states[j].tasks[t].status.Leased?
             && t in states[j + 1].tasks && states[j + 1].tasks[t].status.Ready?
    ensures Claimable(states[j + 1], w, states[j].leases[ops[i].newLease].task)
  {
    var l := ops[i].newLease;
    var t := states[j].leases[l].task;
    RunInv(cfg, states, ops, j);
    assert RunStep(cfg, states, ops, j);
    ClaimedTaskKeepsTerms(cfg, states, ops, i, j, w);
    var k := ExpiryRequeues(cfg, states[j], ops[j].batch, ops[j].now, t);
    assert NotBothLive(states[j], k, l);
    RequeuedIsClaimable(states[j + 1], w, t);
  }
}
