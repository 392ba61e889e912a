/** Where a task goes when its lease ends early, and who may take it up again. */
module LeaseReturn {
  import opened Common
  import opened Ordering
  import opened LeaseRows
  import opened LeaseProtocol
  import opened LeaseInvariant
  import opened LeaseSteps
  import opened LeaseHistory
  import opened LeaseRuns
  import opened LeaseLaws
  import opened LeaseCancellation
  import opened LeaseRequeue

  // ---- where an expired task goes ----

  /** Cancelled with its mission, ready if nothing has changed since the claim, and superseded otherwise. */
  ghost function AfterExpiry(lease: Lease, task: Task, m: Mission): TaskStatus {
    if !Workable(m) then TaskStatus.Cancelled
    else if TaskCurrent(task, m) && LeaseCurrent(lease, m) then TaskStatus.Ready
    else TaskStatus.Superseded
  }

  lemma ExpireOneStatus(cfg: Config, db: Db, l: Id, now: Time)
    requires Inv(cfg, db) && l in db.leases && Live(db.leases[l])
    ensures var lease, db' := db.leases[l], ExpireOne(db, l, now);
            && lease.task in db.tasks && lease.mission in db.missions && lease.attempt in db.attempts
            && lease.task in db'.tasks && lease.attempt in db'.attempts
            && (db.tasks[lease.task].status.Leased? ==>
                  db'.tasks[lease.task] == db.tasks[lease.task].(
                    status := AfterExpiry(lease, db.tasks[lease.task], db.missions[lease.mission])))
            && (!db.tasks[lease.task].status.Leased? ==> db'.tasks[lease.task] == db.tasks[lease.task])
            && db'.attempts[lease.attempt]
               == db.attempts[lease.attempt].(status := AttemptStatus.Expired, terminalAt := Some(now))
  {
    assert Anchored(db, l) && Matched(db, l);
    var lease := db.leases[l];
    var task, m := db.tasks[lease.task], db.missions[lease.mission];
    SourceIsNamed(m, lease.source.value);
    if task.source.Some? {
      SourceIsNamed(m, task.source.value);
    }
  }

  lemma {:induction false} ExpireAllSparesAttempt(db: Db, batch: seq<Id>, now: Time, a: Id)
    requires forall l :: l in batch ==> l in db.leases && db.leases[l].attempt != a
    requires a in db.attempts
    ensures a in ExpireAll(db, batch, now).attempts && ExpireAll(db, batch, now).attempts[a] == db.attempts[a]
    decreases |batch|
  {
    if batch != [] {
      ExpireAllSparesAttempt(ExpireOne(db, batch[0], now), batch[1..], now, a);
    }
  }

  lemma {:induction false} ExpireAllSparesTask(db: Db, batch: seq<Id>, now: Time, t: Id)
    requires forall l :: l in batch ==> l in db.leases && db.leases[l].task != t
    requires t in db.tasks
    ensures t in ExpireAll(db, batch, now).tasks && ExpireAll(db, batch, now).tasks[t] == db.tasks[t]
    decreases |batch|
  {
    if batch != [] {
      ExpireAllSparesTask(ExpireOne(db, batch[0], now), batch[1..], now, t);
    }
  }

  ghost predicate IsBatch(db: Db, batch: seq<Id>) {
    && (forall i :: 0 <= i < |batch| ==> batch[i] in db.leases && Live(db.leases[batch[i]]))
    && (forall i, j :: 0 <= i < j < |batch| ==> batch[i] != batch[j])
  }

  /** The other leases of a batch concern other tasks and other attempts. */
  lemma RestIsElsewhere(cfg: Config, db: Db, batch: seq<Id>, l: Id, k: Id)
    requires Inv(cfg, db) && IsBatch(db, batch) && l in batch && k in batch && k != l
    ensures db.leases[k].task != db.leases[l].task && db.leases[k].attempt != db.leases[l].attempt
  {
    assert NotBothLive(db, k, l) && Unshared(db, k, l);
  }

  /** In flight, past its expiry, of the project asked for and not held by another transaction. */
  ghost predicate IsDue(db: Db, op: Op, l: Id)
    requires op.OpExpire? && l in db.leases
  {
    && InFlight(db.leases[l]) && db.leases[l].expiresAt <= op.now && l !in op.hidden
    && (op.project == None || op.project == Some(db.leases[l].project))
  }

  /** A scan ends only leases that are due, all of them if they are fewer than its limit and otherwise the earliest. */
  lemma ScanEndsIff(cfg: Config, db: Db, op: Op, l: Id)
    requires op.OpExpire? && Feasible(db, op) && l in db.leases
    ensures var db' := Apply(cfg, db, op).db;
            && l in db'.leases
            && (db'.leases[l] != db.leases[l] <==> l in op.batch)
            && (l in op.batch ==> IsDue(db, op, l) && db'.leases[l] == db.leases[l].(state := LeaseState.Expired))
            && (|op.batch| < op.limit ==> (l in op.batch <==> IsDue(db, op, l)))
            && (IsDue(db, op, l) && l !in op.batch ==>
                  forall k :: k in op.batch ==> k in db.leases && db.leases[k].expiresAt <= db.leases[l].expiresAt)
  {
  }

  /** The whole scan, for each lease of its batch: the lease and its attempt expire, and a task leased under it ends
      cancelled, ready or superseded exactly as mission, task and lease then agree. */
  lemma {:induction false} ExpiryStatusIff(cfg: Config, db: Db, batch: seq<Id>, now: Time, l: Id)
    requires Inv(cfg, db) && IsBatch(db, batch) && l in batch
    ensures var lease, db' := db.leases[l], ExpireAll(db, batch, now);
            && lease.task in db.tasks && lease.mission in db.missions && lease.attempt in db.attempts
            && db'.leases[l] == lease.(state := LeaseState.Expired)
            && lease.task in db'.tasks && lease.attempt in db'.attempts
            && (db.tasks[lease.task].status.Leased? ==>
                  db'.tasks[lease.task] == db.tasks[lease.task].(
                    status := AfterExpiry(lease, db.tasks[lease.task], db.missions[lease.mission])))
            && (!db.tasks[lease.task].status.Leased? ==> db'.tasks[lease.task] == db.tasks[lease.task])
            && db'.attempts[lease.attempt]
               == db.attempts[lease.attempt].(status := AttemptStatus.Expired, terminalAt := Some(now))
    decreases |batch|
  {
    var first, rest := batch[0], batch[1..];
    var next := ExpireOne(db, first, now);
    ExpireOneKeepsInv(cfg, db, first, now);
    if first == l {
      ExpireOneStatus(cfg, db, l, now);
      forall k | k in rest ensures k in next.leases && next.leases[k].task != db.leases[l].task
                                   && next.leases[k].attempt != db.leases[l].attempt
      {
        RestIsElsewhere(cfg, db, batch, l, k);
      }
      ExpireAllSparesTask(next, rest, now, db.leases[l].task);
      ExpireAllSparesAttempt(next, rest, now, db.leases[l].attempt);
    } else {
      RestIsElsewhere(cfg, db, batch, l, first);
      assert Anchored(db, l) && Matched(db, l);
      ExpiryStatusIff(cfg, next, rest, now, l);
    }
  }

  // ---- undisturbed work ----

  /** The step leaves the mission's row alone: no commit, revocation, cancellation, status or source of it. */
  ghost predicate Undisturbed(op: Op, mission: Id) {
    match op
    case OpCommit(p, _) => p.mission != mission
    case OpRevoke(m, _, _, _) => m != mission
    case OpCancelMission(m, _) => m != mission
    case OpMissionStatus(m, _) => m != mission
    case OpMissionSource(m, _) => m != mission
    case _ => true
  }

  /** The steps that write mission rows. */
  ghost predicate WritesMissions(op: Op) {
    || op.OpCommit? || op.OpRevoke? || op.OpCancelMission? || op.OpInsertMission? || op.OpMissionStatus?
    || op.OpMissionSource?
  }

  lemma OtherStepsKeepMissions(cfg: Config, db: Db, op: Op)
    requires Feasible(db, op) && !WritesMissions(op)
    ensures Apply(cfg, db, op).db.missions == db.missions
  {
    if op.OpWorker? {
      WorkerStepTouchesOneRow(db, op.worker, op.op);
    }
  }

  lemma RevocationSparesMission(db: Db, m: Id, reason: string, notify: bool, now: Time, mission: Id)
    requires mission in db.missions && m != mission
    ensures var db' := Revoke(db, m, reason, notify, now).db;
            mission in db'.missions && db'.missions[mission] == db.missions[mission]
    ensures var db' := CancelMission(db, m, now).db;
            mission in db'.missions && db'.missions[mission] == db.missions[mission]
  {
  }

  lemma CommitSparesMission(db: Db, p: Proposal, now: Time, mission: Id)
    requires mission in db.missions && p.mission != mission
    ensures var db' := CommitGraph(db, p, now).db;
            mission in db'.missions && db'.missions[mission] == db.missions[mission]
  {
  }

  lemma UndisturbedMissionStays(cfg: Config, db: Db, op: Op, mission: Id)
    requires Feasible(db, op) && mission in db.missions && Undisturbed(op, mission)
    ensures mission in Apply(cfg, db, op).db.missions && Apply(cfg, db, op).db.missions[mission] == db.missions[mission]
  {
    match op
    case OpRevoke(m, reason, notify, now) => RevocationSparesMission(db, m, reason, notify, now, mission);
    case OpCancelMission(m, now) => RevocationSparesMission(db, m, "cancelled", true, now, mission);
    case OpCommit(p, now) => CommitSparesMission(db, p, now, mission);
    case OpInsertMission(_, _) =>
    case OpMissionStatus(_, _) =>
    case OpMissionSource(_, _) =>
    case _ => OtherStepsKeepMissions(cfg, db, op);
  }

  lemma {:induction false} UndisturbedRun(cfg: Config, states: seq<Db>, ops: seq<Op>, i: nat, j: nat, mission: Id)
    requires Run(cfg, states, ops) && i <= j <= |ops| && mission in states[i].missions
    requires forall k :: i <= k < j ==> Undisturbed(ops[k], mission)
    ensures mission in states[j].missions && states[j].missions[mission] == states[i].missions[mission]
    decreases j
  {
    if i < j {
      UndisturbedRun(cfg, states, ops, i, j - 1, mission);
      assert RunStep(cfg, states, ops, j - 1);
      UndisturbedMissionStays(cfg, states[j - 1], ops[j - 1], mission);
    }
  }

  /** After an undisturbed stretch, a claimed lease that is still in flight is as current as at its claim. */
  lemma UndisturbedLeaseIsCurrent(cfg: Config, states: seq<Db>, ops: seq<Op>, i: nat, j: nat)
    requires Run(cfg, states, ops) && i < j <= |ops|
    requires RunStep(cfg, states, ops, i) && ops[i].OpClaim? && Apply(cfg, states[i], ops[i]).reply.Done?
    requires ops[i].newLease in states[j].leases && Live(states[j].leases[ops[i].newLease])
    requires forall k :: i < k < j ==> Undisturbed(ops[k], states[j].leases[ops[i].newLease].mission)
    ensures var lease := states[j].leases[ops[i].newLease];
            && lease.task in states[j].tasks && lease.mission in states[j].missions
            && var task, m := states[j].tasks[lease.task], states[j].missions[lease.mission];
            task.status.Leased? && Workable(m) && TaskCurrent(task, m) && LeaseCurrent(lease, m)
  {
    var l := ops[i].newLease;
    ClaimedRowsAreCurrent(cfg, states[i], ops[i]);
    RunLater(cfg, states, ops, i + 1, j);
    assert RowsLater(states[i + 1], states[j], l) && RowsLater(states[i + 1], states[j], states[i + 1].leases[l].task);
    UndisturbedRun(cfg, states, ops, i + 1, j, states[i + 1].leases[l].mission);
    RunInv(cfg, states, ops, j);
    assert Anchored(states[j], l) && HoldsTask(states[j], l) && TaskOk(states[j], states[j].leases[l].task);
  }

  lemma ClaimedRowsAreCurrent(cfg: Config, db: Db, op: Op)
    requires op.OpClaim? && Apply(cfg, db, op).reply.Done?
    ensures var db' := Apply(cfg, db, op).db;
            && op.newLease in db'.leases
            && var lease := db'.leases[op.newLease];
            && lease.task in db'.tasks && lease.mission in db'.missions
            && db'.tasks[lease.task].mission == lease.mission
            && Workable(db'.missions[lease.mission]) && TaskCurrent(db'.tasks[lease.task], db'.missions[lease.mission])
            && LeaseCurrent(lease, db'.missions[lease.mission])
  {
    ClaimWrites(cfg, db, op.worker, op.token, op.now, op.asked, op.hidden, op.newAttempt, op.newLease);
    ClaimStampsLease(cfg, db, op);
    MayClaimIff(db, db.workers[op.worker], Apply(cfg, db, op).db.leases[op.newLease].task);
  }

  /** A worker that dies costs nothing but time: when its lease expires after an undisturbed stretch, the task is ready,
      and every worker of the project at least as capable may claim it at once. */
  lemma UndisturbedTaskIsReclaimable(cfg: Config, states: seq<Db>, ops: seq<Op>, i: nat, j: nat, w: Worker)
    requires Run(cfg, states, ops) && i < j < |ops|
    requires RunStep(cfg, states, ops, i) && ops[i].OpClaim? && Apply(cfg, states[i], ops[i]).reply.Done?
    requires ops[i].newLease in states[j].leases && ops[j].OpExpire? && ops[i].newLease in ops[j].batch
    requires forall k :: i < k < j ==> Undisturbed(ops[k], states[j].leases[ops[i].newLease].mission)
    requires ops[i].worker in states[i].workers && AtLeastAsCapable(w, states[i].workers[ops[i].worker])
    ensures var t := states[j].leases[ops[i].newLease].task;
            && t in states[j + 1].tasks && states[j + 1].tasks[t].status == TaskStatus.Ready
            && MayClaim(states[j + 1], w, t)
  {
    var l := ops[i].newLease;
    var t := states[j].leases[l].task;
    assert RunStep(cfg, states, ops, j);
    RunInv(cfg, states, ops, j);
    UndisturbedLeaseIsCurrent(cfg, states, ops, i, j);
    ExpiryStatusIff(cfg, states[j], ops[j].batch, ops[j].now, l);
    ExpiredTaskIsReclaimable(cfg, states, ops, i, j, w);
    MayClaimIff(states[j + 1], w, t);
  }

  // ---- revoked, not cancelled ----

  lemma {:induction false} CancelAllKeepsMet(cfg: Config, db: Db, ls: seq<Id>, reason: string, now: Time, t: Id)
    requires Inv(cfg, db) && IsBatch(db, ls) && t in db.tasks && DependenciesSatisfied(db, db.tasks[t])
    ensures var db' := CancelAll(db, ls, reason, now); t in db'.tasks && DependenciesSatisfied(db', db'.tasks[t])
    decreases |ls|
  {
    if ls != [] {
      var next := CancelOne(db, ls[0], reason, now);
      assert TaskOk(db, t);
      CancelOneCloses(db, ls[0], reason, now);
      CloseKeepsDependencies(db, next, ls[0]);
      KeepsDependencyMet(db, next, t);
      CancelOneKeepsInv(cfg, db, ls[0], reason, now);
      CancelAllKeepsMet(cfg, next, ls[1..], reason, now, t);
    }
  }

  lemma LiveLeasesAreBatch(db: Db, mission: Id)
    ensures IsBatch(db, LiveLeasesOf(db, mission))
  {
    var ls := LiveLeasesOf(db, mission);
    TextOrderIsLinear();
    AscendingIsDistinct(ls, TextLess);
    assert forall i :: 0 <= i < |ls| ==> ls[i] in ls;
  }

  /** What a notifying revocation does to a task under a current lease: ready again, dependencies done, nothing live. */
  lemma RevokedTaskRow(cfg: Config, db: Db, l: Id, reason: string, now: Time)
    requires Inv(cfg, db) && l in db.leases && Live(db.leases[l]) && reason != "cancelled"
    requires db.leases[l].mission in db.missions && LeaseCurrent(db.leases[l], db.missions[db.leases[l].mission])
    ensures var lease, db' := db.leases[l], Revoke(db, db.leases[l].mission, reason, true, now).db;
            && lease.task in db.tasks && lease.task in db'.tasks
            && db'.tasks[lease.task] == db.tasks[lease.task].(status := TaskStatus.Ready)
            && DependenciesSatisfied(db', db'.tasks[lease.task]) && !HasLiveLease(db', lease.task)
            && db'.missions == db.missions[lease.mission := db.missions[lease.mission].(
                 cancelGen := db.missions[lease.mission].cancelGen + 1)]
  {
    var lease := db.leases[l];
    var bumped := BumpGeneration(db, lease.mission);
    var ls := LiveLeasesOf(bumped, lease.mission);
    assert Anchored(db, l) && HoldsTask(db, l);
    BumpGenerationKeepsInv(cfg, db, lease.mission);
    assert HoldsDependencies(bumped, l);
    LiveLeasesAreBatch(bumped, lease.mission);
    CancelAllMovesTask(cfg, bumped, ls, reason, now, l, lease.task);
    CancelAllKeepsMet(cfg, bumped, ls, reason, now, lease.task);
    var db' := CancelAll(bumped, ls, reason, now);
    forall k | k in db'.leases && db'.leases[k].task == lease.task ensures !Live(db'.leases[k]) {
      assert Anchored(bumped, k);
    }
  }

  /** A revocation that notifies the workers gives their tasks back, and a task can be claimed again at once exactly
      when its row carries no cancellation generation of its own: such a stamp would be the old one. */
  lemma RevokedTaskIsReclaimableIff(cfg: Config, db: Db, l: Id, reason: string, now: Time, w: Worker)
    requires Inv(cfg, db) && l in db.leases && Live(db.leases[l]) && reason != "cancelled"
    requires db.leases[l].mission in db.missions && LeaseCurrent(db.leases[l], db.missions[db.leases[l].mission])
    requires db.leases[l].task in db.tasks
    requires var task, m := db.tasks[db.leases[l].task], db.missions[db.leases[l].mission];
             && Workable(m) && TaskCurrent(task, m) && w.project == Some(task.project)
             && task.required <= w.capabilities && ("local_only" in task.scopes ==> "local" in w.privacy)
    ensures MayClaim(Revoke(db, db.leases[l].mission, reason, true, now).db, w, db.leases[l].task)
            <==> db.tasks[db.leases[l].task].cancelGen == None
  {
    var lease, db' := db.leases[l], Revoke(db, db.leases[l].mission, reason, true, now).db;
    assert Anchored(db, l);
    RevokedTaskRow(cfg, db, l, reason, now);
    MayClaimIff(db', w, lease.task);
    var task, m := db.tasks[lease.task], db.missions[lease.mission];
    if task.source.Some? {
      SourceIsNamed(m, task.source.value);
    }
  }
}
