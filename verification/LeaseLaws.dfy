/** What each call of the lease service asks of the rows it finds and what it leaves in them, field by field. */
module LeaseLaws {
  import opened Common
  import opened Ordering
  import opened LeaseRows
  import opened LeaseProtocol
  import opened LeaseInvariant
  import opened LeaseSteps

  // ---- rows, in their own fields ----

  ghost predicate InFlight(lease: Lease) {
    lease.state == LeaseState.Active || lease.state == LeaseState.Renewed
  }

  /** The mission's status lets its work go on. */
  ghost predicate Workable(m: Mission) {
    m.status in {MissionStatus.Planning, MissionStatus.Running, MissionStatus.WaitingCapacity,
                 MissionStatus.WaitingInput, MissionStatus.WaitingApproval, MissionStatus.Verifying}
  }

  /** `text` names the mission's source: the explicit one, or else the one that its revision stands for. */
  ghost predicate NamesSource(m: Mission, text: string) {
    if m.source.Some? && m.source.value != "" then text == m.source.value else text == "msnrev:" + Decimal(m.revision)
  }

  /** The stamps that the task row carries are its mission's. */
  ghost predicate TaskCurrent(task: Task, m: Mission) {
    && task.project == m.project && task.graphRevision == m.revision
    && (task.cancelGen.Some? ==> task.cancelGen.value == m.cancelGen)
    && (task.source.Some? ==> NamesSource(m, task.source.value))
  }

  /** So are those of the lease. */
  ghost predicate LeaseCurrent(lease: Lease, m: Mission) {
    && lease.taskRevision == m.revision && lease.cancelGen == m.cancelGen
    && lease.source.Some? && NamesSource(m, lease.source.value)
  }

  lemma SourceIsNamed(m: Mission, text: string)
    ensures NamesSource(m, text) <==> text == SourceRevision(m)
  {
  }

  function SecondsAsked(cfg: Config, asked: Option<int>): int {
    if asked.None? || asked.value == 0 then cfg.defaultSeconds else asked.value
  }

  /** A registered, unrevoked, online worker with its current token. */
  ghost predicate InStanding(db: Db, worker: Id, token: string) {
    && worker in db.workers
    && var w := db.workers[worker];
    w.revokedAt == None && w.status == Online && w.tokenHash == Some(token)
  }

  // ---- claim ----

  /** Accepted or completed, in the task's own mission, project and revision. */
  ghost predicate DependencyReady(db: Db, task: Task, d: Id) {
    && d in db.tasks
    && db.tasks[d].mission == task.mission && db.tasks[d].project == task.project
    && db.tasks[d].graphRevision == task.graphRevision
    && (db.tasks[d].status == TaskStatus.Accepted || db.tasks[d].status == TaskStatus.Completed)
  }

  ghost predicate MayClaim(db: Db, w: Worker, t: Id) {
    && t in db.tasks
    && var task := db.tasks[t];
    && task.status == TaskStatus.Ready && w.project == Some(task.project)
    && (forall c :: c in task.required ==> c in w.capabilities)
    && ("local_only" in task.scopes ==> "local" in w.privacy)
    && (forall l :: l in db.leases && db.leases[l].task == t ==> !InFlight(db.leases[l]))
    && (forall d :: d in task.deps ==> DependencyReady(db, task, d))
    && task.mission in db.missions
    && var m := db.missions[task.mission];
    Workable(m) && m.cancelGen >= 0 && TaskCurrent(task, m)
  }

  lemma DependencyReadyIff(db: Db, task: Task, d: Id)
    ensures DependencyReady(db, task, d) <==> DependencyMet(db, task, d)
  {
  }

  lemma MayClaimIff(db: Db, w: Worker, t: Id)
    ensures MayClaim(db, w, t) <==> Claimable(db, w, t)
  {
    if t in db.tasks {
      var task := db.tasks[t];
      forall d ensures DependencyReady(db, task, d) <==> DependencyMet(db, task, d) {
        DependencyReadyIff(db, task, d);
      }
      if task.mission in db.missions && task.source.Some? {
        SourceIsNamed(db.missions[task.mission], task.source.value);
      }
    }
  }

  /** Lower priority numbers first, then older tasks, then ids in text order. */
  ghost predicate Before(db: Db, t: Id, u: Id)
    requires t in db.tasks && u in db.tasks
  {
    var a, b := db.tasks[t], db.tasks[u];
    || a.priority < b.priority
    || (a.priority == b.priority && a.createdAt < b.createdAt)
    || (a.priority == b.priority && a.createdAt == b.createdAt && TextLess(t, u))
  }

  ghost predicate Offered(db: Db, w: Worker, hidden: set<Id>, t: Id) {
    t !in hidden && MayClaim(db, w, t)
  }

  ghost predicate FirstOffered(db: Db, w: Worker, hidden: set<Id>, t: Id) {
    Offered(db, w, hidden, t) && forall u :: Offered(db, w, hidden, u) && u != t ==> Before(db, t, u)
  }

  ghost predicate HasProject(w: Worker) {
    w.project.Some? && w.project.value != ""
  }

  /** A claim under new ids is refused exactly to a worker without standing or without a project. */
  lemma ClaimRefusedIff(cfg: Config, db: Db, worker: Id, token: string, now: Time, asked: Option<int>,
                        hidden: set<Id>, a: Id, l: Id)
    requires a !in db.attempts && l !in db.leases
    ensures var step := Claim(cfg, db, worker, token, now, asked, hidden, a, l);
            && (step.reply.Refused? <==> !(InStanding(db, worker, token) && HasProject(db.workers[worker])))
            && (!step.reply.Done? ==> step.db == db)
  {
    if InStanding(db, worker, token) {
      assert ClaimantFault(db, worker, token).None?;
    }
  }

  /** Any other worker finds nothing exactly when no visible task may be claimed, and otherwise gets the first one. */
  lemma ClaimIff(cfg: Config, db: Db, worker: Id, token: string, now: Time, asked: Option<int>,
                 hidden: set<Id>, a: Id, l: Id)
    requires a !in db.attempts && l !in db.leases && InStanding(db, worker, token) && HasProject(db.workers[worker])
    ensures var step, w := Claim(cfg, db, worker, token, now, asked, hidden, a, l), db.workers[worker];
            && (step.reply.Idle? <==> forall t :: !Offered(db, w, hidden, t))
            && (!step.reply.Idle? ==>
                  step.reply == Done(l) && l in step.db.leases && FirstOffered(db, w, hidden, step.db.leases[l].task))
  {
    KeyOrderIsLinear();
    var w := db.workers[worker];
    assert ClaimantFault(db, worker, token).None?;
    var keys := ClaimKeys(db, w, hidden);
    forall t ensures Offered(db, w, hidden, t) <==> t in db.tasks && KeyOf(t, db.tasks[t]) in keys {
      MayClaimIff(db, w, t);
    }
    if keys != {} {
      assert Offered(db, w, hidden, Least(keys, KeyLess).id);
    }
  }

  /** What a claim writes: the stamps of worker, task and mission on both rows, and an expiry within the horizon. */
  lemma ClaimWrites(cfg: Config, db: Db, worker: Id, token: string, now: Time, asked: Option<int>,
                    hidden: set<Id>, a: Id, l: Id)
    requires Claim(cfg, db, worker, token, now, asked, hidden, a, l).reply.Done?
    ensures var db' := Claim(cfg, db, worker, token, now, asked, hidden, a, l).db;
            && worker in db.workers && l in db'.leases && a in db'.attempts
            && var lease, attempt, w := db'.leases[l], db'.attempts[a], db.workers[worker];
            && lease.task in db.tasks && db.tasks[lease.task].mission in db.missions
            && var task, m := db.tasks[lease.task], db.missions[db.tasks[lease.task].mission];
            && db' == db.(tasks := db.tasks[lease.task := task.(status := TaskStatus.Leased)],
                          attempts := db.attempts[a := attempt], leases := db.leases[l := lease],
                          outbox := db.outbox + [ClaimedAttempt(a)])
            && lease.attempt == a && lease.mission == task.mission && Some(lease.project) == w.project
            && lease.worker == worker && lease.generation == w.generation
            && lease.inputDigest == task.inputDigest && lease.reservationRefs == {} && LeaseCurrent(lease, m)
            && lease.state == LeaseState.Active && lease.issuedAt == now
            && lease.expiresAt == now + Min(SecondsAsked(cfg, asked), cfg.horizonSeconds) * SECOND
            && lease.renewableUntil == Some(now + cfg.horizonSeconds * SECOND)
            && StampedAlike(lease, attempt) && attempt.status == AttemptStatus.Leased && attempt.startedAt == now
            && attempt.completedAt == None && attempt.terminalAt == None && attempt.acceptedResult == None
  {
    KeyOrderIsLinear();
    var keys := ClaimKeys(db, db.workers[worker], hidden);
    var t := Least(keys, KeyLess).id;
    SourceIsNamed(db.missions[db.tasks[t].mission], SourceRevision(db.missions[db.tasks[t].mission]));
  }

  // ---- renew ----

  ghost predicate MayRenew(cfg: Config, db: Db, l: Id, worker: Id, generation: int, token: string, seconds: int,
                           now: Time) {
    && InStanding(db, worker, token) && l in db.leases
    && var w, lease := db.workers[worker], db.leases[l];
    && lease.worker == worker && w.project == Some(lease.project) && lease.generation == generation == w.generation
    && InFlight(lease) && now < lease.expiresAt < lease.issuedAt + cfg.horizonSeconds * SECOND && seconds > 0
    && lease.task in db.tasks && lease.mission in db.missions
    && var task, m := db.tasks[lease.task], db.missions[lease.mission];
    && task.status !in {TaskStatus.Accepted, TaskStatus.Rejected, TaskStatus.Failed, TaskStatus.Cancelled,
                        TaskStatus.Superseded}
    && Workable(m) && TaskCurrent(task, m) && LeaseCurrent(lease, m)
  }

  lemma RenewAuthorityIff(cfg: Config, db: Db, l: Id)
    requires Inv(cfg, db) && l in db.leases && InFlight(db.leases[l])
    ensures var lease := db.leases[l];
            && lease.task in db.tasks && lease.mission in db.missions
            && var task, m := db.tasks[lease.task], db.missions[lease.mission];
            RenewAuthorityFault(db, lease).None? <==>
              && task.status !in {TaskStatus.Accepted, TaskStatus.Rejected, TaskStatus.Failed, TaskStatus.Cancelled,
                                  TaskStatus.Superseded}
              && Workable(m) && TaskCurrent(task, m) && LeaseCurrent(lease, m)
  {
    assert Anchored(db, l) && Matched(db, l);
    var lease := db.leases[l];
    var task, m := db.tasks[lease.task], db.missions[lease.mission];
    SourceIsNamed(m, lease.source.value);
    if task.source.Some? {
      SourceIsNamed(m, task.source.value);
    }
  }

  /** A renewal succeeds exactly when every stamp is current and the lease is between now and its horizon; it then
      reaches as far as was asked or the horizon allows, and never back. */
  lemma RenewIff(cfg: Config, db: Db, l: Id, worker: Id, generation: int, token: string, asked: Option<int>, now: Time)
    requires Inv(cfg, db)
    ensures var step, seconds := Renew(cfg, db, l, worker, generation, token, asked, now), SecondsAsked(cfg, asked);
            && (step.reply.Done? <==> MayRenew(cfg, db, l, worker, generation, token, seconds, now))
            && (!step.reply.Done? ==> step.reply.Refused? && step.db == db)
            && (step.reply.Done? ==>
                  var lease := db.leases[l];
                  var reach := Min(now + seconds * SECOND, lease.issuedAt + cfg.horizonSeconds * SECOND);
                  step.db == db.(leases := db.leases[l := lease.(
                    state := LeaseState.Renewed, expiresAt := Max(reach, lease.expiresAt))]))
  {
    assert Windowed(cfg, db, l);
    if l in db.leases && InFlight(db.leases[l]) {
      RenewAuthorityIff(cfg, db, l);
    }
  }

  // ---- submit ----

  /** Also a draining or offline worker may hand in, under whatever state its lease has come to. */
  ghost predicate MaySubmit(db: Db, l: Id, worker: Id, token: string, generation: int) {
    && worker in db.workers && l in db.leases
    && var w, lease := db.workers[worker], db.leases[l];
    && w.revokedAt == None && w.status != Quarantined && w.tokenHash == Some(token)
    && lease.worker == worker && w.project == Some(lease.project) && lease.generation == generation
  }

  lemma SubmitIff(cfg: Config, db: Db, l: Id, worker: Id, token: string, generation: int, checks: Checks,
                  refs: set<string>, now: Time, r: Id)
    requires Inv(cfg, db) && r !in db.results
    ensures var step := Submit(db, l, worker, token, generation, checks, refs, now, r);
            && (step.reply == Done(r) <==> MaySubmit(db, l, worker, token, generation))
            && (step.reply != Done(r) ==> step.reply.Refused? && step.db == db)
            && (step.reply == Done(r) ==>
                  && r in step.db.results
                  && var result := step.db.results[r];
                  && step.db == db.(results := db.results[r := result], outbox := db.outbox + [SubmittedResult(r)])
                  && result.lease == l && Copies(result, db.leases[l]) && result.checks == checks
                  && result.reconciledRefs == refs && result.state == AcceptanceState.Submitted
                  && result.submittedAt == now && result.rejection == None && result.acceptedAt == None)
  {
    assert Matched(db, l);
  }

  // ---- accept ----

  ghost predicate ReviewedWell(checks: Checks) {
    checks.reviewPassed == Some(true) || (checks.verificationPassed == Some(true) && checks.reviewPassed != Some(false))
  }

  ghost predicate MayAccept(db: Db, r: Id, now: Time)
    requires r in db.results
  {
    var result := db.results[r];
    && result.lease in db.leases && result.worker in db.workers
    && result.task in db.tasks && result.mission in db.missions
    && var lease, w := db.leases[result.lease], db.workers[result.worker];
    && var task, m := db.tasks[result.task], db.missions[result.mission];
    && InFlight(lease) && now < lease.expiresAt
    && w.revokedAt == None && w.generation == result.generation && w.project == Some(result.project)
    && task.graphRevision == lease.taskRevision
    && task.status !in {TaskStatus.Rejected, TaskStatus.Failed, TaskStatus.Cancelled, TaskStatus.Superseded}
    && Workable(m) && lease.source.Some? && NamesSource(m, lease.source.value)
    && lease.cancelGen == m.cancelGen && (task.cancelGen.Some? ==> task.cancelGen.value == m.cancelGen)
    && ReviewedWell(result.checks)
    && (forall ref :: ref in lease.reservationRefs ==> ref in result.reconciledRefs)
  }

  /** While the lease is in flight its attempt has no accepted result. */
  lemma NothingAcceptedYet(cfg: Config, db: Db, r: Id)
    requires Inv(cfg, db) && r in db.results
    requires db.results[r].lease in db.leases && InFlight(db.leases[db.results[r].lease])
    ensures ResultOk(db, r) && Matched(db, db.results[r].lease) && !OtherAccepted(db, r, db.results[r].attempt)
  {
    assert ResultOk(db, r);
    var l := db.results[r].lease;
    assert Matched(db, l);
    forall x | x in db.results && db.results[x].attempt == db.results[r].attempt ensures !IsAccepted(db, x) {
      assert Sealed(db, x);
    }
  }

  lemma FenceIff(cfg: Config, db: Db, r: Id, now: Time)
    requires Inv(cfg, db) && r in db.results
    ensures FencePasses(db, r, now) <==> MayAccept(db, r, now)
  {
    var result := db.results[r];
    assert ResultOk(db, r) && Anchored(db, result.lease) && Matched(db, result.lease);
    SourceIsNamed(db.missions[result.mission], db.leases[result.lease].source.value);
    if InFlight(db.leases[result.lease]) {
      NothingAcceptedYet(cfg, db, r);
    }
  }

  /** A submitted result is accepted exactly when its lease is in flight and in time, its worker, task and mission are
      where they were, the review is favourable and the reservations are reconciled.  Acceptance ends the attempt, the
      lease and the task together; a refusal leaves at most its mark. */
  lemma AcceptIff(cfg: Config, db: Db, r: Id, now: Time, keep: bool)
    requires Inv(cfg, db) && r in db.results && db.results[r].state == AcceptanceState.Submitted
    ensures var step := Accept(db, r, now, keep);
            && (step.reply == Done(r) <==> MayAccept(db, r, now))
            && (step.reply != Done(r) ==>
                  && step.reply.Refused?
                  && step.db == if !keep then db else db.(results := db.results[r := db.results[r].(
                       state := AcceptanceState.Rejected, rejection := Some(step.reply.fault), acceptedAt := None)]))
  {
    FenceIff(cfg, db, r, now);
    assert ResultOk(db, r) && Anchored(db, db.results[r].lease) && Matched(db, db.results[r].lease);
  }

  lemma AcceptWrites(cfg: Config, db: Db, r: Id, now: Time, keep: bool)
    requires Inv(cfg, db) && r in db.results && db.results[r].state == AcceptanceState.Submitted
    requires MayAccept(db, r, now)
    ensures var db', result := Accept(db, r, now, keep).db, db.results[r];
            && result.attempt in db.attempts
            && db' == db.(
                 results := db.results[r := result.(
                   state := AcceptanceState.Accepted, acceptedAt := Some(now), rejection := None)],
                 attempts := db.attempts[result.attempt := db.attempts[result.attempt].(
                   status := AttemptStatus.Accepted, acceptedResult := Some(r), completedAt := Some(now),
                   terminalAt := Some(now))],
                 leases := db.leases[result.lease := db.leases[result.lease].(state := LeaseState.Released)],
                 tasks := db.tasks[result.task := db.tasks[result.task].(status := TaskStatus.Accepted)],
                 outbox := db.outbox + [AcceptedResult(r)])
  {
    FenceIff(cfg, db, r, now);
    assert ResultOk(db, r) && Anchored(db, db.results[r].lease) && Matched(db, db.results[r].lease);
  }

  // ---- cancel ----

  /** A cancelled lease ends its attempt; a task leased under it is cancelled for good or goes back to ready. */
  lemma CancelLeaseWrites(cfg: Config, db: Db, l: Id, reason: string, now: Time)
    requires Inv(cfg, db)
    ensures var step := CancelLease(db, l, reason, now);
            && (step.reply == Done(l) <==> l in db.leases && InFlight(db.leases[l]))
            && (step.reply != Done(l) ==> step.reply.Refused? && step.db == db)
            && (step.reply == Done(l) ==>
                  var lease := db.leases[l];
                  && lease.attempt in db.attempts && lease.task in db.tasks
                  && var task := db.tasks[lease.task];
                  && var after := if reason == "cancelled" then TaskStatus.Cancelled else TaskStatus.Ready;
                  step.db == db.(
                    leases := db.leases[l := lease.(state := LeaseState.Cancelled)],
                    attempts := db.attempts[lease.attempt := db.attempts[lease.attempt].(
                      status := AttemptStatus.Cancelled, terminalAt := Some(now))],
                    tasks := db.tasks[lease.task :=
                      if task.status == TaskStatus.Leased then task.(status := after) else task],
                    outbox := db.outbox + [CancelledLease(l, EpochSeconds(now))]))
  {
    assert Matched(db, l) && Anchored(db, l);
    if l in db.leases {
      var t := db.leases[l].task;
      assert t in db.tasks && db.tasks[t := db.tasks[t]] == db.tasks;
    }
  }

  // ---- graph commits ----

  /** A commit is carried out exactly when it is based on the mission's revision, which it moves on by one. */
  lemma CommitIff(db: Db, p: Proposal, now: Time)
    ensures var step := CommitGraph(db, p, now);
            && (step.reply == Done(p.mission) <==>
                  p.mission in db.missions && db.missions[p.mission].revision == p.basedOn)
            && (step.reply != Done(p.mission) ==> step.reply.Refused? && step.db == db)
            && (step.reply == Done(p.mission) ==>
                  step.db == db.(tasks := step.db.tasks, missions := db.missions[p.mission :=
                    db.missions[p.mission].(revision := p.basedOn + 1)]))
  {
  }

  ghost predicate FirstFor(specs: seq<TaskSpec>, k: nat, t: Id) {
    k < |specs| && specs[k].id == t && forall j :: 0 <= j < k ==> specs[j].id != t
  }

  ghost predicate LastFor(specs: seq<TaskSpec>, k: nat, t: Id) {
    k < |specs| && specs[k].id == t && forall j :: k < j < |specs| ==> specs[j].id != t
  }

  lemma {:induction false} UpsertSnoc(db: Db, specs: seq<TaskSpec>, last: TaskSpec, revision: int, now: Time)
    ensures UpsertAll(db, specs + [last], revision, now)
            == UpsertTask(UpsertAll(db, specs, revision, now), last, revision, now)
    decreases |specs|
  {
    if specs != [] {
      assert (specs + [last])[1..] == specs[1..] + [last];
      UpsertSnoc(UpsertTask(db, specs[0], revision, now), specs[1..], last, revision, now);
    }
  }

  /** A task that no spec names stays as it was. */
  lemma {:induction false} CommitSpares(db: Db, specs: seq<TaskSpec>, revision: int, now: Time, t: Id)
    requires forall j :: 0 <= j < |specs| ==> specs[j].id != t
    ensures var after := UpsertAll(db, specs, revision, now).tasks;
            (t in after <==> t in db.tasks) && (t in after ==> after[t] == db.tasks[t])
    decreases |specs|
  {
    if specs != [] {
      CommitSpares(UpsertTask(db, specs[0], revision, now), specs[1..], revision, now, t);
    }
  }

  /** The last spec of a task decides its content, at the new revision and without stamps of its own … */
  lemma {:induction false} CommitContent(db: Db, specs: seq<TaskSpec>, revision: int, now: Time, t: Id, k: nat)
    requires LastFor(specs, k, t)
    ensures var after := UpsertAll(db, specs, revision, now).tasks;
            && t in after
            && var row, spec := after[t], specs[k];
            && row.graphRevision == revision && row.status == spec.status && row.priority == spec.priority
            && row.scopes == spec.scopes && row.deps == spec.deps && row.required == spec.required
            && row.cancelGen == None && row.source == None && row.inputDigest == None
    decreases |specs|
  {
    var front, last := specs[..|specs| - 1], specs[|specs| - 1];
    assert specs == front + [last];
    UpsertSnoc(db, front, last, revision, now);
    if k < |front| {
      CommitContent(db, front, revision, now, t, k);
    }
  }

  /** … while project, mission and age are those of the row there was, or else of the first spec. */
  lemma {:induction false} CommitOrigin(db: Db, specs: seq<TaskSpec>, revision: int, now: Time, t: Id, k: nat)
    requires FirstFor(specs, k, t)
    ensures var after := UpsertAll(db, specs, revision, now).tasks;
            && t in after
            && (t in db.tasks ==>
                  && after[t].project == db.tasks[t].project && after[t].mission == db.tasks[t].mission
                  && after[t].createdAt == db.tasks[t].createdAt)
            && (t !in db.tasks ==>
                  && after[t].project == specs[k].project && after[t].mission == specs[k].mission
                  && after[t].createdAt == now)
    decreases |specs|
  {
    var front, last := specs[..|specs| - 1], specs[|specs| - 1];
    assert specs == front + [last];
    UpsertSnoc(db, front, last, revision, now);
    if k < |front| {
      CommitOrigin(db, front, revision, now, t, k);
    } else {
      CommitSpares(db, front, revision, now, t);
    }
  }

  // ---- worker registrations ----

  ghost predicate KnowsToken(db: Db, worker: Id, token: string) {
    worker in db.workers && db.workers[worker].revokedAt == None && db.workers[worker].tokenHash == Some(token)
  }

  /** Which calls on a registration go through. */
  lemma WorkerCallIff(db: Db, worker: Id, op: WorkerOp)
    ensures var step := ApplyWorker(db, worker, op);
            && (step.reply != Done(worker) ==> step.reply.Refused? && step.db == db)
            && (step.reply == Done(worker) <==>
                  match op
                  case Register(_, _, _, _, _, _) => true
                  case Rotate(token, _) => KnowsToken(db, worker, token)
                  case RevokeWorker(_) => worker in db.workers
                  case Drain => worker in db.workers
                  case Heartbeat(token, generation, _) =>
                    && KnowsToken(db, worker, token) && db.workers[worker].generation == generation
                    && db.workers[worker].status != Quarantined
                  case Advertise(token, generation, fewer, fewerPrivacy) =>
                    && KnowsToken(db, worker, token) && db.workers[worker].generation == generation
                    && (fewer.Some? ==> forall c :: c in fewer.value ==> c in db.workers[worker].capabilities)
                    && (fewerPrivacy.Some? ==> forall c :: c in fewerPrivacy.value ==> c in db.workers[worker].privacy))
  {
  }

  /** Only a registration can give a worker more than it has: the other calls never widen its capabilities or privacy
      classes and never move it to another project. */
  lemma WorkerCallsNarrow(db: Db, worker: Id, op: WorkerOp)
    requires worker in db.workers && !op.Register?
    ensures var db' := ApplyWorker(db, worker, op).db;
            && worker in db'.workers
            && var w, w' := db.workers[worker], db'.workers[worker];
            && w'.capabilities <= w.capabilities && w'.privacy <= w.privacy && w'.project == w.project
  {
  }

  /** Nor do they bring a worker back online, but for its own heartbeat after an absence. */
  lemma WorkerCallsRestrain(db: Db, worker: Id, op: WorkerOp)
    requires worker in db.workers && !op.Register?
    ensures var db' := ApplyWorker(db, worker, op).db;
            && worker in db'.workers
            && var w, w' := db.workers[worker], db'.workers[worker];
            && (w.status == Quarantined ==> w'.status == Quarantined)
            && (w'.status == Online && w.status != Online ==>
                  w.status == Offline && op.Heartbeat? && op.reported == Some(Online))
            && (op.Drain? && w.status != Quarantined && w.revokedAt == None ==> w'.status == Draining)
  {
  }

  /** A registration writes the whole row anew, local if no privacy class is named, and keeps an earlier revocation. */
  lemma RegistrationWrites(db: Db, worker: Id, op: WorkerOp)
    requires op.Register?
    ensures var db' := ApplyWorker(db, worker, op).db;
            && worker in db'.workers && db' == db.(workers := db.workers[worker := db'.workers[worker]])
            && var w := db'.workers[worker];
            && w.project == Some(op.project) && w.generation == op.generation && w.status == op.status
            && w.tokenHash == Some(op.token) && w.capabilities == op.capabilities && w.privacy != {}
            && (op.privacy != {} ==> w.privacy == op.privacy) && (op.privacy == {} ==> w.privacy == {"local"})
            && w.revokedAt == if worker in db.workers then db.workers[worker].revokedAt else None
  {
  }

  /** A heartbeat moves a worker from online to draining to offline and back, one step at a time and as reported. */
  lemma HeartbeatMoves(db: Db, worker: Id, op: WorkerOp)
    requires op.Heartbeat? && ApplyWorker(db, worker, op).reply.Done?
    ensures var db' := ApplyWorker(db, worker, op).db;
            && worker in db.workers && worker in db'.workers
            && var was, now := db.workers[worker].status, db'.workers[worker].status;
            && db'.workers[worker] == db.workers[worker].(status := now)
            && (now != was <==>
                  && op.reported.Some?
                  && (was, op.reported.value) in {(Online, Draining), (Draining, Offline), (Offline, Online)})
            && (now != was ==> op.reported == Some(now))
  {
  }

  /** A worker's older leases are fenced exactly when its token is replaced or withdrawn. */
  lemma WorkerCallsFence(db: Db, worker: Id, op: WorkerOp)
    requires worker in db.workers && !op.Register?
    ensures var step := ApplyWorker(db, worker, op);
            && worker in step.db.workers
            && var w, w' := db.workers[worker], step.db.workers[worker];
            && var replaced := step.reply.Done? && (op.Rotate? || op.RevokeWorker?);
            && w'.generation == w.generation + (if replaced then 1 else 0)
            && (!replaced ==> w'.tokenHash == w.tokenHash && w'.revokedAt == w.revokedAt)
            && (op.Rotate? && replaced ==> w'.tokenHash == Some(op.newToken) && w'.revokedAt == None)
            && (op.RevokeWorker? ==> w'.tokenHash == None && w'.revokedAt == Some(op.now) && w'.status == Quarantined)
  {
  }
}
