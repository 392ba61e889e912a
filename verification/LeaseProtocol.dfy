/** The lease protocol as total functions from one database state to the next.  Every function
    models one service or repository call, which row locks make atomic.  Random ids, the clock,
    rows skipped because another transaction holds them, and the order of tied rows are
    arguments. */
module LeaseProtocol {
  import opened Common
  import opened Ordering
  import opened LeaseRows

  lemma KeyOrderIsLinear()
    ensures StrictLinear(KeyLess)
  {
    forall x, y ensures !KeyLess(x, x) && (KeyLess(x, y) || x == y || KeyLess(y, x)) {
      KeyTrichotomy(x, x);
      KeyTrichotomy(x, y);
    }
    forall x, y, z | KeyLess(x, y) && KeyLess(y, z) ensures KeyLess(x, z) {
      KeyTransitive(x, y, z);
    }
  }

  // ---- authority ----

  function SourceRevision(m: Mission): string {
    if m.source.Some? && m.source.value != "" then m.source.value
    else "msnrev:" + Decimal(m.revision)
  }

  /** The task's mission is runnable and every stamp on the task is current. */
  predicate ClaimableMission(db: Db, task: Task) {
    && task.mission in db.missions
    && var m := db.missions[task.mission];
    && Runnable(m.status)
    && m.cancelGen >= 0
    && task.project == m.project
    && task.graphRevision == m.revision
    && (task.cancelGen.Some? ==> task.cancelGen.value == m.cancelGen)
    && (task.source.Some? ==> task.source.value == SourceRevision(m))
  }

  predicate DependencyMet(db: Db, task: Task, d: Id) {
    && d in db.tasks
    && db.tasks[d].mission == task.mission
    && db.tasks[d].project == task.project
    && db.tasks[d].graphRevision == task.graphRevision
    && DependencyDone(db.tasks[d].status)
  }

  predicate DependenciesSatisfied(db: Db, task: Task) {
    forall d :: d in task.deps ==> DependencyMet(db, task, d)
  }

  predicate WorkerEligible(w: Worker, task: Task) {
    && task.required <= w.capabilities
    && ("local_only" in task.scopes ==> "local" in w.privacy)
  }

  predicate HasLiveLease(db: Db, t: Id) {
    exists l :: l in db.leases && db.leases[l].task == t && Live(db.leases[l])
  }

  /** What the claim query and the per-row checks require together of a task. */
  predicate Claimable(db: Db, w: Worker, t: Id) {
    && t in db.tasks
    && var task := db.tasks[t];
    && w.project == Some(task.project)
    && task.status.Ready?
    && WorkerEligible(w, task)
    && !HasLiveLease(db, t)
    && DependenciesSatisfied(db, task)
    && ClaimableMission(db, task)
  }

  // ---- claim ----

  function ClaimantFault(db: Db, worker: Id, token: string): Option<Fault> {
    if worker !in db.workers then Some(WorkerNotFound) else
    var w := db.workers[worker];
    if w.revokedAt.Some? then Some(WorkerRevoked)
    else if !w.status.Online? then Some(WorkerStatusFault(w.status))
    else if w.tokenHash != Some(token) then Some(InvalidMembershipToken)
    else None
  }

  function LeaseSeconds(cfg: Config, asked: Option<int>): int {
    if asked.Some? && asked.value != 0 then asked.value else cfg.defaultSeconds
  }

  function NewAttempt(db: Db, worker: Id, w: Worker, t: Id, task: Task, m: Mission, now: Time): Attempt {
    Attempt(t, w.project, Some(task.mission), worker, w.generation, task.graphRevision, task.inputDigest,
            Some(SourceRevision(m)), m.cancelGen, AttemptStatus.Leased, now, None, None, None)
  }

  function NewLease(cfg: Config, a: Id, worker: Id, w: Worker, t: Id, task: Task, m: Mission,
                    now: Time, seconds: int): Lease
    requires w.project.Some?
  {
    var horizon := now + cfg.horizonSeconds * SECOND;
    Lease(a, t, task.mission, w.project.value, worker, w.generation, task.graphRevision, task.inputDigest,
          Some(SourceRevision(m)), m.cancelGen, Active, now, Min(now + seconds * SECOND, horizon),
          Some(horizon), {})
  }

  /** Insert attempt, lease and outbox row; mark the task leased. */
  function BindClaim(cfg: Config, db: Db, worker: Id, t: Id, now: Time, seconds: int, a: Id, l: Id): Db
    requires worker in db.workers && Claimable(db, db.workers[worker], t)
  {
    var w := db.workers[worker];
    var task := db.tasks[t];
    var m := db.missions[task.mission];
    db.(attempts := db.attempts[a := NewAttempt(db, worker, w, t, task, m, now)],
        leases := db.leases[l := NewLease(cfg, a, worker, w, t, task, m, now, seconds)],
        tasks := db.tasks[t := task.(status := TaskStatus.Leased)],
        outbox := db.outbox + [ClaimedAttempt(a)])
  }

  /** The claim order of every visible task the worker may claim. */
  function ClaimKeys(db: Db, w: Worker, hidden: set<Id>): (keys: set<Key>)
    ensures forall k :: k in keys <==>
              k.id in db.tasks && k == KeyOf(k.id, db.tasks[k.id]) && k.id !in hidden && Claimable(db, w, k.id)
  {
    set t | t in db.tasks && t !in hidden && Claimable(db, w, t) :: KeyOf(t, db.tasks[t])
  }

  /** Unpaged meaning of a claim: the least claimable visible task, or nothing. */
  function Claim(cfg: Config, db: Db, worker: Id, token: string, now: Time, asked: Option<int>,
                 hidden: set<Id>, a: Id, l: Id): Step
  {
    var fault := ClaimantFault(db, worker, token);
    if fault.Some? then Step(db, Refused(fault.value)) else
    var w := db.workers[worker];
    if w.project.None? || w.project.value == "" then Step(db, Refused(WorkerMissingProject)) else
    var keys := ClaimKeys(db, w, hidden);
    if keys == {} then Step(db, Idle)
    else if a in db.attempts || l in db.leases then Step(db, Refused(IntegrityError))
    else
      KeyOrderIsLinear();
      var t := Least(keys, KeyLess).id;
      Step(BindClaim(cfg, db, worker, t, now, LeaseSeconds(cfg, asked), a, l), Done(l))
  }

  // ---- renew ----

  function RenewAuthorityFault(db: Db, lease: Lease): Option<Fault> {
    if lease.task !in db.tasks then Some(TaskMissing) else
    var task := db.tasks[lease.task];
    if TerminalTask(task.status) then Some(TaskTerminal(task.status))
    else if task.project != lease.project then Some(TaskProjectMismatch)
    else if task.graphRevision != lease.taskRevision then Some(TaskRevisionMismatch)
    else if lease.attempt !in db.attempts then Some(AttemptMissing) else
    var attempt := db.attempts[lease.attempt];
    if attempt.task != lease.task || attempt.mission != Some(lease.mission) then Some(AttemptLeaseMismatch)
    else if attempt.project.Some? && attempt.project.value != lease.project then Some(AttemptProjectMismatch)
    else if TerminalAttempt(attempt.status) then Some(AttemptTerminal(attempt.status))
    else if attempt.terminalAt.Some? then Some(AttemptTerminalAtSet)
    else if attempt.completedAt.Some? then Some(AttemptCompleted)
    else if attempt.acceptedResult.Some? then Some(AttemptAcceptedResult)
    else if !ClaimableMission(db, task) then Some(AuthorityStale) else
    var m := db.missions[task.mission];
    if lease.source.Some? && lease.source.value != SourceRevision(m) then Some(SourceRevisionStale)
    else if lease.cancelGen != m.cancelGen then Some(CancellationGenerationStale)
    else if attempt.source.Some? && attempt.source.value != SourceRevision(m) then Some(AttemptSourceStale)
    else if attempt.cancelGen != m.cancelGen then Some(AttemptCancellationStale)
    else if attempt.taskRevision != m.revision then Some(AttemptRevisionStale)
    else None
  }

  function RenewalWindowFault(lease: Lease, now: Time, desired: Time): Option<Fault> {
    if lease.renewableUntil.None? then None else
    var upper := lease.renewableUntil.value;
    if now >= upper then Some(PastRenewableUntil)
    else if Min(desired, upper) <= now then Some(NoPositiveRenewalWindow)
    else if lease.expiresAt >= upper then Some(NoPositiveRenewalWindow)
    else None
  }

  function RenewalExpiry(lease: Lease, desired: Time): Time {
    if lease.renewableUntil.None? then desired
    else Max(Min(desired, lease.renewableUntil.value), lease.expiresAt)
  }

  function RenewFault(cfg: Config, db: Db, l: Id, worker: Id, generation: int, token: string,
                      asked: Option<int>, now: Time): Option<Fault>
  {
    var fault := ClaimantFault(db, worker, token);
    if fault.Some? then fault
    else if l !in db.leases then Some(LeaseNotFound) else
    var lease := db.leases[l];
    var w := db.workers[worker];
    if lease.worker != worker then Some(LeaseWorkerMismatch)
    else if w.project != Some(lease.project) then Some(LeaseProjectMismatch)
    else if lease.generation != generation then Some(LeaseGenerationMismatch)
    else if w.generation != generation then Some(WorkerGenerationMismatch)
    else if !Live(lease) then Some(LeaseNotRenewable(lease.state))
    else if lease.expiresAt <= now then Some(LeaseAlreadyExpired)
    else
      var authority := RenewAuthorityFault(db, lease);
      if authority.Some? then authority
      else RenewalWindowFault(lease, now, now + LeaseSeconds(cfg, asked) * SECOND)
  }

  function Renew(cfg: Config, db: Db, l: Id, worker: Id, generation: int, token: string,
                 asked: Option<int>, now: Time): Step
  {
    var fault := RenewFault(cfg, db, l, worker, generation, token, asked, now);
    if fault.Some? then Step(db, Refused(fault.value)) else
    var lease := db.leases[l];
    var expiry := RenewalExpiry(lease, now + LeaseSeconds(cfg, asked) * SECOND);
    Step(db.(leases := db.leases[l := lease.(expiresAt := expiry, state := Renewed)]), Done(l))
  }

  // ---- expire ----

  predicate StampsStale(lease: Lease, attempt: Option<Attempt>, task: Task, m: Mission) {
    || task.graphRevision != m.revision
    || lease.taskRevision != m.revision
    || (lease.source.Some? && lease.source.value != SourceRevision(m))
    || lease.cancelGen != m.cancelGen
    || (attempt.Some? &&
        (|| attempt.value.taskRevision != m.revision
         || (attempt.value.source.Some? && attempt.value.source.value != SourceRevision(m))
         || attempt.value.cancelGen != m.cancelGen))
  }

  function ExpiredTaskStatus(db: Db, task: Task, lease: Lease, attempt: Option<Attempt>): TaskStatus {
    if task.mission !in db.missions then TaskStatus.Cancelled else
    var m := db.missions[task.mission];
    if !Runnable(m.status) then TaskStatus.Cancelled
    else if StampsStale(lease, attempt, task, m) then TaskStatus.Superseded
    else if !ClaimableMission(db, task) then TaskStatus.Superseded
    else TaskStatus.Ready
  }

  function ExpireOne(db: Db, l: Id, now: Time): Db
    requires l in db.leases
  {
    var lease := db.leases[l];
    var attempt := if lease.attempt in db.attempts then Some(db.attempts[lease.attempt]) else None;
    var attempt' :=
      if attempt.Some? &&
         (attempt.value.status.Leased? || attempt.value.status.Running? || attempt.value.status.Pending?)
      then Some(attempt.value.(status := AttemptStatus.Expired, terminalAt := Some(now)))
      else attempt;
    db.(leases := db.leases[l := lease.(state := LeaseState.Expired)],
        attempts := if attempt'.Some? then db.attempts[lease.attempt := attempt'.value] else db.attempts,
        tasks := if lease.task in db.tasks && db.tasks[lease.task].status.Leased?
                 then db.tasks[lease.task := db.tasks[lease.task].(
                        status := ExpiredTaskStatus(db, db.tasks[lease.task], lease, attempt'))]
                 else db.tasks)
  }

  /** The rows an expiry scan may return, in some order of ties. */
  predicate Due(db: Db, l: Id, now: Time, project: Option<Id>) {
    && l in db.leases
    && Live(db.leases[l])
    && db.leases[l].expiresAt <= now
    && (project.Some? ==> db.leases[l].project == project.value)
  }

  predicate IsExpiryBatch(db: Db, batch: seq<Id>, now: Time, project: Option<Id>, limit: nat, hidden: set<Id>) {
    && (forall i :: 0 <= i < |batch| ==> Due(db, batch[i], now, project) && batch[i] !in hidden)
    && (forall i, j :: 0 <= i < j < |batch| ==> batch[i] != batch[j])
    && (forall i, j :: 0 <= i < j < |batch| ==> db.leases[batch[i]].expiresAt <= db.leases[batch[j]].expiresAt)
    && |batch| <= limit
    && (forall l :: l in db.leases && Due(db, l, now, project) && l !in hidden && l !in batch ==>
          |batch| == limit && forall i :: 0 <= i < |batch| ==> db.leases[batch[i]].expiresAt <= db.leases[l].expiresAt)
  }

  function ExpireAll(db: Db, batch: seq<Id>, now: Time): (db': Db)
    requires forall l :: l in batch ==> l in db.leases
    ensures db'.missions == db.missions && db'.workers == db.workers
    ensures db'.results == db.results && db'.outbox == db.outbox
    ensures db'.leases == map l | l in db.leases ::
              if l in batch then db.leases[l].(state := LeaseState.Expired) else db.leases[l]
    decreases |batch|
  {
    if batch == [] then db else ExpireAll(ExpireOne(db, batch[0], now), batch[1..], now)
  }

  // ---- submit ----

  function SubmitterFault(db: Db, worker: Id, token: string): Option<Fault> {
    if worker !in db.workers then Some(WorkerNotFound) else
    var w := db.workers[worker];
    if w.revokedAt.Some? then Some(WorkerRevoked)
    else if w.status.Quarantined? then Some(WorkerStatusFault(w.status))
    else if w.tokenHash != Some(token) then Some(InvalidMembershipToken)
    else None
  }

  function SubmitFault(db: Db, l: Id, worker: Id, token: string, generation: int): Option<Fault> {
    var fault := SubmitterFault(db, worker, token);
    if fault.Some? then fault
    else if l !in db.leases then Some(LeaseNotFound) else
    var lease := db.leases[l];
    if lease.worker != worker then Some(LeaseWorkerMismatch)
    else if db.workers[worker].project != Some(lease.project) then Some(LeaseProjectMismatch)
    else if lease.generation != generation then Some(LeaseGenerationMismatch)
    else if lease.attempt !in db.attempts then Some(AttemptMissing)
    else None
  }

  function NewResult(l: Id, lease: Lease, worker: Id, generation: int, checks: Checks, refs: set<string>,
                     now: Time): WorkerResult
  {
    WorkerResult(lease.attempt, l, lease.task, lease.mission, lease.project, worker, generation,
                 lease.taskRevision, lease.inputDigest, lease.source, checks, refs, Submitted, now, None, None)
  }

  function Submit(db: Db, l: Id, worker: Id, token: string, generation: int, checks: Checks, refs: set<string>,
                  now: Time, r: Id): Step
  {
    var fault := SubmitFault(db, l, worker, token, generation);
    if fault.Some? then Step(db, Refused(fault.value))
    else if r in db.results then Step(db, Refused(IntegrityError))
    else
      Step(db.(results := db.results[r := NewResult(l, db.leases[l], worker, generation, checks, refs, now)],
               outbox := db.outbox + [SubmittedResult(r)]),
           Done(r))
  }

  // ---- accept ----

  predicate ReviewChecksPass(c: Checks) {
    || c.reviewPassed == Some(true)
    || (c.verificationPassed == Some(true) && c.reviewPassed != Some(false))
  }

  predicate OtherAccepted(db: Db, r: Id, a: Id) {
    exists x :: x in db.results && x != r && db.results[x].attempt == a && db.results[x].state.Accepted?
  }

  function WorkerFenceFault(db: Db, result: WorkerResult): Option<Fault> {
    if result.worker !in db.workers then Some(WorkerNotFound) else
    var w := db.workers[result.worker];
    if w.revokedAt.Some? then Some(WorkerRevoked)
    else if w.generation != result.generation then Some(WorkerGenerationStale)
    else if w.project != Some(result.project) then Some(WorkerProjectMismatch)
    else None
  }

  function MissionFenceFault(db: Db, result: WorkerResult, lease: Lease, task: Task): Option<Fault> {
    if task.mission !in db.missions then Some(MissionMissing) else
    var m := db.missions[task.mission];
    if m.project != result.project then Some(MissionProjectMismatch)
    else if m.status.Cancelled? then Some(MissionCancelled)
    else if !Runnable(m.status) then Some(MissionNotRunnable(m.status))
    else if lease.source.Some? && lease.source.value != SourceRevision(m) then Some(SourceRevisionStale)
    else if lease.cancelGen != m.cancelGen then Some(CancellationGenerationStale)
    else if task.cancelGen.Some? && task.cancelGen.value != m.cancelGen then Some(TaskCancellationStale)
    else None
  }

  /** The first failing check of the acceptance fence, in the order the service makes them. */
  function AcceptFence(db: Db, r: Id, result: WorkerResult, lease: Lease, attempt: Attempt, task: Task,
                       now: Time): Option<Fault>
  {
    if result.project != lease.project || result.project != task.project then Some(ProjectMismatch)
    else if result.attempt != lease.attempt then Some(AttemptLeaseMismatch)
    else if result.task != lease.task || result.mission != lease.mission then Some(ResultTaskMismatch)
    else if result.generation != lease.generation then Some(ResultGenerationMismatch)
    else
      var worker := WorkerFenceFault(db, result);
      if worker.Some? then worker
      else if attempt.acceptedResult.Some? && attempt.acceptedResult.value != r then Some(AttemptAlreadyAccepted)
      else if !Live(lease) then Some(LeaseNotCurrent(lease.state))
      else if lease.expiresAt <= now then Some(LeaseExpired)
      else if TerminalAttempt(attempt.status) && !attempt.status.Accepted? then Some(AttemptTerminal(attempt.status))
      else if TerminalTask(task.status) && !task.status.Accepted? then Some(TaskTerminal(task.status))
      else if result.taskRevision != lease.taskRevision then Some(ResultTaskRevisionMismatch)
      else if task.graphRevision != lease.taskRevision then Some(TaskRevisionMismatch)
      else if result.inputDigest != lease.inputDigest then Some(InputDigestMismatch)
      else if result.source != lease.source then Some(SourceRevisionMismatch)
      else
        var mission := MissionFenceFault(db, result, lease, task);
        if mission.Some? then mission
        else if !ReviewChecksPass(result.checks) then Some(ReviewChecksFailed)
        else if !(lease.reservationRefs <= result.reconciledRefs) then Some(ReservationsUnreconciled)
        else if OtherAccepted(db, r, result.attempt) then Some(DuplicateAcceptedResult)
        else None
  }

  function RejectMark(db: Db, r: Id, fault: Fault, keep: bool): Db
    requires r in db.results
  {
    if keep then
      db.(results := db.results[r := db.results[r].(
            state := AcceptanceState.Rejected, rejection := Some(fault), acceptedAt := None)])
    else db
  }

  function MarkAccepted(db: Db, r: Id, now: Time): Db
    requires r in db.results && db.results[r].lease in db.leases
    requires db.results[r].attempt in db.attempts && db.results[r].task in db.tasks
  {
    var result := db.results[r];
    var lease := db.leases[result.lease];
    var task := db.tasks[result.task];
    db.(results := db.results[r := result.(
          state := AcceptanceState.Accepted, acceptedAt := Some(now), rejection := None)],
        attempts := db.attempts[result.attempt := db.attempts[result.attempt].(
          status := AttemptStatus.Accepted, acceptedResult := Some(r),
          completedAt := Some(now), terminalAt := Some(now))],
        leases := if Live(lease) then db.leases[result.lease := lease.(state := Released)] else db.leases,
        tasks := if TerminalTask(task.status) then db.tasks
                 else db.tasks[result.task := task.(status := TaskStatus.Accepted)],
        outbox := db.outbox + [AcceptedResult(r)])
  }

  /** `keep` says whether the caller commits the rejection mark that a failing call leaves behind. */
  function Accept(db: Db, r: Id, now: Time, keep: bool): Step {
    if r !in db.results then Step(db, Refused(ResultNotFound)) else
    var result := db.results[r];
    if result.state.Accepted? then Step(db, Done(r))
    else if result.state.Rejected? || result.state.Superseded? then Step(db, Refused(ResultTerminal(result.state)))
    else if result.lease !in db.leases || result.attempt !in db.attempts || result.task !in db.tasks then
      Step(RejectMark(db, r, MissingFenceRows, keep), Refused(MissingFenceRows))
    else
      var fault := AcceptFence(db, r, result, db.leases[result.lease], db.attempts[result.attempt],
                               db.tasks[result.task], now);
      if fault.Some? then Step(RejectMark(db, r, fault.value, keep), Refused(fault.value))
      else Step(MarkAccepted(db, r, now), Done(r))
  }

  // ---- cancel and revoke ----

  function CancelOne(db: Db, l: Id, reason: string, now: Time): Db
    requires l in db.leases
  {
    var lease := db.leases[l];
    db.(leases := db.leases[l := lease.(state := LeaseState.Cancelled)],
        attempts := if lease.attempt in db.attempts && db.attempts[lease.attempt].acceptedResult.None?
                       && !TerminalAttempt(db.attempts[lease.attempt].status)
                    then db.attempts[lease.attempt := db.attempts[lease.attempt].(
                           status := AttemptStatus.Cancelled, terminalAt := Some(now))]
                    else db.attempts,
        tasks := if lease.task in db.tasks && db.tasks[lease.task].status.Leased?
                 then db.tasks[lease.task := db.tasks[lease.task].(
                        status := if reason == "cancelled" then TaskStatus.Cancelled else TaskStatus.Ready)]
                 else db.tasks,
        outbox := db.outbox + [CancelledLease(l, EpochSeconds(now))])
  }

  function CancelLease(db: Db, l: Id, reason: string, now: Time): Step {
    if l !in db.leases then Step(db, Refused(LeaseNotFound))
    else if !Live(db.leases[l]) then Step(db, Refused(LeaseNotActive(db.leases[l].state)))
    else Step(CancelOne(db, l, reason, now), Done(l))
  }

  function CancelAll(db: Db, ls: seq<Id>, reason: string, now: Time): (db': Db)
    requires forall l :: l in ls ==> l in db.leases
    ensures db'.missions == db.missions && db'.workers == db.workers && db'.results == db.results
    ensures db'.leases == map l | l in db.leases ::
              if l in ls then db.leases[l].(state := LeaseState.Cancelled) else db.leases[l]
    decreases |ls|
  {
    if ls == [] then db else CancelAll(CancelOne(db, ls[0], reason, now), ls[1..], reason, now)
  }

  /** The mission's live leases in lease-id order. */
  function LiveLeasesOf(db: Db, mission: Id): (ls: seq<Id>)
    ensures forall l :: l in ls <==> l in db.leases && db.leases[l].mission == mission && Live(db.leases[l])
    ensures Ascending(ls, TextLess)
  {
    TextOrderIsLinear();
    Enumerate((set l | l in db.leases && db.leases[l].mission == mission && Live(db.leases[l])), TextLess)
  }

  function BumpGeneration(db: Db, mission: Id): Db
    requires mission in db.missions
  {
    var m := db.missions[mission];
    db.(missions := db.missions[mission := m.(cancelGen := m.cancelGen + 1)],
        outbox := db.outbox + [BumpedGeneration(mission, m.cancelGen + 1)])
  }

  function Revoke(db: Db, mission: Id, reason: string, notify: bool, now: Time): Step {
    if mission !in db.missions then Step(db, Refused(MissionMissing)) else
    var bumped := BumpGeneration(db, mission);
    Step(if notify then CancelAll(bumped, LiveLeasesOf(bumped, mission), reason, now) else bumped, Done(mission))
  }

  function WithMission(db: Db, mission: Id, m: Mission): Db {
    db.(missions := db.missions[mission := m])
  }

  function CancelMission(db: Db, mission: Id, now: Time): Step {
    var revoked := Revoke(db, mission, "cancelled", true, now);
    if revoked.reply.Refused? then revoked
    else
      Step(WithMission(revoked.db, mission, revoked.db.missions[mission].(status := MissionStatus.Cancelled)),
           Done(mission))
  }

  // ---- graph commits ----

  datatype TaskSpec = TaskSpec(
    id: Id, project: Id, mission: Id, status: TaskStatus, priority: int,
    scopes: set<string>, deps: seq<Id>, required: set<string>)

  datatype Proposal = Proposal(mission: Id, basedOn: int, specs: seq<TaskSpec>)

  /** Insert or overwrite one task row; an existing row keeps its project, mission and age. */
  function UpsertTask(db: Db, spec: TaskSpec, revision: int, now: Time): Db {
    var row :=
      if spec.id in db.tasks then
        db.tasks[spec.id].(
          status := spec.status, graphRevision := revision, priority := spec.priority, scopes := spec.scopes,
          deps := spec.deps, required := spec.required, cancelGen := None, source := None, inputDigest := None)
      else
        Task(spec.project, spec.mission, spec.status, revision, spec.priority, now, spec.scopes, spec.deps,
             spec.required, None, None, None);
    db.(tasks := db.tasks[spec.id := row])
  }

  function UpsertAll(db: Db, specs: seq<TaskSpec>, revision: int, now: Time): (db': Db)
    ensures db' == db.(tasks := db'.tasks)
    decreases |specs|
  {
    if specs == [] then db
    else UpsertAll(UpsertTask(db, specs[0], revision, now), specs[1..], revision, now)
  }

  function BumpRevision(db: Db, mission: Id): Db
    requires mission in db.missions
  {
    var m := db.missions[mission];
    WithMission(db, mission, m.(revision := m.revision + 1))
  }

  function CommitGraph(db: Db, p: Proposal, now: Time): Step {
    if p.mission !in db.missions then Step(db, Refused(MissionMissing))
    else if db.missions[p.mission].revision != p.basedOn then Step(db, Refused(GraphRevisionConflict))
    else Step(UpsertAll(BumpRevision(db, p.mission), p.specs, p.basedOn + 1, now), Done(p.mission))
  }

  /** Every spec names a task of the proposal's own mission. */
  predicate HomeProposal(db: Db, p: Proposal) {
    forall i :: 0 <= i < |p.specs| ==>
      && p.specs[i].mission == p.mission
      && (p.specs[i].id in db.tasks ==> db.tasks[p.specs[i].id].mission == p.mission)
  }

  // ---- worker registrations ----

  datatype WorkerOp =
    | Register(project: Id, generation: int, status: WorkerStatus, token: string,
               capabilities: set<string>, privacy: set<string>)
    | Rotate(currentToken: string, newToken: string)
    | RevokeWorker(now: Time)
    | Drain
    | Heartbeat(token: string, generation: int, reported: Option<WorkerStatus>)
    | Advertise(token: string, generation: int, fewer: Option<set<string>>, fewerPrivacy: Option<set<string>>)

  function MemberFault(db: Db, worker: Id, token: string): Option<Fault> {
    if worker !in db.workers then Some(WorkerNotFound)
    else if db.workers[worker].revokedAt.Some? then Some(WorkerRevoked)
    else if db.workers[worker].tokenHash != Some(token) then Some(InvalidMembershipToken)
    else None
  }

  function WithWorker(db: Db, worker: Id, w: Worker): Step {
    Step(db.(workers := db.workers[worker := w]), Done(worker))
  }

  function ReportedStatus(current: WorkerStatus, reported: Option<WorkerStatus>): WorkerStatus {
    match reported
    case Some(Draining) => if current.Online? then Draining else current
    case Some(Offline) => if current.Draining? then Offline else current
    case Some(Online) => if current.Offline? then Online else current
    case _ => current
  }

  function ApplyWorker(db: Db, worker: Id, op: WorkerOp): Step {
    match op
    case Register(project, generation, status, token, capabilities, privacy) =>
      var revokedAt := if worker in db.workers then db.workers[worker].revokedAt else None;
      WithWorker(db, worker,
                 Worker(Some(project), generation, status, Some(token), capabilities,
                        if privacy == {} then {"local"} else privacy, revokedAt))
    case Rotate(currentToken, newToken) =>
      var fault := MemberFault(db, worker, currentToken);
      if fault.Some? then Step(db, Refused(fault.value)) else
      var w := db.workers[worker];
      WithWorker(db, worker, w.(tokenHash := Some(newToken), generation := w.generation + 1))
    case RevokeWorker(now) =>
      if worker !in db.workers then Step(db, Refused(WorkerNotFound)) else
      var w := db.workers[worker];
      WithWorker(db, worker,
                 w.(revokedAt := Some(now), status := Quarantined, generation := w.generation + 1, tokenHash := None))
    case Drain =>
      if worker !in db.workers then Step(db, Refused(WorkerNotFound)) else
      var w := db.workers[worker];
      if w.revokedAt.Some? || w.status.Quarantined? then Step(db, Done(worker))
      else WithWorker(db, worker, w.(status := Draining))
    case Heartbeat(token, generation, reported) =>
      var fault := MemberFault(db, worker, token);
      if fault.Some? then Step(db, Refused(fault.value)) else
      var w := db.workers[worker];
      if w.generation != generation then Step(db, Refused(WorkerGenerationMismatch))
      else if w.status.Quarantined? then Step(db, Refused(WorkerStatusFault(w.status)))
      else WithWorker(db, worker, w.(status := ReportedStatus(w.status, reported)))
    case Advertise(token, generation, fewer, fewerPrivacy) =>
      var fault := MemberFault(db, worker, token);
      if fault.Some? then Step(db, Refused(fault.value)) else
      var w := db.workers[worker];
      if w.generation != generation then Step(db, Refused(WorkerGenerationMismatch))
      else if fewer.Some? && !(fewer.value <= w.capabilities) then Step(db, Refused(CapabilityExpansion))
      else if fewerPrivacy.Some? && !(fewerPrivacy.value <= w.privacy) then Step(db, Refused(PrivacyExpansion))
      else
        WithWorker(db, worker,
                   w.(capabilities := if fewer.Some? then fewer.value else w.capabilities,
                      privacy := if fewerPrivacy.Some? then fewerPrivacy.value else w.privacy))
  }

  // ---- one step of the whole system ----

  datatype Op =
    | OpClaim(worker: Id, token: string, now: Time, asked: Option<int>, hidden: set<Id>, newAttempt: Id, newLease: Id)
    | OpRenew(lease: Id, worker: Id, generation: int, token: string, asked: Option<int>, now: Time)
    | OpExpire(batch: seq<Id>, now: Time, project: Option<Id>, limit: nat, hidden: set<Id>)
    | OpSubmit(lease: Id, worker: Id, token: string, generation: int, checks: Checks, refs: set<string>,
               now: Time, result: Id)
    | OpAccept(result: Id, now: Time, keep: bool)
    | OpCancelLease(lease: Id, reason: string, now: Time)
    | OpRevoke(mission: Id, reason: string, notify: bool, now: Time)
    | OpCancelMission(mission: Id, now: Time)
    | OpCommit(proposal: Proposal, now: Time)
    | OpWorker(worker: Id, op: WorkerOp)
    | OpInsertMission(mission: Id, row: Mission)
    | OpMissionStatus(mission: Id, status: MissionStatus)
    | OpMissionSource(mission: Id, source: Option<string>)

  /** An expiry scan answers its query; that is all the steps themselves rely on. */
  predicate Feasible(db: Db, op: Op) {
    op.OpExpire? ==> IsExpiryBatch(db, op.batch, op.now, op.project, op.limit, op.hidden)
  }

  /** What the environment guarantees: an expiry batch answers its query, graph proposals stay in
      their own mission, and no outside writer revives a cancelled mission. */
  predicate Admissible(db: Db, op: Op) {
    match op
    case OpExpire(batch, now, project, limit, hidden) => IsExpiryBatch(db, batch, now, project, limit, hidden)
    case OpCommit(proposal, _) => HomeProposal(db, proposal)
    case OpMissionStatus(mission, status) => mission in db.missions ==> !db.missions[mission].status.Cancelled?
    case _ => true
  }

  function Apply(cfg: Config, db: Db, op: Op): Step
    requires Feasible(db, op)
  {
    match op
    case OpClaim(worker, token, now, asked, hidden, a, l) => Claim(cfg, db, worker, token, now, asked, hidden, a, l)
    case OpRenew(lease, worker, generation, token, asked, now) =>
      Renew(cfg, db, lease, worker, generation, token, asked, now)
    case OpExpire(batch, now, _, _, _) => Step(ExpireAll(db, batch, now), Idle)
    case OpSubmit(lease, worker, token, generation, checks, refs, now, result) =>
      Submit(db, lease, worker, token, generation, checks, refs, now, result)
    case OpAccept(result, now, keep) => Accept(db, result, now, keep)
    case OpCancelLease(lease, reason, now) => CancelLease(db, lease, reason, now)
    case OpRevoke(mission, reason, notify, now) => Revoke(db, mission, reason, notify, now)
    case OpCancelMission(mission, now) => CancelMission(db, mission, now)
    case OpCommit(proposal, now) => CommitGraph(db, proposal, now)
    case OpWorker(worker, wop) => ApplyWorker(db, worker, wop)
    case OpInsertMission(mission, row) =>
      if mission in db.missions then Step(db, Refused(IntegrityError))
      else Step(WithMission(db, mission, row), Done(mission))
    case OpMissionStatus(mission, status) =>
      if mission !in db.missions then Step(db, Refused(MissionMissing))
      else Step(WithMission(db, mission, db.missions[mission].(status := status)), Done(mission))
    case OpMissionSource(mission, source) =>
      if mission !in db.missions then Step(db, Refused(MissionMissing))
      else Step(WithMission(db, mission, db.missions[mission].(source := source)), Done(mission))
  }
}
