/** The durable rows behind the lease protocol: missions, tasks, worker registrations,
    attempts, leases, results and the transactional outbox. */
module LeaseRows {
  import opened Common

  datatype MissionStatus =
    | Draft | Planning | Running | WaitingCapacity | WaitingInput | WaitingApproval
    | Verifying | Completed | Failed | Cancelled

  datatype TaskStatus =
    | Proposed | Ready | Leased | Running | WaitingChildren | WaitingCapacity | WaitingApproval
    | Verifying | Accepted | Rejected | Failed | Cancelled | Superseded | Completed

  datatype AttemptStatus =
    | Pending | Leased | Running | Succeeded | Failed | Cancelled | Expired | Accepted

  datatype LeaseState = Active | Renewed | Expired | Released | Cancelled

  datatype AcceptanceState = Submitted | Accepted | Rejected | Superseded

  datatype WorkerStatus = Online | Draining | Offline | Quarantined

  /** `source` is the explicit source revision of the payload, when it has one. */
  datatype Mission = Mission(
    project: Id,
    status: MissionStatus,
    revision: int,
    cancelGen: int,
    source: Option<string>)

  /** The last four fields come from the task's JSON payload. */
  datatype Task = Task(
    project: Id,
    mission: Id,
    status: TaskStatus,
    graphRevision: int,
    priority: int,
    createdAt: Time,
    scopes: set<string>,
    deps: seq<Id>,
    required: set<string>,
    cancelGen: Option<int>,
    source: Option<string>,
    inputDigest: Option<string>)

  /** A membership token is identified with its digest. */
  datatype Worker = Worker(
    project: Option<Id>,
    generation: int,
    status: WorkerStatus,
    tokenHash: Option<string>,
    capabilities: set<string>,
    privacy: set<string>,
    revokedAt: Option<Time>)

  datatype Attempt = Attempt(
    task: Id,
    project: Option<Id>,
    mission: Option<Id>,
    worker: Id,
    generation: int,
    taskRevision: int,
    inputDigest: Option<string>,
    source: Option<string>,
    cancelGen: int,
    status: AttemptStatus,
    startedAt: Time,
    completedAt: Option<Time>,
    terminalAt: Option<Time>,
    acceptedResult: Option<Id>)

  datatype Lease = Lease(
    attempt: Id,
    task: Id,
    mission: Id,
    project: Id,
    worker: Id,
    generation: int,
    taskRevision: int,
    inputDigest: Option<string>,
    source: Option<string>,
    cancelGen: int,
    state: LeaseState,
    issuedAt: Time,
    expiresAt: Time,
    renewableUntil: Option<Time>,
    reservationRefs: set<string>)

  /** Review markers of a submitted result; anything but a JSON boolean counts as absent. */
  datatype Checks = Checks(reviewPassed: Option<bool>, verificationPassed: Option<bool>)

  datatype WorkerResult = WorkerResult(
    attempt: Id,
    lease: Id,
    task: Id,
    mission: Id,
    project: Id,
    worker: Id,
    generation: int,
    taskRevision: int,
    inputDigest: Option<string>,
    source: Option<string>,
    checks: Checks,
    reconciledRefs: set<string>,
    state: AcceptanceState,
    submittedAt: Time,
    rejection: Option<Fault>,
    acceptedAt: Option<Time>)

  /** The stable workflow id of an outbox row; its constructor determines the event type. */
  datatype WorkflowId =
    | ClaimedAttempt(attempt: Id)
    | SubmittedResult(result: Id)
    | AcceptedResult(result: Id)
    | BumpedGeneration(mission: Id, generation: int)
    | CancelledLease(lease: Id, second: int)

  /** Reasons carried by the exceptions of the service and of the repositories. */
  datatype Fault =
    | WorkerNotFound | WorkerRevoked | WorkerStatusFault(workerStatus: WorkerStatus)
    | InvalidMembershipToken | WorkerMissingProject | WorkerGenerationMismatch
    | CapabilityExpansion | PrivacyExpansion
    | LeaseNotFound | LeaseWorkerMismatch | LeaseProjectMismatch | LeaseGenerationMismatch
    | LeaseNotRenewable(leaseState: LeaseState) | LeaseAlreadyExpired
    | TaskMissing | TaskTerminal(taskStatus: TaskStatus) | TaskProjectMismatch
    | TaskRevisionMismatch | AttemptMissing | AttemptLeaseMismatch | AttemptProjectMismatch
    | AttemptTerminal(attemptStatus: AttemptStatus) | AttemptTerminalAtSet | AttemptCompleted
    | AttemptAcceptedResult | AuthorityStale | SourceRevisionStale
    | CancellationGenerationStale | AttemptSourceStale | AttemptCancellationStale
    | AttemptRevisionStale | PastRenewableUntil | NoPositiveRenewalWindow
    | ResultNotFound | ResultTerminal(acceptance: AcceptanceState) | MissingFenceRows
    | ProjectMismatch | ResultTaskMismatch | ResultGenerationMismatch
    | WorkerGenerationStale | WorkerProjectMismatch | AttemptAlreadyAccepted
    | LeaseNotCurrent(current: LeaseState) | LeaseExpired | ResultTaskRevisionMismatch
    | InputDigestMismatch | SourceRevisionMismatch | MissionMissing | MissionProjectMismatch
    | MissionCancelled | MissionNotRunnable(missionStatus: MissionStatus)
    | TaskCancellationStale | ReviewChecksFailed | ReservationsUnreconciled
    | DuplicateAcceptedResult | LeaseNotActive(inactive: LeaseState)
    | GraphRevisionConflict | IntegrityError

  datatype Db = Db(
    missions: map<Id, Mission>,
    tasks: map<Id, Task>,
    workers: map<Id, Worker>,
    attempts: map<Id, Attempt>,
    leases: map<Id, Lease>,
    results: map<Id, WorkerResult>,
    outbox: seq<WorkflowId>)

  /** What a service call hands back: the row it wrote, nothing to do, or an exception. */
  datatype Reply = Done(row: Id) | Idle | Refused(fault: Fault)

  datatype Step = Step(db: Db, reply: Reply)

  /** Service settings: default lease length, renewable horizon and claim page size. */
  datatype Config = Config(defaultSeconds: int, horizonSeconds: int, pageSize: int)

  // ---- status classes ----

  predicate Runnable(s: MissionStatus) {
    s.Planning? || s.Running? || s.WaitingCapacity? || s.WaitingInput? || s.WaitingApproval? || s.Verifying?
  }

  predicate DependencyDone(s: TaskStatus) {
    s.Accepted? || s.Completed?
  }

  predicate TerminalTask(s: TaskStatus) {
    s.Accepted? || s.Rejected? || s.Failed? || s.Cancelled? || s.Superseded?
  }

  predicate TerminalAttempt(s: AttemptStatus) {
    s.Succeeded? || s.Failed? || s.Cancelled? || s.Expired? || s.Accepted?
  }

  predicate Live(l: Lease) {
    l.state.Active? || l.state.Renewed?
  }

  // ---- claim order ----

  /** The keyset cursor of the claim scan. */
  datatype Key = Key(priority: int, createdAt: Time, id: Id)

  predicate KeyLess(a: Key, b: Key) {
    || a.priority < b.priority
    || (a.priority == b.priority && a.createdAt < b.createdAt)
    || (a.priority == b.priority && a.createdAt == b.createdAt && TextLess(a.id, b.id))
  }

  function KeyOf(t: Id, row: Task): Key {
    Key(row.priority, row.createdAt, t)
  }

  lemma KeyTransitive(a: Key, b: Key, c: Key)
    requires KeyLess(a, b) && KeyLess(b, c)
    ensures KeyLess(a, c)
  {
    if a.priority == b.priority == c.priority && a.createdAt == b.createdAt == c.createdAt {
      TextTransitive(a.id, b.id, c.id);
    }
  }

  lemma KeyTrichotomy(a: Key, b: Key)
    ensures KeyLess(a, b) || a == b || KeyLess(b, a)
    ensures !(KeyLess(a, b) && KeyLess(b, a))
  {
    TextTrichotomy(a.id, b.id);
  }

  // ---- workflow text ----

  /** The text stored in the unique `stable_workflow_id` column. */
  function WorkflowText(w: WorkflowId): (text: string) {
    match w
    case ClaimedAttempt(a) => "attempt:" + a
    case SubmittedResult(r) => "result:" + r
    case AcceptedResult(r) => "result-accept:" + r
    case BumpedGeneration(m, g) => "mission-cancel-gen:" + m + ":" + Decimal(g)
    case CancelledLease(l, s) => "lease-cancel:" + l + ":" + Decimal(s)
  }

  function WorkflowStem(w: WorkflowId): string {
    match w
    case ClaimedAttempt(_) => "attempt:"
    case SubmittedResult(_) => "result:"
    case AcceptedResult(_) => "result-accept:"
    case BumpedGeneration(_, _) => "mission-cancel-gen:"
    case CancelledLease(_, _) => "lease-cancel:"
  }

  function WorkflowTail(w: WorkflowId): string {
    match w
    case ClaimedAttempt(a) => a
    case SubmittedResult(r) => r
    case AcceptedResult(r) => r
    case BumpedGeneration(m, g) => m + ":" + Decimal(g)
    case CancelledLease(l, s) => l + ":" + Decimal(s)
  }

  lemma WorkflowTextParts(w: WorkflowId)
    ensures WorkflowText(w) == WorkflowStem(w) + WorkflowTail(w)
  {
  }

  lemma SameStem(v: WorkflowId, w: WorkflowId)
    requires WorkflowText(v) == WorkflowText(w)
    ensures WorkflowStem(v) == WorkflowStem(w)
  {
    WorkflowTextParts(v);
    WorkflowTextParts(w);
    var text := WorkflowText(v);
    assert text[0] == WorkflowStem(v)[0] == WorkflowStem(w)[0];
    assert |text| > 6 && text[6] == WorkflowStem(v)[6] == WorkflowStem(w)[6];
  }

  lemma SameTail(v: WorkflowId, w: WorkflowId)
    requires WorkflowText(v) == WorkflowText(w) && WorkflowStem(v) == WorkflowStem(w)
    ensures WorkflowTail(v) == WorkflowTail(w)
  {
    WorkflowTextParts(v);
    WorkflowTextParts(w);
    var stem := WorkflowStem(v);
    assert WorkflowText(v)[|stem|..] == WorkflowTail(v);
    assert WorkflowText(w)[|stem|..] == WorkflowTail(w);
  }

  /** Distinct outbox entries never render to the same unique-constrained text. */
  lemma WorkflowTextInjective(v: WorkflowId, w: WorkflowId)
    requires WorkflowText(v) == WorkflowText(w)
    ensures v == w
  {
    SameStem(v, w);
    SameTail(v, w);
    match v
    case ClaimedAttempt(_) =>
    case SubmittedResult(_) =>
    case AcceptedResult(_) =>
    case BumpedGeneration(m, g) => KeyedTextInjective(m, g, w.mission, w.generation);
    case CancelledLease(l, s) => KeyedTextInjective(l, s, w.lease, w.second);
  }
}
