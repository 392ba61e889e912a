/** What every step of the lease protocol keeps. */
module LeaseInvariant {
  import opened Common
  import opened LeaseRows
  import opened LeaseProtocol

  // Each conjunct quantifies over a predicate of row ids, so that a proof names the rows it uses.

  ghost predicate TaskOk(db: Db, t: Id) {
    t in db.tasks ==>
      && db.tasks[t].mission in db.missions
      && db.tasks[t].graphRevision <= db.missions[db.tasks[t].mission].revision
  }

  ghost predicate TasksOk(db: Db) {
    forall t :: TaskOk(db, t)
  }

  /** A lease and its attempt carry the same stamps. */
  ghost predicate StampedAlike(lease: Lease, attempt: Attempt) {
    && attempt.task == lease.task
    && attempt.mission == Some(lease.mission)
    && attempt.project == Some(lease.project)
    && attempt.worker == lease.worker
    && attempt.generation == lease.generation
    && attempt.taskRevision == lease.taskRevision
    && attempt.inputDigest == lease.inputDigest
    && attempt.source == lease.source
    && attempt.cancelGen == lease.cancelGen
  }

  /** The attempt's status follows the lease's state. */
  ghost predicate Mirrors(lease: Lease, attempt: Attempt) {
    match lease.state
    case Expired => attempt.status.Expired? && attempt.acceptedResult.None?
    case Cancelled => attempt.status.Cancelled? && attempt.acceptedResult.None?
    case Released => attempt.status.Accepted? && attempt.acceptedResult.Some?
    case _ =>
      attempt.status.Leased? && attempt.acceptedResult.None? && attempt.terminalAt.None? && attempt.completedAt.None?
  }

  function Horizon(cfg: Config, lease: Lease): Time {
    lease.issuedAt + cfg.horizonSeconds * SECOND
  }

  /** A lease belongs to its task's mission and project and is never ahead of either. */
  ghost predicate Anchored(db: Db, l: Id) {
    l in db.leases ==>
      var lease := db.leases[l];
      && lease.task in db.tasks
      && lease.mission in db.missions
      && lease.mission == db.tasks[lease.task].mission
      && lease.project == db.tasks[lease.task].project
      && lease.project == db.missions[lease.mission].project
      && lease.taskRevision <= db.tasks[lease.task].graphRevision
      && 0 <= lease.cancelGen <= db.missions[lease.mission].cancelGen
      && lease.source.Some?
  }

  ghost predicate LeasesAnchored(db: Db) {
    forall l :: Anchored(db, l)
  }

  ghost predicate Windowed(cfg: Config, db: Db, l: Id) {
    l in db.leases ==>
      && db.leases[l].renewableUntil == Some(Horizon(cfg, db.leases[l]))
      && db.leases[l].expiresAt <= Horizon(cfg, db.leases[l])
  }

  ghost predicate LeasesWindowed(cfg: Config, db: Db) {
    forall l :: Windowed(cfg, db, l)
  }

  ghost predicate Matched(db: Db, l: Id) {
    l in db.leases ==>
      && db.leases[l].attempt in db.attempts
      && StampedAlike(db.leases[l], db.attempts[db.leases[l].attempt])
      && Mirrors(db.leases[l], db.attempts[db.leases[l].attempt])
  }

  ghost predicate LeasesMatched(db: Db) {
    forall l :: Matched(db, l)
  }

  ghost predicate Unshared(db: Db, k: Id, l: Id) {
    k in db.leases && l in db.leases && db.leases[k].attempt == db.leases[l].attempt ==> k == l
  }

  /** No attempt has two leases … */
  ghost predicate AttemptsUnshared(db: Db) {
    forall k, l :: Unshared(db, k, l)
  }

  ghost predicate Owned(db: Db, a: Id) {
    a in db.attempts ==> exists l :: l in db.leases && db.leases[l].attempt == a
  }

  /** … and none is without one. */
  ghost predicate AttemptsOwned(db: Db) {
    forall a :: Owned(db, a)
  }

  ghost predicate NotBothLive(db: Db, k: Id, l: Id) {
    k in db.leases && l in db.leases && Live(db.leases[k]) && Live(db.leases[l]) ==>
      (db.leases[k].task == db.leases[l].task ==> k == l)
  }

  ghost predicate OneLiveLease(db: Db) {
    forall k, l :: NotBothLive(db, k, l)
  }

  ghost predicate HoldsDependencies(db: Db, l: Id) {
    l in db.leases && Live(db.leases[l]) ==>
      var lease := db.leases[l];
      lease.task in db.tasks && lease.mission in db.missions &&
      db.missions[lease.mission].revision == lease.taskRevision
      ==> DependenciesSatisfied(db, db.tasks[lease.task])
  }

  /** While no graph commit follows the claim, the dependencies checked at claim time stay done. */
  ghost predicate DependenciesHeld(db: Db) {
    forall l :: HoldsDependencies(db, l)
  }

  ghost predicate HoldsTask(db: Db, l: Id) {
    l in db.leases && Live(db.leases[l]) ==>
      var lease := db.leases[l];
      lease.task in db.tasks && lease.mission in db.missions ==>
        (db.missions[lease.mission].revision == lease.taskRevision ==> db.tasks[lease.task].status.Leased?)
  }

  /** … and so does the leased status of the task. */
  ghost predicate TasksHeld(db: Db) {
    forall l :: HoldsTask(db, l)
  }

  /** A result repeats the stamps of the lease it was submitted under. */
  ghost predicate Copies(result: WorkerResult, lease: Lease) {
    && result.attempt == lease.attempt
    && result.task == lease.task
    && result.mission == lease.mission
    && result.project == lease.project
    && result.worker == lease.worker
    && result.generation == lease.generation
    && result.taskRevision == lease.taskRevision
    && result.inputDigest == lease.inputDigest
    && result.source == lease.source
  }

  ghost predicate ResultOk(db: Db, r: Id) {
    r in db.results ==> db.results[r].lease in db.leases && Copies(db.results[r], db.leases[db.results[r].lease])
  }

  ghost predicate ResultsOk(db: Db) {
    forall r :: ResultOk(db, r)
  }

  ghost predicate IsAccepted(db: Db, r: Id) {
    r in db.results && db.results[r].state.Accepted?
  }

  /** The task has moved past the accepted revision, or sits accepted with nothing in flight. */
  ghost predicate Settled(db: Db, r: Id) {
    IsAccepted(db, r) ==>
      var t := db.results[r].task;
      && t in db.tasks
      && (|| db.results[r].taskRevision < db.tasks[t].graphRevision
          || (db.tasks[t].status.Accepted? && !HasLiveLease(db, t)))
  }

  ghost predicate AcceptedSettled(db: Db) {
    forall r :: Settled(db, r)
  }

  /** Acceptance released the lease and is recorded on the attempt. */
  ghost predicate Sealed(db: Db, r: Id) {
    IsAccepted(db, r) ==>
      var result := db.results[r];
      && result.lease in db.leases
      && db.leases[result.lease].state.Released?
      && result.attempt in db.attempts
      && db.attempts[result.attempt].acceptedResult == Some(r)
      && result.acceptedAt.Some?
  }

  ghost predicate AcceptedSealed(db: Db) {
    forall r :: Sealed(db, r)
  }

  ghost predicate NotBothAccepted(db: Db, q: Id, r: Id) {
    IsAccepted(db, q) && IsAccepted(db, r) ==>
      (db.results[q].task == db.results[r].task && db.results[q].taskRevision == db.results[r].taskRevision ==> q == r)
  }

  /** At most one accepted result per task and graph revision. */
  ghost predicate AcceptedOnce(db: Db) {
    forall q, r :: NotBothAccepted(db, q, r)
  }

  ghost predicate OutboxDistinct(db: Db) {
    forall i, j :: 0 <= i < j < |db.outbox| ==> db.outbox[i] != db.outbox[j]
  }

  /** The fact of the other tables that an outbox entry announces. */
  ghost predicate Recorded(db: Db, e: WorkflowId) {
    match e
    case ClaimedAttempt(a) => a in db.attempts
    case SubmittedResult(r) => r in db.results
    case AcceptedResult(r) => IsAccepted(db, r)
    case BumpedGeneration(m, g) => m in db.missions && g <= db.missions[m].cancelGen
    case CancelledLease(l, _) => l in db.leases && db.leases[l].state.Cancelled?
  }

  ghost predicate CancellationAnnounced(db: Db, l: Id) {
    l in db.leases && db.leases[l].state.Cancelled? ==> exists s :: CancelledLease(l, s) in db.outbox
  }

  ghost predicate OutboxSound(db: Db) {
    forall e :: e in db.outbox ==> Recorded(db, e)
  }

  /** Every claim, submission, acceptance and lease cancellation of this id has been announced. */
  ghost predicate Announced(db: Db, x: Id) {
    && (x in db.attempts ==> ClaimedAttempt(x) in db.outbox)
    && (x in db.results ==> SubmittedResult(x) in db.outbox)
    && (IsAccepted(db, x) ==> AcceptedResult(x) in db.outbox)
    && CancellationAnnounced(db, x)
  }

  ghost predicate OutboxComplete(db: Db) {
    forall x :: Announced(db, x)
  }

  ghost predicate CancelledApart(db: Db, i: int, j: int) {
    0 <= i < j < |db.outbox| && db.outbox[i].CancelledLease? && db.outbox[j].CancelledLease? ==>
      db.outbox[i].lease != db.outbox[j].lease
  }

  /** A lease is announced as cancelled once, whatever the second in the entry's id. */
  ghost predicate CancelledOnce(db: Db) {
    forall i, j :: CancelledApart(db, i, j)
  }

  ghost predicate OutboxInv(db: Db) {
    OutboxDistinct(db) && OutboxSound(db) && OutboxComplete(db) && CancelledOnce(db)
  }

  ghost predicate AnchorInv(cfg: Config, db: Db) {
    TasksOk(db) && LeasesAnchored(db) && LeasesWindowed(cfg, db)
  }

  ghost predicate PairInv(db: Db) {
    LeasesMatched(db) && AttemptsUnshared(db) && OneLiveLease(db)
  }

  ghost predicate ResultInv(db: Db) {
    && ResultsOk(db)
    && AcceptedSealed(db)
    && AcceptedSettled(db)
    && AcceptedOnce(db)
  }

  ghost predicate Inv(cfg: Config, db: Db) {
    && AnchorInv(cfg, db)
    && PairInv(db)
    && AttemptsOwned(db)
    && DependenciesHeld(db)
    && TasksHeld(db)
    && ResultInv(db)
    && OutboxInv(db)
  }

  /** A database before any work was leased. */
  ghost predicate Pristine(db: Db) {
    && TasksOk(db)
    && db.attempts == map[] && db.leases == map[] && db.results == map[] && db.outbox == []
  }

  lemma PristineIsInv(cfg: Config, db: Db)
    requires Pristine(db)
    ensures Inv(cfg, db)
  {
  }
}
