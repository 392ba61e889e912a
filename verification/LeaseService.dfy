/** The service and repository calls as they run: row by row against the tables of a session.
    Each is proved to make exactly the step that LeaseProtocol describes. */
module LeaseService {
  import opened Common
  import opened Ordering
  import opened LeaseRows
  import opened LeaseProtocol

  class Session {
    var missions: map<Id, Mission>
    var tasks: map<Id, Task>
    var workers: map<Id, Worker>
    var attempts: map<Id, Attempt>
    var leases: map<Id, Lease>
    var results: map<Id, WorkerResult>
    var outbox: seq<WorkflowId>

    function Snapshot(): Db
      reads this
    {
      Db(missions, tasks, workers, attempts, leases, results, outbox)
    }
  }

  // ---- the claim query ----

  /** Keys of the visible ready tasks of a project. */
  function ReadyKeys(db: Db, project: Id, hidden: set<Id>): (keys: set<Key>)
    ensures forall k :: k in keys <==>
              && k.id in db.tasks && k == KeyOf(k.id, db.tasks[k.id]) && k.id !in hidden
              && db.tasks[k.id].project == project && db.tasks[k.id].status.Ready?
  {
    set t | t in db.tasks && t !in hidden && db.tasks[t].project == project && db.tasks[t].status.Ready? ::
      KeyOf(t, db.tasks[t])
  }

  predicate Beyond(after: Option<Key>, k: Key) {
    after.Some? ==> KeyLess(after.value, k)
  }

  function ReadyBeyond(db: Db, project: Id, hidden: set<Id>, after: Option<Key>): (keys: set<Key>)
    ensures forall k :: k in keys <==> k in ReadyKeys(db, project, hidden) && Beyond(after, k)
  {
    set k | k in ReadyKeys(db, project, hidden) && Beyond(after, k)
  }

  /** `page` is the first `limit` rows of `rows` in ascending order. */
  ghost predicate IsPage(page: seq<Key>, rows: set<Key>, limit: nat) {
    && Ascending(page, KeyLess)
    && |page| <= limit
    && (forall k :: k in page ==> k in rows)
    && (forall k :: k in rows && k !in page ==> |page| == limit && forall p :: p in page ==> KeyLess(p, k))
  }

  /** The first target on a page is the least of all targets. */
  lemma FirstOnPageIsLeast(page: seq<Key>, rows: set<Key>, limit: nat, targets: set<Key>, i: nat)
    requires IsPage(page, rows, limit) && targets <= rows && i < |page| && page[i] in targets
    requires forall j :: 0 <= j < i ==> page[j] !in targets
    requires StrictLinear(KeyLess)
    ensures Least(targets, KeyLess) == page[i]
  {
    forall k | k in targets && k != page[i] ensures KeyLess(page[i], k) {
      if k in page {
        var j :| 0 <= j < |page| && page[j] == k;
        assert i < j;
      }
    }
    var m := Least(targets, KeyLess);
    KeyTrichotomy(m, page[i]);
  }

  /** A page without targets leaves them all beyond its last row, or shows there are none. */
  lemma PageWithoutTargets(page: seq<Key>, rows: set<Key>, limit: nat, targets: set<Key>)
    requires IsPage(page, rows, limit) && targets <= rows && page != []
    requires forall j :: 0 <= j < |page| ==> page[j] !in targets
    ensures forall k :: k in targets ==> KeyLess(page[|page| - 1], k)
    ensures |page| < limit ==> targets == {}
  {
    forall k | k in targets ensures KeyLess(page[|page| - 1], k) && |page| == limit {
      assert k in rows && k !in page;
    }
  }

  function DueKeys(db: Db, now: Time, project: Option<Id>, hidden: set<Id>): (keys: set<Key>)
    ensures forall k :: k in keys <==>
              Due(db, k.id, now, project) && k.id !in hidden && k == Key(0, db.leases[k.id].expiresAt, k.id)
  {
    set l | l in db.leases && Due(db, l, now, project) && l !in hidden :: Key(0, db.leases[l].expiresAt, l)
  }

  lemma FirstDueAreBatch(db: Db, now: Time, project: Option<Id>, limit: nat, hidden: set<Id>,
                         rows: seq<Key>, batch: seq<Id>)
    requires Ascending(rows, KeyLess) && forall k :: k in rows <==> k in DueKeys(db, now, project, hidden)
    requires |batch| == Min(limit, |rows|) && forall i :: 0 <= i < |batch| ==> batch[i] == rows[i].id
    ensures IsExpiryBatch(db, batch, now, project, limit, hidden)
  {
    forall i | 0 <= i < |batch| ensures Due(db, batch[i], now, project) && batch[i] !in hidden {
      assert rows[i] in rows;
    }
    forall i, j | 0 <= i < j < |batch|
      ensures batch[i] != batch[j] && db.leases[batch[i]].expiresAt <= db.leases[batch[j]].expiresAt
    {
      assert rows[i] in rows && rows[j] in rows && KeyLess(rows[i], rows[j]);
      KeyTrichotomy(rows[i], rows[j]);
    }
    forall l | l in db.leases && Due(db, l, now, project) && l !in hidden && l !in batch
      ensures |batch| == limit
      ensures forall i :: 0 <= i < |batch| ==> db.leases[batch[i]].expiresAt <= db.leases[l].expiresAt
    {
      var k := Key(0, db.leases[l].expiresAt, l);
      assert k in rows;
      var j :| 0 <= j < |rows| && rows[j] == k;
      assert j >= |batch|;
      forall i | 0 <= i < |batch| ensures db.leases[batch[i]].expiresAt <= db.leases[l].expiresAt {
        assert rows[i] in rows && KeyLess(rows[i], rows[j]);
      }
    }
  }

  class LeaseLifecycleService {
    const session: Session
    const cfg: Config

    constructor (session: Session, cfg: Config)
      ensures this.session == session && this.cfg == cfg
    {
      this.session := session;
      this.cfg := cfg;
    }

    method LockReadyCandidates(project: Id, limit: nat, after: Option<Key>, hidden: set<Id>) returns (page: seq<Key>)
      ensures IsPage(page, ReadyBeyond(session.Snapshot(), project, hidden, after), limit)
    {
      KeyOrderIsLinear();
      var rows := Enumerate(ReadyBeyond(session.Snapshot(), project, hidden, after), KeyLess);
      page := rows[..Min(limit, |rows|)];
      assert rows == page + rows[|page|..];
    }

    /** Scans pages of ready tasks until one is claimable; the page size never shows in the outcome. */
    method ClaimEligibleAttempt(worker: Id, token: string, now: Time, asked: Option<int>, hidden: set<Id>,
                                newAttempt: Id, newLease: Id) returns (reply: Reply)
      modifies session
      ensures Step(session.Snapshot(), reply)
              == Claim(cfg, old(session.Snapshot()), worker, token, now, asked, hidden, newAttempt, newLease)
    {
      ghost var db := session.Snapshot();
      var fault := ClaimantFault(session.Snapshot(), worker, token);
      if fault.Some? {
        return Refused(fault.value);
      }
      var w := session.workers[worker];
      if w.project.None? || w.project.value == "" {
        return Refused(WorkerMissingProject);
      }
      KeyOrderIsLinear();
      ghost var targets := ClaimKeys(db, w, hidden);
      var pageSize := Max(1, cfg.pageSize);
      var after: Option<Key> := None;
      while true
        invariant session.Snapshot() == db
        invariant forall k :: k in targets ==> Beyond(after, k)
        decreases ReadyBeyond(db, w.project.value, hidden, after)
      {
        ghost var rows := ReadyBeyond(db, w.project.value, hidden, after);
        assert targets <= rows;
        var page := LockReadyCandidates(w.project.value, pageSize, after, hidden);
        if page == [] {
          return Idle;
        }
        ghost var before := after;
        var i := 0;
        while i < |page|
          invariant 0 <= i <= |page| && session.Snapshot() == db
          invariant after == if i == 0 then before else Some(page[i - 1])
          invariant forall j :: 0 <= j < i ==> page[j] !in targets
        {
          after := Some(page[i]);
          var t := page[i].id;
          assert page[i] in rows;
          var task := session.tasks[t];
          if && WorkerEligible(w, task)
             && !HasLiveLease(session.Snapshot(), t)
             && DependenciesSatisfied(session.Snapshot(), task)
             && ClaimableMission(session.Snapshot(), task)
          {
            assert page[i] in targets;
            FirstOnPageIsLeast(page, rows, pageSize, targets, i);
            if newAttempt in session.attempts || newLease in session.leases {
              return Refused(IntegrityError);
            }
            BindClaimRows(worker, t, now, LeaseSeconds(cfg, asked), newAttempt, newLease);
            return Done(newLease);
          }
          i := i + 1;
        }
        PageWithoutTargets(page, rows, pageSize, targets);
        if |page| < pageSize {
          return Idle;
        }
        ghost var last := page[|page| - 1];
        assert last in rows && last !in ReadyBeyond(db, w.project.value, hidden, after) by {
          KeyTrichotomy(last, last);
        }
        forall k | k in ReadyBeyond(db, w.project.value, hidden, after) ensures k in rows {
          if before.Some? {
            KeyTransitive(before.value, last, k);
          }
        }
      }
    }

    method BindClaimRows(worker: Id, t: Id, now: Time, seconds: int, newAttempt: Id, newLease: Id)
      requires worker in session.workers && Claimable(session.Snapshot(), session.workers[worker], t)
      modifies session
      ensures session.Snapshot()
              == BindClaim(cfg, old(session.Snapshot()), worker, t, now, seconds, newAttempt, newLease)
    {
      var w := session.workers[worker];
      var task := session.tasks[t];
      var mission := session.missions[task.mission];
      var renewableUntil := now + cfg.horizonSeconds * SECOND;
      var expiresAt := now + seconds * SECOND;
      if expiresAt > renewableUntil {
        expiresAt := renewableUntil;
      }
      var source := SourceRevision(mission);
      session.attempts := session.attempts[newAttempt :=
        Attempt(t, w.project, Some(task.mission), worker, w.generation, task.graphRevision, task.inputDigest,
                Some(source), mission.cancelGen, AttemptStatus.Leased, now, None, None, None)];
      session.leases := session.leases[newLease :=
        Lease(newAttempt, t, task.mission, w.project.value, worker, w.generation, task.graphRevision,
              task.inputDigest, Some(source), mission.cancelGen, Active, now, expiresAt, Some(renewableUntil), {})];
      session.tasks := session.tasks[t := task.(status := TaskStatus.Leased)];
      session.outbox := session.outbox + [ClaimedAttempt(newAttempt)];
    }

    method RenewLease(lease: Id, worker: Id, generation: int, token: string, asked: Option<int>, now: Time)
      returns (reply: Reply)
      modifies session
      ensures Step(session.Snapshot(), reply)
              == Renew(cfg, old(session.Snapshot()), lease, worker, generation, token, asked, now)
    {
      var fault := ClaimantFault(session.Snapshot(), worker, token);
      if fault.Some? {
        return Refused(fault.value);
      }
      if lease !in session.leases {
        return Refused(LeaseNotFound);
      }
      var w, row := session.workers[worker], session.leases[lease];
      if row.worker != worker {
        return Refused(LeaseWorkerMismatch);
      } else if w.project != Some(row.project) {
        return Refused(LeaseProjectMismatch);
      } else if row.generation != generation {
        return Refused(LeaseGenerationMismatch);
      } else if w.generation != generation {
        return Refused(WorkerGenerationMismatch);
      } else if !Live(row) {
        return Refused(LeaseNotRenewable(row.state));
      } else if row.expiresAt <= now {
        return Refused(LeaseAlreadyExpired);
      }
      fault := RenewAuthorityFault(session.Snapshot(), row);
      if fault.Some? {
        return Refused(fault.value);
      }
      var desired := now + LeaseSeconds(cfg, asked) * SECOND;
      fault := RenewalWindowFault(row, now, desired);
      if fault.Some? {
        return Refused(fault.value);
      }
      session.leases := session.leases[lease := row.(expiresAt := RenewalExpiry(row, desired), state := Renewed)];
      return Done(lease);
    }

    /** The due leases in expiry order, at most `limit` of them, without the rows other transactions hold. */
    method SelectDue(now: Time, project: Option<Id>, limit: nat, hidden: set<Id>) returns (batch: seq<Id>)
      ensures IsExpiryBatch(session.Snapshot(), batch, now, project, limit, hidden)
    {
      KeyOrderIsLinear();
      var db := session.Snapshot();
      var due := DueKeys(db, now, project, hidden);
      var rows := Enumerate(due, KeyLess);
      batch := seq(Min(limit, |rows|), i requires 0 <= i < |rows| => rows[i].id);
      FirstDueAreBatch(db, now, project, limit, hidden, rows, batch);
    }

    method ExpireRow(l: Id, now: Time)
      requires l in session.leases
      modifies session
      ensures session.Snapshot() == ExpireOne(old(session.Snapshot()), l, now)
    {
      var lease := session.leases[l];
      session.leases := session.leases[l := lease.(state := LeaseState.Expired)];
      var attempt := None;
      if lease.attempt in session.attempts {
        var row := session.attempts[lease.attempt];
        if row.status.Leased? || row.status.Running? || row.status.Pending? {
          row := row.(status := AttemptStatus.Expired, terminalAt := Some(now));
          session.attempts := session.attempts[lease.attempt := row];
        }
        attempt := Some(row);
      }
      if lease.task in session.tasks && session.tasks[lease.task].status.Leased? {
        var task := session.tasks[lease.task];
        var status := ExpiredTaskStatus(session.Snapshot(), task, lease, attempt);
        session.tasks := session.tasks[lease.task := task.(status := status)];
      }
    }

    method ExpireLeases(now: Time, project: Option<Id>, limit: nat, hidden: set<Id>) returns (batch: seq<Id>)
      modifies session
      ensures IsExpiryBatch(old(session.Snapshot()), batch, now, project, limit, hidden)
      ensures session.Snapshot() == ExpireAll(old(session.Snapshot()), batch, now)
    {
      ghost var db := session.Snapshot();
      batch := SelectDue(now, project, limit, hidden);
      var i := 0;
      while i < |batch|
        invariant 0 <= i <= |batch|
        invariant forall l :: l in batch ==> l in session.leases
        invariant ExpireAll(db, batch, now) == ExpireAll(session.Snapshot(), batch[i..], now)
      {
        ExpireRow(batch[i], now);
        assert batch[i..][0] == batch[i] && batch[i..][1..] == batch[i + 1..];
        i := i + 1;
      }
    }

    method SubmitResult(lease: Id, worker: Id, token: string, generation: int, checks: Checks, refs: set<string>,
                        now: Time, result: Id) returns (reply: Reply)
      modifies session
      ensures Step(session.Snapshot(), reply)
              == Submit(old(session.Snapshot()), lease, worker, token, generation, checks, refs, now, result)
    {
      var fault := SubmitterFault(session.Snapshot(), worker, token);
      if fault.Some? {
        return Refused(fault.value);
      }
      if lease !in session.leases {
        return Refused(LeaseNotFound);
      }
      var row := session.leases[lease];
      if row.worker != worker {
        return Refused(LeaseWorkerMismatch);
      } else if session.workers[worker].project != Some(row.project) {
        return Refused(LeaseProjectMismatch);
      } else if row.generation != generation {
        return Refused(LeaseGenerationMismatch);
      } else if row.attempt !in session.attempts {
        return Refused(AttemptMissing);
      } else if result in session.results {
        return Refused(IntegrityError);
      }
      session.results := session.results[result :=
        WorkerResult(row.attempt, lease, row.task, row.mission, row.project, worker, generation, row.taskRevision,
                     row.inputDigest, row.source, checks, refs, Submitted, now, None, None)];
      session.outbox := session.outbox + [SubmittedResult(result)];
      return Done(result);
    }

    method MarkRejected(result: Id, fault: Fault, keep: bool) returns (reply: Reply)
      requires result in session.results
      modifies session
      ensures reply == Refused(fault)
      ensures session.Snapshot() == if old(session.results[result].state.Accepted?) then old(session.Snapshot())
                                    else RejectMark(old(session.Snapshot()), result, fault, keep)
    {
      if session.results[result].state.Accepted? {
        return Refused(fault);
      }
      if keep {
        session.results := session.results[result := session.results[result].(
          state := AcceptanceState.Rejected, rejection := Some(fault), acceptedAt := None)];
      }
      return Refused(fault);
    }

    method AcceptResult(result: Id, now: Time, keep: bool) returns (reply: Reply)
      modifies session
      ensures Step(session.Snapshot(), reply) == Accept(old(session.Snapshot()), result, now, keep)
    {
      if result !in session.results {
        return Refused(ResultNotFound);
      }
      var row := session.results[result];
      if row.state.Accepted? {
        return Done(result);
      } else if row.state.Rejected? || row.state.Superseded? {
        return Refused(ResultTerminal(row.state));
      }
      if row.lease !in session.leases || row.attempt !in session.attempts || row.task !in session.tasks {
        reply := MarkRejected(result, MissingFenceRows, keep);
        return;
      }
      var lease, attempt, task := session.leases[row.lease], session.attempts[row.attempt], session.tasks[row.task];
      var fault := AcceptFence(session.Snapshot(), result, row, lease, attempt, task, now);
      if fault.Some? {
        reply := MarkRejected(result, fault.value, keep);
        return;
      }
      session.results := session.results[result := row.(
        state := AcceptanceState.Accepted, acceptedAt := Some(now), rejection := None)];
      session.attempts := session.attempts[row.attempt := attempt.(
        status := AttemptStatus.Accepted, acceptedResult := Some(result),
        completedAt := Some(now), terminalAt := Some(now))];
      if Live(lease) {
        session.leases := session.leases[row.lease := lease.(state := Released)];
      }
      if !TerminalTask(task.status) {
        session.tasks := session.tasks[row.task := task.(status := TaskStatus.Accepted)];
      }
      session.outbox := session.outbox + [AcceptedResult(result)];
      return Done(result);
    }

    method CancelActiveLease(lease: Id, reason: string, now: Time) returns (reply: Reply)
      modifies session
      ensures Step(session.Snapshot(), reply) == CancelLease(old(session.Snapshot()), lease, reason, now)
    {
      if lease !in session.leases {
        return Refused(LeaseNotFound);
      }
      var row := session.leases[lease];
      if !Live(row) {
        return Refused(LeaseNotActive(row.state));
      }
      session.leases := session.leases[lease := row.(state := LeaseState.Cancelled)];
      if row.attempt in session.attempts && session.attempts[row.attempt].acceptedResult.None? {
        var attempt := session.attempts[row.attempt];
        if !TerminalAttempt(attempt.status) {
          session.attempts := session.attempts[row.attempt := attempt.(
            status := AttemptStatus.Cancelled, terminalAt := Some(now))];
        }
      }
      if row.task in session.tasks && session.tasks[row.task].status.Leased? {
        var status := if reason == "cancelled" then TaskStatus.Cancelled else TaskStatus.Ready;
        session.tasks := session.tasks[row.task := session.tasks[row.task].(status := status)];
      }
      session.outbox := session.outbox + [CancelledLease(lease, EpochSeconds(now))];
      return Done(lease);
    }

    method NotifyLeases(live: seq<Id>, reason: string, now: Time)
      requires forall i :: 0 <= i < |live| ==> live[i] in session.leases && Live(session.leases[live[i]])
      requires forall i, j :: 0 <= i < j < |live| ==> live[i] != live[j]
      modifies session
      ensures session.Snapshot() == CancelAll(old(session.Snapshot()), live, reason, now)
    {
      var i := 0;
      while i < |live|
        invariant 0 <= i <= |live|
        invariant forall l :: l in live ==> l in session.leases
        invariant forall j :: i <= j < |live| ==> Live(session.leases[live[j]])
        invariant CancelAll(old(session.Snapshot()), live, reason, now)
                  == CancelAll(session.Snapshot(), live[i..], reason, now)
      {
        var cancelled := CancelActiveLease(live[i], reason, now);
        assert live[i..][0] == live[i] && live[i..][1..] == live[i + 1..];
        i := i + 1;
      }
    }

    method RevokeMissionWork(mission: Id, reason: string, notify: bool, now: Time)
      returns (reply: Reply, notified: seq<Id>)
      modifies session
      ensures Step(session.Snapshot(), reply) == Revoke(old(session.Snapshot()), mission, reason, notify, now)
      ensures notified == if notify && reply.Done? then LiveLeasesOf(old(session.Snapshot()), mission) else []
    {
      notified := [];
      if mission !in session.missions {
        return Refused(MissionMissing), [];
      }
      ghost var db := session.Snapshot();
      var row := session.missions[mission];
      session.missions := session.missions[mission := row.(cancelGen := row.cancelGen + 1)];
      session.outbox := session.outbox + [BumpedGeneration(mission, row.cancelGen + 1)];
      assert session.Snapshot() == BumpGeneration(db, mission);
      if notify {
        notified := LiveLeasesOf(session.Snapshot(), mission);
        assert notified == LiveLeasesOf(db, mission);
        TextOrderIsLinear();
        AscendingIsDistinct(notified, TextLess);
        NotifyLeases(notified, reason, now);
      }
      return Done(mission), notified;
    }

    method CancelMissionWork(mission: Id, now: Time) returns (reply: Reply, notified: seq<Id>)
      modifies session
      ensures Step(session.Snapshot(), reply) == CancelMission(old(session.Snapshot()), mission, now)
      ensures notified == if reply.Done? then LiveLeasesOf(old(session.Snapshot()), mission) else []
    {
      reply, notified := RevokeMissionWork(mission, "cancelled", true, now);
      if reply.Done? {
        session.missions := session.missions[mission := session.missions[mission].(status := MissionStatus.Cancelled)];
      }
    }
  }

  class MissionRepository {
    const session: Session

    constructor (session: Session)
      ensures this.session == session
    {
      this.session := session;
    }

    method CommitGraphRevision(p: Proposal, now: Time) returns (reply: Reply)
      modifies session
      ensures Step(session.Snapshot(), reply) == CommitGraph(old(session.Snapshot()), p, now)
    {
      if p.mission !in session.missions {
        return Refused(MissionMissing);
      }
      var row := session.missions[p.mission];
      if row.revision != p.basedOn {
        return Refused(GraphRevisionConflict);
      }
      var revision := row.revision + 1;
      session.missions := session.missions[p.mission := row.(revision := revision)];
      ghost var bumped := session.Snapshot();
      var i := 0;
      while i < |p.specs|
        invariant 0 <= i <= |p.specs|
        invariant UpsertAll(bumped, p.specs, revision, now)
                  == UpsertAll(session.Snapshot(), p.specs[i..], revision, now)
      {
        UpsertTaskRow(p.specs[i], revision, now);
        assert p.specs[i..][0] == p.specs[i] && p.specs[i..][1..] == p.specs[i + 1..];
        i := i + 1;
      }
      return Done(p.mission);
    }

    method UpsertTaskRow(spec: TaskSpec, revision: int, now: Time)
      modifies session
      ensures session.Snapshot() == UpsertTask(old(session.Snapshot()), spec, revision, now)
    {
      if spec.id !in session.tasks {
        session.tasks := session.tasks[spec.id :=
          Task(spec.project, spec.mission, spec.status, revision, spec.priority, now, spec.scopes, spec.deps,
               spec.required, None, None, None)];
      } else {
        session.tasks := session.tasks[spec.id := session.tasks[spec.id].(
          status := spec.status, graphRevision := revision, priority := spec.priority, scopes := spec.scopes,
          deps := spec.deps, required := spec.required, cancelGen := None, source := None, inputDigest := None)];
      }
    }
  }
}
