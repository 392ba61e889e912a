/** Work that nothing interferes with gets accepted; what becomes of work that a graph commit overtakes; and
    what a commit that reopens an accepted revision does to the rule of one acceptance per revision. */
module LeaseProgress {
  import opened Common
  import opened LeaseRows
  import opened LeaseProtocol
  import opened LeaseInvariant
  import opened LeaseSteps
  import opened LeaseAcceptance

  /** One piece of work: who claims which task under which new ids, and the review of its result. */
  datatype Work = Work(
    worker: Id, token: string, task: Id, claimed: Time, seconds: int, attempt: Id, lease: Id,
    checks: Checks, refs: set<string>, submitted: Time, result: Id, reviewed: Time)

  ghost predicate CanStart(db: Db, w: Work) {
    && ClaimantFault(db, w.worker, w.token).None? && Claimable(db, db.workers[w.worker], w.task)
    && w.attempt !in db.attempts && w.lease !in db.leases && w.result !in db.results
    && (forall x :: x in db.results ==> db.results[x].attempt != w.attempt)
  }

  /** A passing result, reviewed before the lease runs out. */
  ghost predicate InTime(cfg: Config, w: Work) {
    ReviewChecksPass(w.checks) &&
    w.reviewed < Min(w.claimed + w.seconds * SECOND, w.claimed + cfg.horizonSeconds * SECOND)
  }

  ghost function Claimed(cfg: Config, db: Db, w: Work): Db
    requires CanStart(db, w)
  {
    BindClaim(cfg, db, w.worker, w.task, w.claimed, w.seconds, w.attempt, w.lease)
  }

  ghost function Sent(cfg: Config, db: Db, w: Work): Step
    requires CanStart(db, w)
  {
    Submit(Claimed(cfg, db, w), w.lease, w.worker, w.token, db.workers[w.worker].generation,
           w.checks, w.refs, w.submitted, w.result)
  }

  lemma SubmissionIsTaken(cfg: Config, db: Db, w: Work)
    requires CanStart(db, w)
    ensures Sent(cfg, db, w).reply == Done(w.result)
    ensures var claimed, sent := Claimed(cfg, db, w), Sent(cfg, db, w).db;
            && sent.results == db.results[w.result := NewResult(w.lease, claimed.leases[w.lease], w.worker,
                 db.workers[w.worker].generation, w.checks, w.refs, w.submitted)]
            && sent == claimed.(results := sent.results, outbox := sent.outbox)
  {
  }

  lemma FenceIsOpen(cfg: Config, db: Db, w: Work)
    requires CanStart(db, w) && InTime(cfg, w)
    ensures var sent := Sent(cfg, db, w).db;
            && w.result in sent.results && w.lease in sent.leases && w.attempt in sent.attempts && w.task in sent.tasks
            && AcceptFence(sent, w.result, sent.results[w.result], sent.leases[w.lease], sent.attempts[w.attempt],
                           sent.tasks[w.task], w.reviewed).None?
  {
    SubmissionIsTaken(cfg, db, w);
    var sent := Sent(cfg, db, w).db;
    assert !OtherAccepted(sent, w.result, w.attempt);
  }

  /** A claim, a submission by the same worker and a review in time, with nothing between them: the
      result is accepted at the revision claimed, and the task rests with no live lease of this work. */
  lemma UninterruptedWorkIsAccepted(cfg: Config, db: Db, w: Work, keep: bool)
    requires CanStart(db, w) && InTime(cfg, w)
    ensures var step := Accept(Sent(cfg, db, w).db, w.result, w.reviewed, keep);
            var done := step.db;
            && step.reply == Done(w.result) && IsAccepted(done, w.result)
            && done.results == db.results[w.result := done.results[w.result]]
            && done.results[w.result].task == w.task
            && done.results[w.result].taskRevision == db.tasks[w.task].graphRevision
            && done.results[w.result].attempt == w.attempt
            && done.tasks == db.tasks[w.task := db.tasks[w.task].(status := TaskStatus.Accepted)]
            && done.missions == db.missions && done.workers == db.workers
            && w.lease in done.leases && done.leases == db.leases[w.lease := done.leases[w.lease]]
            && !Live(done.leases[w.lease])
            && done.attempts.Keys == db.attempts.Keys + {w.attempt}
  {
    SubmissionIsTaken(cfg, db, w);
    FenceIsOpen(cfg, db, w);
  }

  // ---- a commit between submission and review ----

  ghost predicate ExplicitSource(m: Mission) {
    m.source.Some? && m.source.value != ""
  }

  /** A commit moves the source revision on exactly when the mission names no source of its own. */
  lemma CommitMovesSourceIff(m: Mission)
    ensures SourceRevision(m.(revision := m.revision + 1)) == SourceRevision(m) <==> ExplicitSource(m)
  {
    if !ExplicitSource(m) && SourceRevision(m.(revision := m.revision + 1)) == SourceRevision(m) {
      var a, b := "msnrev:" + Decimal(m.revision + 1), "msnrev:" + Decimal(m.revision);
      assert a[7..] == Decimal(m.revision + 1) && b[7..] == Decimal(m.revision);
      DecimalInjective(m.revision + 1, m.revision);
    }
  }

  ghost function Overtaken(cfg: Config, db: Db, w: Work, p: Proposal, now: Time): Db
    requires CanStart(db, w)
  {
    CommitGraph(Sent(cfg, db, w).db, p, now).db
  }

  /** The commit concerns the task's mission but does not name the task. */
  ghost predicate Overtakes(db: Db, w: Work, p: Proposal) {
    && w.task in db.tasks && p.mission == db.tasks[w.task].mission && p.mission in db.missions
    && p.basedOn == db.missions[p.mission].revision && !Named(p.specs, w.task)
  }

  lemma OvertakenRows(cfg: Config, db: Db, w: Work, p: Proposal, now: Time)
    requires CanStart(db, w) && Overtakes(db, w, p)
    ensures var sent, after := Sent(cfg, db, w).db, Overtaken(cfg, db, w, p, now);
            && w.task in sent.tasks && w.task in after.tasks && after.tasks[w.task] == sent.tasks[w.task]
            && after.leases == sent.leases && after.attempts == sent.attempts && after.results == sent.results
            && after.workers == sent.workers && p.mission in after.missions
            && after.missions[p.mission] == db.missions[p.mission].(revision := p.basedOn + 1)
  {
    SubmissionIsTaken(cfg, db, w);
    UpsertAllAt(BumpRevision(Sent(cfg, db, w).db, p.mission), p.specs, p.basedOn + 1, now, w.task);
  }

  /** The fence compares the task with the lease, never with the mission: a result under a lease older than the
      mission's revision is accepted exactly when the mission names an explicit source … */
  lemma OvertakenResultIff(cfg: Config, db: Db, w: Work, p: Proposal, now: Time, keep: bool)
    requires CanStart(db, w) && InTime(cfg, w) && Overtakes(db, w, p)
    ensures Accept(Overtaken(cfg, db, w, p, now), w.result, w.reviewed, keep).reply
            == if ExplicitSource(db.missions[p.mission]) then Done(w.result) else Refused(SourceRevisionStale)
  {
    var sent, after := Sent(cfg, db, w).db, Overtaken(cfg, db, w, p, now);
    SubmissionIsTaken(cfg, db, w);
    FenceIsOpen(cfg, db, w);
    OvertakenRows(cfg, db, w, p, now);
    FenceAfterCommit(sent, after, w.result, p.mission, w.reviewed);
    CommitMovesSourceIff(db.missions[p.mission]);
  }

  /** When only the mission's revision has moved, the open fence closes on the source revision or not at all. */
  lemma FenceAfterCommit(db: Db, db': Db, r: Id, mission: Id, now: Time)
    requires FencePasses(db, r, now) && db.tasks[db.results[r].task].mission == mission
    requires db'.leases == db.leases && db'.attempts == db.attempts && db'.results == db.results
    requires db'.workers == db.workers
    requires db.results[r].task in db'.tasks && db'.tasks[db.results[r].task] == db.tasks[db.results[r].task]
    requires mission in db.missions && mission in db'.missions
    requires db'.missions[mission] == db.missions[mission].(revision := db'.missions[mission].revision)
    ensures var result, lease := db.results[r], db.leases[db.results[r].lease];
            AcceptFence(db', r, result, lease, db.attempts[result.attempt], db.tasks[result.task], now)
            == if lease.source.Some? && lease.source.value != SourceRevision(db'.missions[mission])
               then Some(SourceRevisionStale) else None
  {
    assert OtherAccepted(db', r, db.results[r].attempt) == OtherAccepted(db, r, db.results[r].attempt);
  }

  /** … although the lease itself can no longer be renewed, whatever the source. */
  lemma OvertakenLeaseIsStale(cfg: Config, db: Db, w: Work, p: Proposal, now: Time, asked: Option<int>, later: Time)
    requires CanStart(db, w) && Overtakes(db, w, p)
    ensures RenewFault(cfg, Overtaken(cfg, db, w, p, now), w.lease, w.worker, db.workers[w.worker].generation, w.token,
                       asked, later).Some?
  {
    SubmissionIsTaken(cfg, db, w);
    OvertakenRows(cfg, db, w, p, now);
  }

  // ---- a commit that reopens an accepted revision ----

  ghost function Finished(cfg: Config, db: Db, w: Work): Db
    requires CanStart(db, w)
  {
    Accept(Sent(cfg, db, w).db, w.result, w.reviewed, false).db
  }

  /** Mission "m" at revision 1 with one ready task, mission "n" at revision 0, one worker. */
  function Beginning(): Db {
    Db(map["m" := Mission("p", MissionStatus.Running, 1, 0, None),
           "n" := Mission("p", MissionStatus.Running, 0, 0, None)],
       map["t" := Task("p", "m", TaskStatus.Ready, 1, 0, 0, {}, [], {}, None, None, None)],
       map["w" := Worker(Some("p"), 1, Online, Some("k"), {}, {"local"}, None)],
       map[], map[], map[], [])
  }

  function Piece(attempt: Id, lease: Id, result: Id): Work {
    Work("w", "k", "t", 0, 60, attempt, lease, Checks(Some(true), None), {}, 1, result, 2)
  }

  /** A proposal of mission "n" that names the task of mission "m". */
  function StrayProposal(): Proposal {
    Proposal("n", 0, [TaskSpec("t", "p", "n", TaskStatus.Ready, 0, {}, [], {})])
  }

  lemma StrayReopens(cfg: Config)
    requires cfg.horizonSeconds >= 60
    ensures CanStart(Beginning(), Piece("a1", "l1", "r1"))
    ensures var done := Finished(cfg, Beginning(), Piece("a1", "l1", "r1"));
            var strayed := CommitGraph(done, StrayProposal(), 3);
            && IsAccepted(done, "r1") && strayed.reply.Done? && !ReopensNothing(done, StrayProposal())
            && CanStart(strayed.db, Piece("a2", "l2", "r2")) && strayed.db.tasks["t"].graphRevision == 1
            && strayed.db.results == done.results
            && done.results["r1"].task == "t" && done.results["r1"].taskRevision == 1
  {
    var db, first := Beginning(), Piece("a1", "l1", "r1");
    assert Claimable(db, db.workers["w"], "t");
    UninterruptedWorkIsAccepted(cfg, db, first, false);
    var done := Finished(cfg, db, first);
    var p := StrayProposal();
    assert p.specs[0].id == "t" && Named(p.specs, "t") && !Spares(done, p, "r1");
    var bumped := BumpRevision(done, "n");
    assert p.specs[1..] == [];
    var after := CommitGraph(done, p, 3).db;
    assert after == UpsertTask(bumped, p.specs[0], 1, 3);
    assert !HasLiveLease(after, "t");
    assert Claimable(after, after.workers["w"], "t");
  }

  /** After a commit that reopens an accepted revision, the revision is accepted a second time. */
  lemma StrayProposalAcceptsTwice(cfg: Config)
    requires cfg.horizonSeconds >= 60
    ensures Pristine(Beginning()) && CanStart(Beginning(), Piece("a1", "l1", "r1"))
    ensures var strayed := CommitGraph(Finished(cfg, Beginning(), Piece("a1", "l1", "r1")), StrayProposal(), 3).db;
            && CanStart(strayed, Piece("a2", "l2", "r2"))
            && var again := Finished(cfg, strayed, Piece("a2", "l2", "r2"));
            && IsAccepted(again, "r1") && IsAccepted(again, "r2")
            && again.results["r1"].task == again.results["r2"].task
            && again.results["r1"].taskRevision == again.results["r2"].taskRevision
  {
    StrayReopens(cfg);
    var strayed := CommitGraph(Finished(cfg, Beginning(), Piece("a1", "l1", "r1")), StrayProposal(), 3).db;
    UninterruptedWorkIsAccepted(cfg, strayed, Piece("a2", "l2", "r2"), false);
  }
}
