/** Exactly when one acceptance per task revision holds.  Graph commits may name tasks of any mission here;
    what counts is whether a commit reopens an accepted revision. */
module LeaseAcceptance {
  import opened Common
  import opened Ordering
  import opened LeaseRows
  import opened LeaseProtocol
  import opened LeaseInvariant
  import opened LeaseSteps
  import opened LeaseHistory
  import opened LeaseLaws

  // ---- what a commit writes ----

  predicate Named(specs: seq<TaskSpec>, t: Id) {
    exists i :: 0 <= i < |specs| && specs[i].id == t
  }

  /** The status that the last spec of the task gives it. */
  function LastStatus(specs: seq<TaskSpec>, t: Id): TaskStatus
    requires Named(specs, t)
  {
    if specs[|specs| - 1].id == t then specs[|specs| - 1].status
    else
      assert Named(specs[..|specs| - 1], t) by {
        var i :| 0 <= i < |specs| && specs[i].id == t;
        assert specs[..|specs| - 1][i].id == t;
      }
      LastStatus(specs[..|specs| - 1], t)
  }

  /** Named tasks end at the new revision with their last status; the others stay as they are. */
  lemma {:induction false} UpsertAllAt(db: Db, specs: seq<TaskSpec>, revision: int, now: Time, t: Id)
    ensures var after := UpsertAll(db, specs, revision, now).tasks;
            && (Named(specs, t) ==>
                  t in after && after[t].graphRevision == revision && after[t].status == LastStatus(specs, t))
            && (!Named(specs, t) ==> (t in after <==> t in db.tasks) && (t in db.tasks ==> after[t] == db.tasks[t]))
  {
    if specs != [] {
      var front, last := specs[..|specs| - 1], specs[|specs| - 1];
      assert specs == front + [last];
      UpsertSnoc(db, front, last, revision, now);
      UpsertAllAt(db, front, revision, now, t);
      assert Named(specs, t) <==> Named(front, t) || last.id == t by {
        if Named(front, t) {
          var i :| 0 <= i < |front| && front[i].id == t;
          assert specs[i].id == t;
        }
        assert specs[|front|] == last;
      }
    }
  }

  // ---- reopening ----

  /** The commit leaves the accepted result `r` behind it: its task is not named, or was accepted at an earlier
      revision than the new one, or ends up accepted with nothing in flight. */
  ghost predicate Spares(db: Db, p: Proposal, r: Id) {
    IsAccepted(db, r) && Named(p.specs, db.results[r].task) ==>
      || db.results[r].taskRevision <= p.basedOn
      || (LastStatus(p.specs, db.results[r].task).Accepted? && !HasLiveLease(db, db.results[r].task))
  }

  ghost predicate ReopensNothing(db: Db, p: Proposal) {
    forall r :: Spares(db, p, r)
  }

  lemma CommitSparesIff(db: Db, p: Proposal, now: Time, r: Id)
    requires Settled(db, r) && CommitGraph(db, p, now).reply.Done?
    ensures Settled(CommitGraph(db, p, now).db, r) <==> Spares(db, p, r)
  {
    var db' := CommitGraph(db, p, now).db;
    if IsAccepted(db, r) {
      var t := db.results[r].task;
      UpsertAllAt(BumpRevision(db, p.mission), p.specs, p.basedOn + 1, now, t);
      assert HasLiveLease(db', t) == HasLiveLease(db, t);
    }
  }

  /** A commit keeps every acceptance settled exactly when it reopens no accepted revision. */
  lemma CommitSettledIff(db: Db, p: Proposal, now: Time)
    requires AcceptedSettled(db) && CommitGraph(db, p, now).reply.Done?
    ensures AcceptedSettled(CommitGraph(db, p, now).db) <==> ReopensNothing(db, p)
  {
    var db' := CommitGraph(db, p, now).db;
    forall r ensures Settled(db', r) <==> Spares(db, p, r) {
      assert Settled(db, r);
      CommitSparesIff(db, p, now, r);
    }
  }

  /** A proposal that stays in its own mission reopens nothing. */
  lemma HomeReopensNothing(cfg: Config, db: Db, p: Proposal)
    requires Inv(cfg, db) && HomeProposal(db, p) && p.mission in db.missions
    requires db.missions[p.mission].revision == p.basedOn
    ensures ReopensNothing(db, p)
  {
    forall r ensures Spares(db, p, r) {
      if IsAccepted(db, r) && Named(p.specs, db.results[r].task) {
        var t := db.results[r].task;
        assert ResultOk(db, r) && Anchored(db, db.results[r].lease) && TaskOk(db, t);
        var i :| 0 <= i < |p.specs| && p.specs[i].id == t;
      }
    }
  }

  // ---- what acceptance rests on ----

  ghost predicate AcceptanceInv(db: Db) {
    PairInv(db) && ResultInv(db)
  }

  /** Tables other than the four that acceptance looks at may change freely. */
  lemma OtherTablesKeep(db: Db, db': Db)
    requires AcceptanceInv(db)
    requires db'.tasks == db.tasks && db'.leases == db.leases && db'.attempts == db.attempts
    requires db'.results == db.results
    ensures AcceptanceInv(db')
  {
    SameLeasesKeepPairs(db, db');
    MissionStepKeepsResults(db, db');
  }

  lemma CloseKeeps(db: Db, db': Db, l: Id)
    requires AcceptanceInv(db) && Closes(db, db', l) && db'.results == db.results
    requires db.leases[l].task in db.tasks ==> !db.tasks[db.leases[l].task].status.Accepted? || db'.tasks == db.tasks
    ensures AcceptanceInv(db')
  {
    CloseKeepsPairs(db, db', l);
    CloseKeepsAcceptance(db, db', l);
    KeepsResultInv(db, db');
  }

  lemma {:induction false} ExpireAllKeeps(db: Db, batch: seq<Id>, now: Time)
    requires AcceptanceInv(db)
    requires forall i :: 0 <= i < |batch| ==> batch[i] in db.leases && Live(db.leases[batch[i]])
    requires forall i, j :: 0 <= i < j < |batch| ==> batch[i] != batch[j]
    ensures AcceptanceInv(ExpireAll(db, batch, now))
    decreases |batch|
  {
    if batch != [] {
      var next := ExpireOne(db, batch[0], now);
      ExpireOneCloses(db, batch[0], now);
      CloseKeeps(db, next, batch[0]);
      ExpireAllKeeps(next, batch[1..], now);
    }
  }

  lemma CancelOneKeeps(db: Db, l: Id, reason: string, now: Time)
    requires AcceptanceInv(db) && l in db.leases && Live(db.leases[l])
    ensures AcceptanceInv(CancelOne(db, l, reason, now))
  {
    CancelOneCloses(db, l, reason, now);
    CloseKeeps(db, CancelOne(db, l, reason, now), l);
  }

  lemma {:induction false} CancelAllKeeps(db: Db, ls: seq<Id>, reason: string, now: Time)
    requires AcceptanceInv(db)
    requires forall i :: 0 <= i < |ls| ==> ls[i] in db.leases && Live(db.leases[ls[i]])
    requires forall i, j :: 0 <= i < j < |ls| ==> ls[i] != ls[j]
    ensures AcceptanceInv(CancelAll(db, ls, reason, now))
    decreases |ls|
  {
    if ls != [] {
      CancelOneKeeps(db, ls[0], reason, now);
      CancelAllKeeps(CancelOne(db, ls[0], reason, now), ls[1..], reason, now);
    }
  }

  lemma RevokeKeeps(db: Db, mission: Id, reason: string, notify: bool, now: Time)
    requires AcceptanceInv(db)
    ensures AcceptanceInv(Revoke(db, mission, reason, notify, now).db)
  {
    if mission in db.missions {
      var bumped := BumpGeneration(db, mission);
      OtherTablesKeep(db, bumped);
      if notify {
        TextOrderIsLinear();
        AscendingIsDistinct(LiveLeasesOf(bumped, mission), TextLess);
        CancelAllKeeps(bumped, LiveLeasesOf(bumped, mission), reason, now);
      }
    }
  }

  lemma ClaimKeeps(cfg: Config, db: Db, op: Op)
    requires AcceptanceInv(db) && op.OpClaim?
    ensures AcceptanceInv(Apply(cfg, db, op).db)
  {
    if Apply(cfg, db, op).reply.Done? {
      KeyOrderIsLinear();
      var t := Least(ClaimKeys(db, db.workers[op.worker], op.hidden), KeyLess).id;
      var seconds := LeaseSeconds(cfg, op.asked);
      BindKeepsPairs(cfg, db, op.worker, t, op.now, seconds, op.newAttempt, op.newLease);
      ClaimKeepsResults(cfg, db, op.worker, t, op.now, seconds, op.newAttempt, op.newLease);
    }
  }

  lemma RenewKeeps(cfg: Config, db: Db, op: Op)
    requires AcceptanceInv(db) && op.OpRenew?
    ensures AcceptanceInv(Apply(cfg, db, op).db)
  {
    var db' := Apply(cfg, db, op).db;
    if Apply(cfg, db, op).reply.Done? {
      ExtendKeepsPairs(db, db', op.lease);
      ExtensionKeepsResults(db, db', op.lease);
    }
  }

  lemma SubmitKeeps(cfg: Config, db: Db, op: Op)
    requires AcceptanceInv(db) && op.OpSubmit?
    ensures AcceptanceInv(Apply(cfg, db, op).db)
  {
    var db' := Apply(cfg, db, op).db;
    if Apply(cfg, db, op).reply.Done? {
      SameLeasesKeepPairs(db, db');
      SameAcceptedKeepsResults(db, db', op.result);
    }
  }

  lemma AcceptKeeps(db: Db, r: Id, now: Time, keep: bool)
    requires AcceptanceInv(db)
    ensures AcceptanceInv(Accept(db, r, now, keep).db)
  {
    var step := Accept(db, r, now, keep);
    if r in db.results && db.results[r].state.Submitted? {
      if step.reply.Done? {
        MarkAcceptedCloses(db, r, now);
        CloseKeepsPairs(db, step.db, db.results[r].lease);
        MarkAcceptedKeepsResults(db, r, now);
      } else if keep {
        assert ResultOk(db, r);
        SameLeasesKeepPairs(db, step.db);
        SameAcceptedKeepsResults(db, step.db, r);
      }
    }
  }

  lemma CommitKeeps(db: Db, p: Proposal, now: Time)
    requires AcceptanceInv(db) && (CommitGraph(db, p, now).reply.Done? ==> ReopensNothing(db, p))
    ensures AcceptanceInv(CommitGraph(db, p, now).db)
  {
    var db' := CommitGraph(db, p, now).db;
    if CommitGraph(db, p, now).reply.Done? {
      SameLeasesKeepPairs(db, db');
      CommitSettledIff(db, p, now);
      forall r ensures ResultOk(db', r) && Sealed(db', r) {
        assert ResultOk(db, r) && Sealed(db, r);
      }
      forall q, r ensures NotBothAccepted(db', q, r) {
        assert NotBothAccepted(db, q, r);
      }
    }
  }

  /** A commit that is carried out reopens no accepted revision; nothing is asked of any other step. */
  ghost predicate NoReopening(cfg: Config, db: Db, op: Op)
    requires Feasible(db, op)
  {
    op.OpCommit? && Apply(cfg, db, op).reply.Done? ==> ReopensNothing(db, op.proposal)
  }

  lemma StepKeepsAcceptance(cfg: Config, db: Db, op: Op)
    requires AcceptanceInv(db) && Feasible(db, op) && NoReopening(cfg, db, op)
    ensures AcceptanceInv(Apply(cfg, db, op).db)
  {
    match op
    case OpClaim(_, _, _, _, _, _, _) => ClaimKeeps(cfg, db, op);
    case OpRenew(_, _, _, _, _, _) => RenewKeeps(cfg, db, op);
    case OpExpire(batch, now, _, _, _) => ExpireAllKeeps(db, batch, now);
    case OpSubmit(_, _, _, _, _, _, _, _) => SubmitKeeps(cfg, db, op);
    case OpAccept(r, now, keep) => AcceptKeeps(db, r, now, keep);
    case OpCancelLease(l, reason, now) =>
      if l in db.leases && Live(db.leases[l]) {
        CancelOneKeeps(db, l, reason, now);
      }
    case OpRevoke(mission, reason, notify, now) => RevokeKeeps(db, mission, reason, notify, now);
    case OpCancelMission(mission, now) =>
      RevokeKeeps(db, mission, "cancelled", true, now);
      OtherTablesKeep(Revoke(db, mission, "cancelled", true, now).db, CancelMission(db, mission, now).db);
    case OpCommit(p, now) => CommitKeeps(db, p, now);
    case OpWorker(worker, wop) =>
      WorkerStepTouchesOneRow(db, worker, wop);
      OtherTablesKeep(db, ApplyWorker(db, worker, wop).db);
    case _ => OtherTablesKeep(db, Apply(cfg, db, op).db);
  }

  // ---- runs ----

  /** Any run at all: no step is held to more than its query.  It starts with nothing leased. */
  ghost predicate FreeRun(cfg: Config, states: seq<Db>, ops: seq<Op>) {
    && |states| == |ops| + 1
    && states[0].attempts == map[] && states[0].leases == map[] && states[0].results == map[]
    && forall i :: 0 <= i < |ops| ==> FreeStep(cfg, states, ops, i)
  }

  ghost predicate FreeStep(cfg: Config, states: seq<Db>, ops: seq<Op>, i: nat)
    requires |states| == |ops| + 1 && i < |ops|
  {
    Feasible(states[i], ops[i]) && states[i + 1] == Apply(cfg, states[i], ops[i]).db
  }

  ghost predicate NeverReopens(cfg: Config, states: seq<Db>, ops: seq<Op>)
    requires |states| == |ops| + 1
  {
    forall i :: 0 <= i < |ops| ==> Feasible(states[i], ops[i]) && NoReopening(cfg, states[i], ops[i])
  }

  lemma {:induction false} FreeRunKeeps(cfg: Config, states: seq<Db>, ops: seq<Op>, i: nat)
    requires FreeRun(cfg, states, ops) && i <= |ops| && NeverReopens(cfg, states, ops)
    ensures AcceptanceInv(states[i])
  {
    if i > 0 {
      FreeRunKeeps(cfg, states, ops, i - 1);
      assert FreeStep(cfg, states, ops, i - 1);
      StepKeepsAcceptance(cfg, states[i - 1], ops[i - 1]);
    }
  }

  /** Any step keeps a result's content, and its disposition once given. */
  lemma StepKeepsResult(cfg: Config, db: Db, op: Op, r: Id)
    requires Feasible(db, op) && r in db.results
    ensures r in Apply(cfg, db, op).db.results && ResultLater(db.results[r], Apply(cfg, db, op).db.results[r])
  {
    if op.OpWorker? {
      WorkerStepTouchesOneRow(db, op.worker, op.op);
    } else if op.OpAccept? {
      AcceptIsLater(db, op.result, op.now, op.keep);
      assert RowsLater(db, Accept(db, op.result, op.now, op.keep).db, r);
    }
  }

  lemma {:induction false} AcceptedForGood(cfg: Config, states: seq<Db>, ops: seq<Op>, i: nat, j: nat, r: Id)
    requires FreeRun(cfg, states, ops) && i <= j <= |ops| && IsAccepted(states[i], r)
    ensures IsAccepted(states[j], r) && states[j].results[r] == states[i].results[r]
    decreases j
  {
    if i < j {
      AcceptedForGood(cfg, states, ops, i, j - 1, r);
      assert FreeStep(cfg, states, ops, j - 1);
      StepKeepsResult(cfg, states[j - 1], ops[j - 1], r);
    }
  }

  /** Over every run whose commits reopen no accepted revision, each task revision, and each attempt, has at
      most one accepted result. */
  lemma AcceptedOnceUnlessReopened(cfg: Config, states: seq<Db>, ops: seq<Op>, i: nat, q: Id, j: nat, r: Id)
    requires FreeRun(cfg, states, ops) && i <= |ops| && j <= |ops| && NeverReopens(cfg, states, ops)
    requires IsAccepted(states[i], q) && IsAccepted(states[j], r)
    requires var a, b := states[i].results[q], states[j].results[r];
             (a.task == b.task && a.taskRevision == b.taskRevision) || a.attempt == b.attempt
    ensures q == r
  {
    var n := |ops|;
    AcceptedForGood(cfg, states, ops, i, n, q);
    AcceptedForGood(cfg, states, ops, j, n, r);
    FreeRunKeeps(cfg, states, ops, n);
    assert NotBothAccepted(states[n], q, r) && Sealed(states[n], q) && Sealed(states[n], r);
  }
}
