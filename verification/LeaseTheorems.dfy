/** Safety of the lease protocol over whole runs: exactly-once acceptance, paired leases, bounded
    expiries and powerless revoked workers. */
module LeaseTheorems {
  import opened Common
  import opened LeaseRows
  import opened LeaseProtocol
  import opened LeaseInvariant
  import opened LeaseSteps
  import opened LeaseHistory
  import opened LeaseRuns
  import opened LeaseLaws
  import opened LeaseAcceptance

  // ---- exactly-once acceptance ----

  /** Commits that stay in their own mission reopen nothing. */
  lemma RunNeverReopens(cfg: Config, states: seq<Db>, ops: seq<Op>)
    requires Run(cfg, states, ops)
    ensures FreeRun(cfg, states, ops) && NeverReopens(cfg, states, ops)
  {
    forall i | 0 <= i < |ops|
      ensures FreeStep(cfg, states, ops, i) && Feasible(states[i], ops[i]) && NoReopening(cfg, states[i], ops[i])
    {
      assert RunStep(cfg, states, ops, i);
      RunInv(cfg, states, ops, i);
      if ops[i].OpCommit? && Apply(cfg, states[i], ops[i]).reply.Done? {
        HomeReopensNothing(cfg, states[i], ops[i].proposal);
      }
    }
  }

  /** Over a whole run each task revision, and each attempt, has at most one accepted result. */
  lemma AcceptedAtMostOnce(cfg: Config, states: seq<Db>, ops: seq<Op>, i: nat, q: Id, j: nat, r: Id)
    requires Run(cfg, states, ops) && i <= |ops| && j <= |ops|
    requires IsAccepted(states[i], q) && IsAccepted(states[j], r)
    requires var a, b := states[i].results[q], states[j].results[r];
             (a.task == b.task && a.taskRevision == b.taskRevision) || a.attempt == b.attempt
    ensures q == r
  {
    RunNeverReopens(cfg, states, ops);
    AcceptedOnceUnlessReopened(cfg, states, ops, i, q, j, r);
  }

  /** An accepted or rejected disposition never changes, and accepting again changes nothing. */
  lemma DispositionIsFinal(cfg: Config, states: seq<Db>, ops: seq<Op>, i: nat, j: nat, r: Id)
    requires Run(cfg, states, ops) && i <= j <= |ops|
    requires r in states[i].results && !states[i].results[r].state.Submitted?
    ensures r in states[j].results && states[j].results[r] == states[i].results[r]
    ensures forall now, keep :: Accept(states[j], r, now, keep).db == states[j]
    ensures IsAccepted(states[i], r) ==> forall now, keep :: Accept(states[j], r, now, keep).reply == Done(r)
  {
    RunLater(cfg, states, ops, i, j);
    assert RowsLater(states[i], states[j], r);
  }

  /** A result becomes accepted only through its own acceptance call, with the fence passed. */
  lemma OnlyAcceptAccepts(cfg: Config, db: Db, op: Op, r: Id)
    requires Feasible(db, op) && IsAccepted(Apply(cfg, db, op).db, r) && !IsAccepted(db, r)
    ensures op.OpAccept? && op.result == r && FencePasses(db, r, op.now)
  {
    if op.OpWorker? {
      WorkerStepTouchesOneRow(db, op.worker, op.op);
    }
  }

  // ---- one live lease, one attempt per lease ----

  /** A task never has two live leases, although graph commits rewrite its status meanwhile. */
  lemma NeverTwoLiveLeases(cfg: Config, states: seq<Db>, ops: seq<Op>, i: nat, k: Id, l: Id)
    requires Run(cfg, states, ops) && i <= |ops|
    requires k in states[i].leases && l in states[i].leases && states[i].leases[k].task == states[i].leases[l].task
    requires Live(states[i].leases[k]) && Live(states[i].leases[l])
    ensures k == l
  {
    RunInv(cfg, states, ops, i);
    assert NotBothLive(states[i], k, l);
  }

  /** Attempts and leases pair up one to one, equally stamped, and end together. */
  lemma AttemptsPairWithLeases(cfg: Config, states: seq<Db>, ops: seq<Op>, i: nat)
    requires Run(cfg, states, ops) && i <= |ops|
    ensures forall l :: l in states[i].leases ==>
              && states[i].leases[l].attempt in states[i].attempts
              && StampedAlike(states[i].leases[l], states[i].attempts[states[i].leases[l].attempt])
              && (Live(states[i].leases[l]) <==> states[i].attempts[states[i].leases[l].attempt].status.Leased?)
    ensures forall k, l :: k in states[i].leases && l in states[i].leases ==>
              (states[i].leases[k].attempt == states[i].leases[l].attempt ==> k == l)
    ensures forall a :: a in states[i].attempts ==>
              exists l :: l in states[i].leases && states[i].leases[l].attempt == a
  {
    RunInv(cfg, states, ops, i);
    var db := states[i];
    forall l | l in db.leases
      ensures db.leases[l].attempt in db.attempts && StampedAlike(db.leases[l], db.attempts[db.leases[l].attempt])
      ensures Live(db.leases[l]) <==> db.attempts[db.leases[l].attempt].status.Leased?
    {
      assert Matched(db, l);
    }
    forall k, l | k in db.leases && l in db.leases
      ensures db.leases[k].attempt == db.leases[l].attempt ==> k == l
    {
      assert Unshared(db, k, l);
    }
    forall a | a in db.attempts ensures exists l :: l in db.leases && db.leases[l].attempt == a {
      assert Owned(db, a);
    }
  }

  // ---- expiry window ----

  /** A lease's expiry only moves forward and never past its issue time plus the horizon. */
  lemma ExpiryIsBounded(cfg: Config, states: seq<Db>, ops: seq<Op>, i: nat, j: nat, l: Id)
    requires Run(cfg, states, ops) && i <= j <= |ops| && l in states[i].leases
    ensures l in states[j].leases && states[j].leases[l].issuedAt == states[i].leases[l].issuedAt
    ensures states[i].leases[l].expiresAt <= states[j].leases[l].expiresAt
    ensures states[j].leases[l].expiresAt <= states[i].leases[l].issuedAt + cfg.horizonSeconds * SECOND
  {
    RunLater(cfg, states, ops, i, j);
    RunInv(cfg, states, ops, j);
    assert RowsLater(states[i], states[j], l) && Windowed(cfg, states[j], l);
  }

  /** Every acceptance happens strictly before the horizon of its lease. */
  lemma AcceptanceBeforeHorizon(cfg: Config, states: seq<Db>, ops: seq<Op>, i: nat, r: Id)
    requires Run(cfg, states, ops) && i < |ops|
    requires IsAccepted(states[i + 1], r) && !IsAccepted(states[i], r)
    ensures ops[i].OpAccept? && ops[i].result == r
    ensures r in states[i].results && states[i].results[r].lease in states[i].leases
    ensures ops[i].now < states[i].leases[states[i].results[r].lease].issuedAt + cfg.horizonSeconds * SECOND
  {
    RunInv(cfg, states, ops, i);
    assert RunStep(cfg, states, ops, i);
    OnlyAcceptAccepts(cfg, states[i], ops[i], r);
    assert Windowed(cfg, states[i], states[i].results[r].lease);
  }

  // ---- graph revisions ----

  /** Of all the proposals based on one revision of a mission, a run carries out at most one. */
  lemma OneCommitPerBase(cfg: Config, states: seq<Db>, ops: seq<Op>, i: nat, j: nat)
    requires Run(cfg, states, ops) && i < j < |ops| && ops[i].OpCommit? && ops[j].OpCommit?
    requires ops[i].proposal.mission == ops[j].proposal.mission && ops[i].proposal.basedOn == ops[j].proposal.basedOn
    requires RunStep(cfg, states, ops, i) && Apply(cfg, states[i], ops[i]).reply.Done?
    ensures RunStep(cfg, states, ops, j) && Apply(cfg, states[j], ops[j]).reply == Refused(GraphRevisionConflict)
  {
    var m := ops[i].proposal.mission;
    CommitIff(states[i], ops[i].proposal, ops[i].now);
    assert RunStep(cfg, states, ops, j);
    RunLater(cfg, states, ops, i + 1, j);
    assert RowsLater(states[i + 1], states[j], m);
  }

  // ---- worker revocation ----

  /** A worker call that needs the revoked worker's standing. */
  ghost predicate ActsFor(db: Db, op: Op, worker: Id) {
    match op
    case OpClaim(w, _, _, _, _, _, _) => w == worker
    case OpRenew(_, w, _, _, _, _) => w == worker
    case OpSubmit(_, w, _, _, _, _, _, _) => w == worker
    case OpAccept(r, _, _) => r in db.results && db.results[r].worker == worker && !IsAccepted(db, r)
    case _ => false
  }

  /** Revocation outlives re-registration, whatever generation it writes: a revoked worker never
      again claims, renews or submits, and none of its pending results is ever accepted. */
  lemma RevokedWorkerIsPowerless(cfg: Config, states: seq<Db>, ops: seq<Op>, i: nat, worker: Id, j: nat)
    requires Run(cfg, states, ops) && i <= j < |ops|
    requires worker in states[i].workers && states[i].workers[worker].revokedAt.Some?
    requires ActsFor(states[j], ops[j], worker)
    ensures RunStep(cfg, states, ops, j) && Apply(cfg, states[j], ops[j]).reply.Refused?
  {
    RunLater(cfg, states, ops, i, j);
    assert RowsLater(states[i], states[j], worker);
    assert RunStep(cfg, states, ops, j);
  }
}
