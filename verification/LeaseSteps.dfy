/** Every admissible step of the lease protocol keeps the invariant.  Steps are grouped by the
    kind of change they make to the tables. */
module LeaseSteps {
  import opened Common
  import opened Ordering
  import opened LeaseRows
  import opened LeaseProtocol
  import opened LeaseInvariant

  // ---- kinds of change ----

  ghost predicate SameStamps(k: Lease, l: Lease) {
    k.(state := l.state, expiresAt := l.expiresAt) == l
  }

  /** One live lease ends: its attempt ends with it and its task may change status. */
  ghost predicate Closes(db: Db, db': Db, l: Id) {
    && l in db.leases && Live(db.leases[l])
    && var lease := db.leases[l];
    && db'.missions == db.missions
    && l in db'.leases && !Live(db'.leases[l])
    && db'.leases == db.leases[l := lease.(state := db'.leases[l].state)]
    && lease.attempt in db'.attempts
    && db'.attempts == db.attempts[lease.attempt := db'.attempts[lease.attempt]]
    && StampedAlike(lease, db'.attempts[lease.attempt])
    && Mirrors(db'.leases[l], db'.attempts[lease.attempt])
    && OnlyTaskStatus(db, db', lease.task)
  }

  /** At most the status of task `t` changes, and a finished task stays finished. */
  ghost predicate OnlyTaskStatus(db: Db, db': Db, t: Id) {
    || db'.tasks == db.tasks
    || (&& t in db.tasks && t in db'.tasks
        && db'.tasks == db.tasks[t := db.tasks[t].(status := db'.tasks[t].status)]
        && (DependencyDone(db.tasks[t].status) ==> DependencyDone(db'.tasks[t].status)))
  }

  ghost predicate MissionsAdvance(db: Db, db': Db) {
    forall m :: m in db.missions ==>
      && m in db'.missions && db'.missions[m].project == db.missions[m].project
      && db.missions[m].revision <= db'.missions[m].revision
      && db.missions[m].cancelGen <= db'.missions[m].cancelGen
  }

  /** Accepted results stay sealed and settled under the change. */
  ghost predicate KeepsAcceptance(db: Db, db': Db) {
    && (forall l :: l in db.leases ==>
          && l in db'.leases && SameStamps(db.leases[l], db'.leases[l])
          && (db.leases[l].state.Released? ==> db'.leases[l].state.Released?))
    && (forall a :: a in db.attempts && db.attempts[a].acceptedResult.Some? ==>
          a in db'.attempts && db'.attempts[a].acceptedResult == db.attempts[a].acceptedResult)
    && (forall t :: t in db.tasks ==> t in db'.tasks && TaskKeepsAcceptance(db, db', t))
  }

  ghost predicate SameRevisions(db: Db, db': Db) {
    forall t :: t in db.tasks && t in db'.tasks ==> db'.tasks[t].graphRevision == db.tasks[t].graphRevision
  }

  ghost predicate TaskKeepsAcceptance(db: Db, db': Db, t: Id)
    requires t in db.tasks && t in db'.tasks
  {
    || db.tasks[t].graphRevision < db'.tasks[t].graphRevision
    || (&& db.tasks[t].graphRevision == db'.tasks[t].graphRevision
        && (db.tasks[t].status.Accepted? && !HasLiveLease(db, t) ==>
              db'.tasks[t].status.Accepted? && !HasLiveLease(db', t)))
  }

  // ---- leases and attempts ----

  lemma OwnedAfter(db: Db, db': Db, l: Id)
    requires AttemptsOwned(db)
    requires forall k :: k in db.leases ==> k in db'.leases && db'.leases[k].attempt == db.leases[k].attempt
    requires l in db'.leases
    requires forall a :: a in db'.attempts ==> a in db.attempts || a == db'.leases[l].attempt
    ensures AttemptsOwned(db')
  {
    forall a ensures Owned(db', a) {
      if a in db.attempts {
        assert Owned(db, a);
        var k :| k in db.leases && db.leases[k].attempt == a;
        assert db'.leases[k].attempt == a;
      }
    }
  }

  lemma CloseKeepsPairs(db: Db, db': Db, l: Id)
    requires PairInv(db) && Closes(db, db', l)
    ensures PairInv(db')
  {
    forall j, k ensures Unshared(db', j, k) && NotBothLive(db', j, k) {
      assert Unshared(db, j, k) && NotBothLive(db, j, k);
    }
    forall k ensures Matched(db', k) {
      assert Matched(db, k) && Unshared(db, k, l);
    }
  }

  lemma CloseKeepsAnchors(cfg: Config, db: Db, db': Db, l: Id)
    requires AnchorInv(cfg, db) && Closes(db, db', l)
    ensures AnchorInv(cfg, db')
  {
    forall x ensures TaskOk(db', x) && Anchored(db', x) && Windowed(cfg, db', x) {
      assert TaskOk(db, x) && Anchored(db, x) && Windowed(cfg, db, x);
    }
  }

  lemma BindKeepsPairs(cfg: Config, db: Db, worker: Id, t: Id, now: Time, seconds: int, a: Id, l: Id)
    requires PairInv(db)
    requires worker in db.workers && Claimable(db, db.workers[worker], t)
    requires a !in db.attempts && l !in db.leases
    ensures PairInv(BindClaim(cfg, db, worker, t, now, seconds, a, l))
  {
    var db' := BindClaim(cfg, db, worker, t, now, seconds, a, l);
    forall j, k ensures Unshared(db', j, k) && NotBothLive(db', j, k) {
      assert Unshared(db, j, k) && NotBothLive(db, j, k);
      assert Matched(db, j) && Matched(db, k);
    }
    forall k ensures Matched(db', k) {
      assert Matched(db, k);
    }
  }

  lemma BindKeepsAnchors(cfg: Config, db: Db, worker: Id, t: Id, now: Time, seconds: int, a: Id, l: Id)
    requires AnchorInv(cfg, db)
    requires worker in db.workers && Claimable(db, db.workers[worker], t) && l !in db.leases
    ensures AnchorInv(cfg, BindClaim(cfg, db, worker, t, now, seconds, a, l))
  {
    var db' := BindClaim(cfg, db, worker, t, now, seconds, a, l);
    forall x ensures TaskOk(db', x) && Anchored(db', x) && Windowed(cfg, db', x) {
      assert TaskOk(db, x) && Anchored(db, x) && Windowed(cfg, db, x);
    }
  }

  /** A renewal only moves the expiry … */
  ghost predicate Prolongs(db: Db, db': Db, l: Id) {
    && l in db.leases && Live(db.leases[l]) && l in db'.leases
    && db' == db.(leases := db.leases[l := db.leases[l].(expiresAt := db'.leases[l].expiresAt, state := Renewed)])
  }

  /** … and never past the horizon. */
  ghost predicate Extends(cfg: Config, db: Db, db': Db, l: Id) {
    Prolongs(db, db', l) && Windowed(cfg, db', l)
  }

  lemma ExtendKeepsPairs(db: Db, db': Db, l: Id)
    requires PairInv(db) && Prolongs(db, db', l)
    ensures PairInv(db')
  {
    forall k ensures Matched(db', k) {
      assert Matched(db, k);
    }
    forall j, k ensures Unshared(db', j, k) && NotBothLive(db', j, k) {
      assert Unshared(db, j, k) && NotBothLive(db, j, k);
    }
  }

  lemma ExtendKeepsAnchors(cfg: Config, db: Db, db': Db, l: Id)
    requires AnchorInv(cfg, db) && Extends(cfg, db, db', l)
    ensures AnchorInv(cfg, db')
  {
    forall x ensures TaskOk(db', x) && Anchored(db', x) && Windowed(cfg, db', x) {
      assert TaskOk(db, x) && Anchored(db, x) && Windowed(cfg, db, x);
    }
  }

  lemma MissionsAdvanceKeepsAnchors(cfg: Config, db: Db, db': Db)
    requires AnchorInv(cfg, db) && MissionsAdvance(db, db') && db'.tasks == db.tasks && db'.leases == db.leases
    ensures AnchorInv(cfg, db')
  {
    forall x ensures TaskOk(db', x) && Anchored(db', x) && Windowed(cfg, db', x) {
      assert TaskOk(db, x) && Anchored(db, x) && Windowed(cfg, db, x);
    }
  }

  // ---- dependencies ----

  /** Finished tasks stay finished at their revision, unless their mission's graph moves on. */
  ghost predicate KeepsDependencies(db: Db, db': Db) {
    && MissionsAdvance(db, db')
    && (forall t :: t in db.tasks ==> t in db'.tasks && TaskKeepsDependencies(db, db', t))
  }

  ghost predicate TaskKeepsDependencies(db: Db, db': Db, t: Id)
    requires t in db.tasks && t in db'.tasks
  {
    var task, task' := db.tasks[t], db'.tasks[t];
    && task'.mission == task.mission && task'.project == task.project
    && task.graphRevision <= task'.graphRevision
    && (task.mission in db.missions && task.mission in db'.missions
        && db'.missions[task.mission].revision == db.missions[task.mission].revision ==>
          && task'.graphRevision == task.graphRevision
          && task'.deps == task.deps
          && (DependencyDone(task.status) ==> DependencyDone(task'.status)))
  }

  lemma KeepsDependencyMet(db: Db, db': Db, t: Id)
    requires TasksOk(db) && TaskOk(db, t) && KeepsDependencies(db, db') && t in db.tasks
    requires db'.missions[db.tasks[t].mission].revision == db.missions[db.tasks[t].mission].revision
    requires DependenciesSatisfied(db, db.tasks[t])
    ensures DependenciesSatisfied(db', db'.tasks[t])
  {
    assert TaskKeepsDependencies(db, db', t);
    forall d | d in db'.tasks[t].deps ensures DependencyMet(db', db'.tasks[t], d) {
      assert DependencyMet(db, db.tasks[t], d);
      assert TaskKeepsDependencies(db, db', d);
    }
  }

  /** `born` holds the lease this step creates, if any. */
  lemma KeepsDependenciesHeld(cfg: Config, db: Db, db': Db, born: set<Id>)
    requires AnchorInv(cfg, db) && DependenciesHeld(db) && KeepsDependencies(db, db')
    requires forall l :: l in db'.leases && Live(db'.leases[l]) && l !in born ==>
               l in db.leases && Live(db.leases[l]) && SameStamps(db.leases[l], db'.leases[l])
    requires forall l :: l in born ==> HoldsDependencies(db', l)
    ensures DependenciesHeld(db')
  {
    forall l ensures HoldsDependencies(db', l) {
      if l in db'.leases && Live(db'.leases[l]) && l !in born {
        var lease := db.leases[l];
        assert Anchored(db, l) && HoldsDependencies(db, l);
        if db'.missions[lease.mission].revision == lease.taskRevision {
          assert TaskOk(db, lease.task);
          KeepsDependencyMet(db, db', lease.task);
        }
      }
    }
  }

  // ---- leased tasks ----

  /** The statuses of tasks stay; a mission whose graph moved on had moved on, or moves on now. */
  lemma SameStatusesKeepTasks(cfg: Config, db: Db, db': Db)
    requires AnchorInv(cfg, db) && TasksHeld(db) && MissionsAdvance(db, db')
    requires forall t :: t in db'.tasks && t in db.tasks ==> db'.tasks[t].status == db.tasks[t].status
    requires forall l :: l in db'.leases && Live(db'.leases[l]) ==>
               l in db.leases && Live(db.leases[l]) && SameStamps(db.leases[l], db'.leases[l])
    ensures TasksHeld(db')
  {
    forall l ensures HoldsTask(db', l) {
      if l in db'.leases && Live(db'.leases[l]) {
        assert Anchored(db, l) && HoldsTask(db, l) && TaskOk(db, db.leases[l].task);
      }
    }
  }

  lemma CloseKeepsTasks(cfg: Config, db: Db, db': Db, l: Id)
    requires AnchorInv(cfg, db) && TasksHeld(db) && OneLiveLease(db) && Closes(db, db', l)
    ensures TasksHeld(db')
  {
    forall k ensures HoldsTask(db', k) {
      assert HoldsTask(db, k) && NotBothLive(db, k, l);
    }
  }

  lemma BindKeepsTasks(cfg: Config, db: Db, worker: Id, t: Id, now: Time, seconds: int, a: Id, l: Id)
    requires TasksHeld(db)
    requires worker in db.workers && Claimable(db, db.workers[worker], t) && l !in db.leases
    ensures TasksHeld(BindClaim(cfg, db, worker, t, now, seconds, a, l))
  {
    var db' := BindClaim(cfg, db, worker, t, now, seconds, a, l);
    forall k ensures HoldsTask(db', k) {
      assert HoldsTask(db, k);
    }
  }

  lemma CommitKeepsTasks(cfg: Config, db: Db, db': Db, mission: Id)
    requires AnchorInv(cfg, db) && TasksHeld(db) && Commits(db, db', mission)
    ensures TasksHeld(db')
  {
    forall l ensures HoldsTask(db', l) {
      assert HoldsTask(db, l);
      if l in db.leases {
        var t := db.leases[l].task;
        assert Anchored(db, l) && TaskOk(db, t) && TaskCommitted(db, db', mission, t);
      }
    }
  }

  // ---- results ----

  lemma KeepsResultInv(db: Db, db': Db)
    requires ResultInv(db) && db'.results == db.results && KeepsAcceptance(db, db')
    requires LeasesAnchored(db) || SameRevisions(db, db')
    ensures ResultInv(db')
  {
    forall q, r ensures NotBothAccepted(db', q, r) {
      assert NotBothAccepted(db, q, r);
    }
    forall r ensures ResultOk(db', r) && Sealed(db', r) && Settled(db', r) {
      assert ResultOk(db, r) && Sealed(db, r) && Settled(db, r);
      if IsAccepted(db, r) {
        assert Anchored(db, db.results[r].lease) || SameRevisions(db, db');
        assert TaskKeepsAcceptance(db, db', db.results[r].task);
      }
    }
  }

  lemma CloseKeepsAcceptance(db: Db, db': Db, l: Id)
    requires PairInv(db) && Closes(db, db', l)
    requires db.leases[l].task in db.tasks ==>
               !db.tasks[db.leases[l].task].status.Accepted? || db'.tasks == db.tasks
    ensures KeepsAcceptance(db, db')
  {
    assert Matched(db, l);
    forall t | t in db.tasks ensures t in db'.tasks && TaskKeepsAcceptance(db, db', t) {
      if HasLiveLease(db', t) {
        var k :| k in db'.leases && db'.leases[k].task == t && Live(db'.leases[k]);
        assert k in db.leases && db.leases[k].task == t && Live(db.leases[k]);
      }
    }
  }

  // ---- outbox ----

  ghost predicate RecordsGrow(db: Db, db': Db) {
    && MissionsAdvance(db, db')
    && (forall a :: a in db.attempts ==> a in db'.attempts)
    && (forall r :: r in db.results ==> r in db'.results)
    && (forall r :: IsAccepted(db, r) ==> IsAccepted(db', r))
    && (forall l :: l in db.leases && db.leases[l].state.Cancelled? ==>
          l in db'.leases && db'.leases[l].state.Cancelled?)
  }

  lemma OutboxStays(db: Db, db': Db)
    requires OutboxInv(db) && RecordsGrow(db, db') && db'.outbox == db.outbox
    requires forall a :: a in db'.attempts ==> a in db.attempts
    requires forall r :: r in db'.results ==> r in db.results
    requires forall r :: IsAccepted(db', r) ==> IsAccepted(db, r)
    requires forall l :: l in db'.leases && db'.leases[l].state.Cancelled? ==>
               l in db.leases && db.leases[l].state.Cancelled?
    ensures OutboxInv(db')
  {
    forall x ensures Announced(db', x) {
      assert Announced(db, x);
    }
    forall i, j ensures CancelledApart(db', i, j) {
      assert CancelledApart(db, i, j);
    }
  }

  lemma OutboxAppends(db: Db, db': Db, e: WorkflowId)
    requires OutboxInv(db) && RecordsGrow(db, db') && db'.outbox == db.outbox + [e]
    requires Recorded(db', e) && !Recorded(db, e)
    requires forall a :: a in db'.attempts ==> a in db.attempts || e == ClaimedAttempt(a)
    requires forall r :: r in db'.results ==> r in db.results || e == SubmittedResult(r)
    requires forall r :: IsAccepted(db', r) ==> IsAccepted(db, r) || e == AcceptedResult(r)
    requires forall l :: l in db'.leases && db'.leases[l].state.Cancelled? ==>
               (l in db.leases && db.leases[l].state.Cancelled?) || (e.CancelledLease? && e.lease == l)
    ensures OutboxInv(db')
  {
    forall i, j ensures CancelledApart(db', i, j) {
      assert CancelledApart(db, i, j);
      if 0 <= i < j == |db.outbox| {
        assert db.outbox[i] in db.outbox && Recorded(db, db.outbox[i]);
      }
    }
    assert e in db'.outbox;
    assert forall x :: x in db.outbox ==> x in db'.outbox;
    forall l ensures Announced(db', l) {
      assert Announced(db, l);
      if l in db.leases && db.leases[l].state.Cancelled? {
        var s :| CancelledLease(l, s) in db.outbox;
        assert CancelledLease(l, s) in db'.outbox;
      }
    }
  }

  // ---- steps ----

  lemma ClaimKeepsInv(cfg: Config, db: Db, worker: Id, t: Id, now: Time, seconds: int, a: Id, l: Id)
    requires Inv(cfg, db)
    requires worker in db.workers && Claimable(db, db.workers[worker], t)
    requires a !in db.attempts && l !in db.leases
    ensures Inv(cfg, BindClaim(cfg, db, worker, t, now, seconds, a, l))
  {
    var db' := BindClaim(cfg, db, worker, t, now, seconds, a, l);
    BindKeepsAnchors(cfg, db, worker, t, now, seconds, a, l);
    BindKeepsPairs(cfg, db, worker, t, now, seconds, a, l);
    OwnedAfter(db, db', l);
    ClaimKeepsDependencies(cfg, db, worker, t, now, seconds, a, l);
    BindKeepsTasks(cfg, db, worker, t, now, seconds, a, l);
    ClaimKeepsResults(cfg, db, worker, t, now, seconds, a, l);
    OutboxAppends(db, db', ClaimedAttempt(a));
  }

  lemma ClaimKeepsDependencies(cfg: Config, db: Db, worker: Id, t: Id, now: Time, seconds: int, a: Id, l: Id)
    requires AnchorInv(cfg, db) && DependenciesHeld(db)
    requires worker in db.workers && Claimable(db, db.workers[worker], t) && l !in db.leases
    ensures DependenciesHeld(BindClaim(cfg, db, worker, t, now, seconds, a, l))
  {
    var db' := BindClaim(cfg, db, worker, t, now, seconds, a, l);
    assert TaskOk(db, t);
    KeepsDependencyMet(db, db', t);
    KeepsDependenciesHeld(cfg, db, db', {l});
  }

  lemma ClaimKeepsResults(cfg: Config, db: Db, worker: Id, t: Id, now: Time, seconds: int, a: Id, l: Id)
    requires ResultInv(db)
    requires worker in db.workers && Claimable(db, db.workers[worker], t)
    requires a !in db.attempts && l !in db.leases
    ensures ResultInv(BindClaim(cfg, db, worker, t, now, seconds, a, l))
  {
    var db' := BindClaim(cfg, db, worker, t, now, seconds, a, l);
    forall x | x in db.tasks ensures TaskKeepsAcceptance(db, db', x) {
      if x != t && HasLiveLease(db', x) {
        var k :| k in db'.leases && db'.leases[k].task == x && Live(db'.leases[k]);
        assert k in db.leases && db.leases[k].task == x;
      }
    }
    KeepsResultInv(db, db');
  }

  lemma RenewKeepsInv(cfg: Config, db: Db, l: Id, worker: Id, generation: int, token: string,
                      asked: Option<int>, now: Time)
    requires Inv(cfg, db)
    requires RenewFault(cfg, db, l, worker, generation, token, asked, now).None?
    ensures Inv(cfg, Renew(cfg, db, l, worker, generation, token, asked, now).db)
  {
    var db' := Renew(cfg, db, l, worker, generation, token, asked, now).db;
    assert Windowed(cfg, db, l);
    ExtensionKeepsInv(cfg, db, db', l);
  }

  lemma ExtensionKeepsInv(cfg: Config, db: Db, db': Db, l: Id)
    requires Inv(cfg, db) && Extends(cfg, db, db', l)
    ensures Inv(cfg, db')
  {
    ExtendKeepsAnchors(cfg, db, db', l);
    ExtendKeepsPairs(db, db', l);
    OwnedAfter(db, db', l);
    KeepsDependenciesHeld(cfg, db, db', {});
    SameStatusesKeepTasks(cfg, db, db');
    ExtensionKeepsResults(db, db', l);
    OutboxStays(db, db');
  }

  lemma ExtensionKeepsResults(db: Db, db': Db, l: Id)
    requires ResultInv(db) && Prolongs(db, db', l)
    ensures ResultInv(db')
  {
    forall t | t in db.tasks ensures TaskKeepsAcceptance(db, db', t) {
      if HasLiveLease(db', t) {
        var k :| k in db'.leases && db'.leases[k].task == t && Live(db'.leases[k]);
        assert k in db.leases && db.leases[k].task == t;
      }
    }
    KeepsResultInv(db, db');
  }

  lemma CloseKeepsLeases(cfg: Config, db: Db, db': Db, l: Id)
    requires AnchorInv(cfg, db) && PairInv(db) && AttemptsOwned(db) && DependenciesHeld(db) && TasksHeld(db)
    requires Closes(db, db', l)
    ensures AnchorInv(cfg, db') && PairInv(db') && AttemptsOwned(db') && DependenciesHeld(db') && TasksHeld(db')
  {
    CloseKeepsAnchors(cfg, db, db', l);
    CloseKeepsPairs(db, db', l);
    OwnedAfter(db, db', l);
    CloseKeepsDependencies(db, db', l);
    KeepsDependenciesHeld(cfg, db, db', {});
    CloseKeepsTasks(cfg, db, db', l);
  }

  lemma CloseKeepsDependencies(db: Db, db': Db, l: Id)
    requires Closes(db, db', l)
    ensures KeepsDependencies(db, db')
  {
  }

  lemma ExpireOneCloses(db: Db, l: Id, now: Time)
    requires LeasesMatched(db) && l in db.leases && Live(db.leases[l])
    ensures Closes(db, ExpireOne(db, l, now), l)
  {
    assert Matched(db, l);
  }

  lemma ExpireOneKeepsInv(cfg: Config, db: Db, l: Id, now: Time)
    requires Inv(cfg, db) && l in db.leases && Live(db.leases[l])
    ensures Inv(cfg, ExpireOne(db, l, now))
  {
    var db' := ExpireOne(db, l, now);
    ExpireOneCloses(db, l, now);
    CloseKeepsLeases(cfg, db, db', l);
    CloseKeepsAcceptance(db, db', l);
    KeepsResultInv(db, db');
    OutboxStays(db, db');
  }

  lemma CancelOneCloses(db: Db, l: Id, reason: string, now: Time)
    requires LeasesMatched(db) && l in db.leases && Live(db.leases[l])
    ensures Closes(db, CancelOne(db, l, reason, now), l)
  {
    assert Matched(db, l);
  }

  lemma CancelOneKeepsInv(cfg: Config, db: Db, l: Id, reason: string, now: Time)
    requires Inv(cfg, db) && l in db.leases && Live(db.leases[l])
    ensures Inv(cfg, CancelOne(db, l, reason, now))
  {
    var db' := CancelOne(db, l, reason, now);
    CancelOneCloses(db, l, reason, now);
    CloseKeepsLeases(cfg, db, db', l);
    CloseKeepsAcceptance(db, db', l);
    KeepsResultInv(db, db');
    OutboxAppends(db, db', CancelledLease(l, EpochSeconds(now)));
  }

  lemma SameLeasesKeepOwned(db: Db, db': Db)
    requires AttemptsOwned(db) && db'.leases == db.leases && db'.attempts == db.attempts
    ensures AttemptsOwned(db')
  {
    forall a ensures Owned(db', a) {
      assert Owned(db, a);
    }
  }

  lemma SameLeasesKeepPairs(db: Db, db': Db)
    requires PairInv(db) && db'.leases == db.leases && db'.attempts == db.attempts
    ensures PairInv(db')
  {
    forall k ensures Matched(db', k) {
      assert Matched(db, k);
    }
    forall j, k ensures Unshared(db', j, k) && NotBothLive(db', j, k) {
      assert Unshared(db, j, k) && NotBothLive(db, j, k);
    }
  }

  /** Only the mission table (and the worker table) changed. */
  lemma MissionStepKeepsLeases(cfg: Config, db: Db, db': Db)
    requires AnchorInv(cfg, db) && PairInv(db) && AttemptsOwned(db) && DependenciesHeld(db) && TasksHeld(db)
    requires MissionsAdvance(db, db')
    requires db'.tasks == db.tasks && db'.leases == db.leases && db'.attempts == db.attempts
    ensures AnchorInv(cfg, db') && PairInv(db') && AttemptsOwned(db') && DependenciesHeld(db') && TasksHeld(db')
  {
    MissionsAdvanceKeepsAnchors(cfg, db, db');
    SameLeasesKeepPairs(db, db');
    SameLeasesKeepOwned(db, db');
    KeepsDependenciesHeld(cfg, db, db', {});
    SameStatusesKeepTasks(cfg, db, db');
  }

  lemma MissionStepKeepsInv(cfg: Config, db: Db, db': Db)
    requires Inv(cfg, db) && MissionsAdvance(db, db')
    requires db'.tasks == db.tasks && db'.leases == db.leases && db'.attempts == db.attempts
    requires db'.results == db.results
    requires db'.outbox == db.outbox
    ensures Inv(cfg, db')
  {
    MissionStepKeepsLeases(cfg, db, db');
    MissionStepKeepsResults(db, db');
    OutboxStays(db, db');
  }

  lemma MissionWriteKeepsInv(cfg: Config, db: Db, mission: Id, m: Mission)
    requires Inv(cfg, db)
    requires mission in db.missions ==>
               && m.project == db.missions[mission].project
               && db.missions[mission].revision <= m.revision && db.missions[mission].cancelGen <= m.cancelGen
    ensures Inv(cfg, WithMission(db, mission, m))
  {
    MissionStepKeepsInv(cfg, db, WithMission(db, mission, m));
  }

  lemma MissionStepKeepsResults(db: Db, db': Db)
    requires ResultInv(db)
    requires db'.tasks == db.tasks && db'.leases == db.leases && db'.attempts == db.attempts
    requires db'.results == db.results
    ensures ResultInv(db')
  {
    forall t | t in db.tasks ensures TaskKeepsAcceptance(db, db', t) {
      assert HasLiveLease(db', t) == HasLiveLease(db, t);
    }
    KeepsResultInv(db, db');
  }

  lemma BumpGenerationKeepsInv(cfg: Config, db: Db, mission: Id)
    requires Inv(cfg, db) && mission in db.missions
    ensures Inv(cfg, BumpGeneration(db, mission))
  {
    var db' := BumpGeneration(db, mission);
    MissionStepKeepsLeases(cfg, db, db');
    MissionStepKeepsResults(db, db');
    OutboxAppends(db, db', BumpedGeneration(mission, db.missions[mission].cancelGen + 1));
  }

  lemma SubmitKeepsInv(cfg: Config, db: Db, l: Id, worker: Id, token: string, generation: int,
                       checks: Checks, refs: set<string>, now: Time, r: Id)
    requires Inv(cfg, db) && SubmitFault(db, l, worker, token, generation).None? && r !in db.results
    ensures Inv(cfg, Submit(db, l, worker, token, generation, checks, refs, now, r).db)
  {
    var db' := Submit(db, l, worker, token, generation, checks, refs, now, r).db;
    MissionStepKeepsLeases(cfg, db, db');
    SameAcceptedKeepsResults(db, db', r);
    OutboxAppends(db, db', SubmittedResult(r));
  }

  /** Only result `r` is written, and it is not accepted on either side. */
  lemma SameAcceptedKeepsResults(db: Db, db': Db, r: Id)
    requires ResultInv(db) && r in db'.results && !IsAccepted(db, r) && !IsAccepted(db', r) && ResultOk(db', r)
    requires db'.tasks == db.tasks && db'.leases == db.leases && db'.attempts == db.attempts
    requires db'.results == db.results[r := db'.results[r]]
    ensures ResultInv(db')
  {
    forall p, q ensures NotBothAccepted(db', p, q) {
      assert NotBothAccepted(db, p, q);
    }
    forall q ensures ResultOk(db', q) && Sealed(db', q) && Settled(db', q) {
      assert ResultOk(db, q) && Sealed(db, q) && Settled(db, q);
      if IsAccepted(db, q) {
        assert HasLiveLease(db', db.results[q].task) == HasLiveLease(db, db.results[q].task);
      }
    }
  }

  lemma RejectKeepsInv(cfg: Config, db: Db, r: Id, fault: Fault, keep: bool)
    requires Inv(cfg, db) && r in db.results && !IsAccepted(db, r)
    ensures Inv(cfg, RejectMark(db, r, fault, keep))
  {
    var db' := RejectMark(db, r, fault, keep);
    if keep {
      assert ResultOk(db, r);
      MissionStepKeepsLeases(cfg, db, db');
      SameAcceptedKeepsResults(db, db', r);
      OutboxStays(db, db');
    }
  }

  // ---- acceptance ----

  /** The acceptance fence passes for `r` at `now`. */
  ghost predicate FencePasses(db: Db, r: Id, now: Time) {
    && r in db.results
    && var result := db.results[r];
    && result.lease in db.leases && result.attempt in db.attempts && result.task in db.tasks
    && AcceptFence(db, r, result, db.leases[result.lease], db.attempts[result.attempt],
                   db.tasks[result.task], now).None?
  }

  lemma MarkAcceptedCloses(db: Db, r: Id, now: Time)
    requires LeasesMatched(db) && FencePasses(db, r, now)
    ensures Closes(db, MarkAccepted(db, r, now), db.results[r].lease)
  {
    assert Matched(db, db.results[r].lease);
  }

  /** Nothing else is live on the task, and the task is now accepted. */
  lemma MarkAcceptedSettles(db: Db, r: Id, now: Time)
    requires OneLiveLease(db) && FencePasses(db, r, now)
    ensures var db' := MarkAccepted(db, r, now);
            db'.tasks[db.results[r].task].status.Accepted? && !HasLiveLease(db', db.results[r].task)
  {
    var db' := MarkAccepted(db, r, now);
    var t := db.results[r].task;
    forall k | k in db'.leases && db'.leases[k].task == t ensures !Live(db'.leases[k]) {
      assert NotBothLive(db, k, db.results[r].lease);
    }
  }

  /** No earlier acceptance covers the same task and revision. */
  lemma NoEarlierAcceptance(db: Db, r: Id, now: Time, q: Id)
    requires AcceptedSettled(db) && FencePasses(db, r, now) && IsAccepted(db, q)
    ensures db.results[q].task != db.results[r].task || db.results[q].taskRevision != db.results[r].taskRevision
  {
    assert Settled(db, q);
    assert db.leases[db.results[r].lease].task == db.results[r].task;
  }

  lemma MarkAcceptedKeepsResults(db: Db, r: Id, now: Time)
    requires PairInv(db) && ResultInv(db) && FencePasses(db, r, now) && !IsAccepted(db, r)
    ensures ResultInv(MarkAccepted(db, r, now))
  {
    var db' := MarkAccepted(db, r, now);
    var lease := db.results[r].lease;
    MarkAcceptedSettles(db, r, now);
    forall q ensures ResultOk(db', q) && Sealed(db', q) && Settled(db', q) {
      assert ResultOk(db, q) && Sealed(db, q) && Settled(db, q) && ResultOk(db, r);
      if IsAccepted(db, q) {
        assert Unshared(db, db.results[q].lease, lease) && Matched(db, lease);
        if HasLiveLease(db', db.results[q].task) {
          var k :| k in db'.leases && db'.leases[k].task == db.results[q].task && Live(db'.leases[k]);
          assert k in db.leases && db.leases[k].task == db.results[q].task && Live(db.leases[k]);
        }
      }
    }
    forall p, q ensures NotBothAccepted(db', p, q) {
      assert NotBothAccepted(db, p, q);
      if p == r && IsAccepted(db, q) {
        NoEarlierAcceptance(db, r, now, q);
      } else if q == r && IsAccepted(db, p) {
        NoEarlierAcceptance(db, r, now, p);
      }
    }
  }

  lemma MarkAcceptedKeepsInv(cfg: Config, db: Db, r: Id, now: Time)
    requires Inv(cfg, db) && FencePasses(db, r, now) && !IsAccepted(db, r)
    ensures Inv(cfg, MarkAccepted(db, r, now))
  {
    var db' := MarkAccepted(db, r, now);
    MarkAcceptedCloses(db, r, now);
    CloseKeepsLeases(cfg, db, db', db.results[r].lease);
    MarkAcceptedKeepsResults(db, r, now);
    OutboxAppends(db, db', AcceptedResult(r));
  }

  lemma AcceptKeepsInv(cfg: Config, db: Db, r: Id, now: Time, keep: bool)
    requires Inv(cfg, db)
    ensures Inv(cfg, Accept(db, r, now, keep).db)
  {
    var step := Accept(db, r, now, keep);
    if r in db.results && db.results[r].state.Submitted? {
      if step.reply.Done? {
        MarkAcceptedKeepsInv(cfg, db, r, now);
      } else {
        RejectKeepsInv(cfg, db, r, step.reply.fault, keep);
      }
    }
  }

  // ---- graph commits ----

  /** A graph commit: the mission moves one revision on, and only its own tasks are written, at
      the new revision. */
  ghost predicate Commits(db: Db, db': Db, mission: Id) {
    && mission in db.missions
    && db' == db.(tasks := db'.tasks, missions := BumpRevision(db, mission).missions)
    && (forall t :: TaskCommitted(db, db', mission, t))
  }

  ghost predicate TaskCommitted(db: Db, db': Db, mission: Id, t: Id)
    requires mission in db.missions
  {
    && (t in db.tasks ==>
          && t in db'.tasks && db'.tasks[t].mission == db.tasks[t].mission
          && db'.tasks[t].project == db.tasks[t].project && db'.tasks[t].createdAt == db.tasks[t].createdAt)
    && (t in db'.tasks ==>
          || (t in db.tasks && db'.tasks[t] == db.tasks[t])
          || (db'.tasks[t].mission == mission && db'.tasks[t].graphRevision == db.missions[mission].revision + 1))
  }

  lemma {:induction false} UpsertsCommit(db: Db, mid: Db, mission: Id, specs: seq<TaskSpec>, now: Time)
    requires Commits(db, mid, mission)
    requires forall i :: 0 <= i < |specs| ==>
               specs[i].mission == mission && (specs[i].id in mid.tasks ==> mid.tasks[specs[i].id].mission == mission)
    ensures Commits(db, UpsertAll(mid, specs, db.missions[mission].revision + 1, now), mission)
    decreases |specs|
  {
    if specs != [] {
      var next := UpsertTask(mid, specs[0], db.missions[mission].revision + 1, now);
      forall t ensures TaskCommitted(db, next, mission, t) {
        assert TaskCommitted(db, mid, mission, t);
      }
      UpsertsCommit(db, next, mission, specs[1..], now);
    }
  }

  lemma CommitGraphCommits(db: Db, p: Proposal, now: Time)
    requires HomeProposal(db, p) && p.mission in db.missions && db.missions[p.mission].revision == p.basedOn
    ensures Commits(db, CommitGraph(db, p, now).db, p.mission)
  {
    var mid := BumpRevision(db, p.mission);
    assert forall t :: TaskCommitted(db, mid, p.mission, t);
    UpsertsCommit(db, mid, p.mission, p.specs, now);
  }

  lemma CommitKeepsAnchors(cfg: Config, db: Db, db': Db, mission: Id)
    requires AnchorInv(cfg, db) && Commits(db, db', mission)
    ensures AnchorInv(cfg, db')
  {
    forall x ensures TaskOk(db', x) && Anchored(db', x) && Windowed(cfg, db', x) {
      assert TaskOk(db, x) && Anchored(db, x) && Windowed(cfg, db, x) && TaskCommitted(db, db', mission, x);
      if x in db.leases {
        assert TaskOk(db, db.leases[x].task) && TaskCommitted(db, db', mission, db.leases[x].task);
      }
    }
  }

  lemma CommitKeepsDependencies(db: Db, db': Db, mission: Id)
    requires TasksOk(db) && Commits(db, db', mission)
    ensures KeepsDependencies(db, db')
  {
    forall t | t in db.tasks ensures t in db'.tasks && TaskKeepsDependencies(db, db', t) {
      assert TaskOk(db, t) && TaskCommitted(db, db', mission, t);
    }
  }

  lemma CommitKeepsResults(cfg: Config, db: Db, db': Db, mission: Id)
    requires AnchorInv(cfg, db) && ResultInv(db) && Commits(db, db', mission)
    ensures ResultInv(db')
  {
    forall t | t in db.tasks ensures t in db'.tasks && TaskKeepsAcceptance(db, db', t) {
      assert TaskOk(db, t) && TaskCommitted(db, db', mission, t);
      assert HasLiveLease(db', t) == HasLiveLease(db, t);
    }
    KeepsResultInv(db, db');
  }

  lemma CommitKeepsInv(cfg: Config, db: Db, db': Db, mission: Id)
    requires Inv(cfg, db) && Commits(db, db', mission)
    ensures Inv(cfg, db')
  {
    CommitKeepsAnchors(cfg, db, db', mission);
    CommitKeepsDependencies(db, db', mission);
    KeepsDependenciesHeld(cfg, db, db', {});
    CommitKeepsTasks(cfg, db, db', mission);
    SameLeasesKeepPairs(db, db');
    SameLeasesKeepOwned(db, db');
    CommitKeepsResults(cfg, db, db', mission);
    OutboxStays(db, db');
  }

  // ---- batches ----

  lemma {:induction false} ExpireAllKeepsInv(cfg: Config, db: Db, batch: seq<Id>, now: Time)
    requires Inv(cfg, db)
    requires forall i :: 0 <= i < |batch| ==> batch[i] in db.leases && Live(db.leases[batch[i]])
    requires forall i, j :: 0 <= i < j < |batch| ==> batch[i] != batch[j]
    ensures Inv(cfg, ExpireAll(db, batch, now))
    decreases |batch|
  {
    if batch != [] {
      ExpireOneKeepsInv(cfg, db, batch[0], now);
      ExpireAllKeepsInv(cfg, ExpireOne(db, batch[0], now), batch[1..], now);
    }
  }

  lemma {:induction false} CancelAllKeepsInv(cfg: Config, db: Db, ls: seq<Id>, reason: string, now: Time)
    requires Inv(cfg, db)
    requires forall i :: 0 <= i < |ls| ==> ls[i] in db.leases && Live(db.leases[ls[i]])
    requires forall i, j :: 0 <= i < j < |ls| ==> ls[i] != ls[j]
    ensures Inv(cfg, CancelAll(db, ls, reason, now))
    decreases |ls|
  {
    if ls != [] {
      CancelOneKeepsInv(cfg, db, ls[0], reason, now);
      CancelAllKeepsInv(cfg, CancelOne(db, ls[0], reason, now), ls[1..], reason, now);
    }
  }

  lemma RevokeKeepsInv(cfg: Config, db: Db, mission: Id, reason: string, notify: bool, now: Time)
    requires Inv(cfg, db)
    ensures Inv(cfg, Revoke(db, mission, reason, notify, now).db)
  {
    if mission in db.missions {
      var bumped := BumpGeneration(db, mission);
      BumpGenerationKeepsInv(cfg, db, mission);
      if notify {
        TextOrderIsLinear();
        AscendingIsDistinct(LiveLeasesOf(bumped, mission), TextLess);
        CancelAllKeepsInv(cfg, bumped, LiveLeasesOf(bumped, mission), reason, now);
      }
    }
  }

  // ---- every step ----

  lemma ClaimStepKeepsInv(cfg: Config, db: Db, worker: Id, token: string, now: Time, asked: Option<int>,
                          hidden: set<Id>, a: Id, l: Id)
    requires Inv(cfg, db)
    ensures Inv(cfg, Claim(cfg, db, worker, token, now, asked, hidden, a, l).db)
  {
    var step := Claim(cfg, db, worker, token, now, asked, hidden, a, l);
    if step.reply.Done? {
      KeyOrderIsLinear();
      var t := Least(ClaimKeys(db, db.workers[worker], hidden), KeyLess).id;
      ClaimKeepsInv(cfg, db, worker, t, now, LeaseSeconds(cfg, asked), a, l);
    }
  }

  /** Registration changes touch one worker row, and never clear a revocation. */
  lemma WorkerStepTouchesOneRow(db: Db, worker: Id, op: WorkerOp)
    ensures var db' := ApplyWorker(db, worker, op).db;
            db' == db || (worker in db'.workers && db' == db.(workers := db.workers[worker := db'.workers[worker]])
                          && (worker in db.workers && db.workers[worker].revokedAt.Some? ==>
                                db'.workers[worker].revokedAt.Some?))
  {
  }

  lemma WorkerStepKeepsInv(cfg: Config, db: Db, worker: Id, op: WorkerOp)
    requires Inv(cfg, db)
    ensures Inv(cfg, ApplyWorker(db, worker, op).db)
  {
    var db' := ApplyWorker(db, worker, op).db;
    WorkerStepTouchesOneRow(db, worker, op);
    MissionStepKeepsInv(cfg, db, db');
  }

  lemma LeaseStepKeepsInv(cfg: Config, db: Db, op: Op)
    requires Inv(cfg, db) && Admissible(db, op)
    requires op.OpRenew? || op.OpExpire? || op.OpSubmit? || op.OpAccept? || op.OpCancelLease?
    ensures Inv(cfg, Apply(cfg, db, op).db)
  {
    match op
    case OpRenew(lease, worker, generation, token, asked, now) =>
      if RenewFault(cfg, db, lease, worker, generation, token, asked, now).None? {
        RenewKeepsInv(cfg, db, lease, worker, generation, token, asked, now);
      }
    case OpExpire(batch, now, _, _, _) =>
      ExpireAllKeepsInv(cfg, db, batch, now);
    case OpSubmit(lease, worker, token, generation, checks, refs, now, result) =>
      if Submit(db, lease, worker, token, generation, checks, refs, now, result).reply.Done? {
        SubmitKeepsInv(cfg, db, lease, worker, token, generation, checks, refs, now, result);
      }
    case OpAccept(result, now, keep) =>
      AcceptKeepsInv(cfg, db, result, now, keep);
    case OpCancelLease(lease, reason, now) =>
      if lease in db.leases && Live(db.leases[lease]) {
        CancelOneKeepsInv(cfg, db, lease, reason, now);
      }
  }

  lemma CancelMissionKeepsInv(cfg: Config, db: Db, mission: Id, now: Time)
    requires Inv(cfg, db)
    ensures Inv(cfg, CancelMission(db, mission, now).db)
  {
    RevokeKeepsInv(cfg, db, mission, "cancelled", true, now);
    var revoked := Revoke(db, mission, "cancelled", true, now);
    if revoked.reply.Done? {
      MissionWriteKeepsInv(cfg, revoked.db, mission, revoked.db.missions[mission].(status := MissionStatus.Cancelled));
    }
  }

  lemma CommitStepKeepsInv(cfg: Config, db: Db, p: Proposal, now: Time)
    requires Inv(cfg, db) && HomeProposal(db, p)
    ensures Inv(cfg, CommitGraph(db, p, now).db)
  {
    if CommitGraph(db, p, now).reply.Done? {
      CommitGraphCommits(db, p, now);
      CommitKeepsInv(cfg, db, CommitGraph(db, p, now).db, p.mission);
    }
  }

  lemma MissionRowStepKeepsInv(cfg: Config, db: Db, op: Op)
    requires Inv(cfg, db) && Admissible(db, op)
    requires op.OpInsertMission? || op.OpMissionStatus? || op.OpMissionSource?
    ensures Inv(cfg, Apply(cfg, db, op).db)
  {
    match op
    case OpInsertMission(mission, row) =>
      if mission !in db.missions {
        MissionWriteKeepsInv(cfg, db, mission, row);
      }
    case OpMissionStatus(mission, status) =>
      if mission in db.missions {
        MissionWriteKeepsInv(cfg, db, mission, db.missions[mission].(status := status));
      }
    case OpMissionSource(mission, source) =>
      if mission in db.missions {
        MissionWriteKeepsInv(cfg, db, mission, db.missions[mission].(source := source));
      }
  }

  /** The invariant survives every admissible step. */
  lemma StepKeepsInv(cfg: Config, db: Db, op: Op)
    requires Inv(cfg, db) && Admissible(db, op)
    ensures Inv(cfg, Apply(cfg, db, op).db)
  {
    match op
    case OpClaim(worker, token, now, asked, hidden, a, l) =>
      ClaimStepKeepsInv(cfg, db, worker, token, now, asked, hidden, a, l);
    case OpRevoke(mission, reason, notify, now) => RevokeKeepsInv(cfg, db, mission, reason, notify, now);
    case OpCancelMission(mission, now) => CancelMissionKeepsInv(cfg, db, mission, now);
    case OpCommit(proposal, now) => CommitStepKeepsInv(cfg, db, proposal, now);
    case OpWorker(worker, wop) => WorkerStepKeepsInv(cfg, db, worker, wop);
    case OpInsertMission(_, _) => MissionRowStepKeepsInv(cfg, db, op);
    case OpMissionStatus(_, _) => MissionRowStepKeepsInv(cfg, db, op);
    case OpMissionSource(_, _) => MissionRowStepKeepsInv(cfg, db, op);
    case _ => LeaseStepKeepsInv(cfg, db, op);
  }
}
