/** Task graphs stay acyclic and bounded over every run of the controller, so work never deadlocks. */
module ControlTheorems {
  import opened Common
  import opened LeaseRows
  import opened TaskGraph
  import opened MissionControl

  datatype ControlOp =
    | SubmitMission(mission: Id, charter: Charter)
    | Commit(proposal: GraphProposal)
    | Choose(mission: Id)
    | Verify(task: Id)

  ghost function Stepped(c: Control, op: ControlOp): Control {
    match op
    case SubmitMission(mission, charter) => Registered(c, mission, charter)
    case Commit(p) =>
      if p.mission !in c.missions then c
      else Committed(c, p, Judge(p, TasksOf(c, p.mission), c.missions[p.mission]))
    case Choose(mission) => Chosen(c, mission)
    case Verify(t) => Verified(c, t)
  }

  ghost predicate SoundGraph(tasks: Tasks) {
    IdsMatch(tasks) && !HasCycle(DependencyGraph(tasks))
  }

  ghost predicate Sound(c: Control) {
    forall m :: m in c.tasks ==> SoundGraph(c.tasks[m])
  }

  /** Every mission's graph is within its node limit. */
  ghost predicate Bounded(c: Control) {
    forall m :: m in c.missions ==> |TasksOf(c, m)| <= c.missions[m].maxNodes
  }

  /** Re-registering a mission with fewer nodes than it has breaks its limit; nothing else can. */
  ghost predicate RoomFor(c: Control, op: ControlOp) {
    op.SubmitMission? ==> |TasksOf(c, op.mission)| <= op.charter.maxNodes
  }

  ghost predicate ControlRun(states: seq<Control>, ops: seq<ControlOp>) {
    && |states| == |ops| + 1
    && states[0] == Control(map[], map[])
    && forall i :: 0 <= i < |ops| ==> states[i + 1] == Stepped(states[i], ops[i])
  }

  // ---- one step ----

  lemma {:induction false} OverlayIdsMatch(tasks: Tasks, specs: seq<Spec>)
    requires IdsMatch(tasks)
    ensures IdsMatch(Overlay(tasks, specs))
  {
    if specs != [] {
      OverlayIdsMatch(tasks, specs[..|specs| - 1]);
    }
  }

  lemma GraphOfWrite(tasks: Tasks, t: Id, spec: Spec)
    ensures DependencyGraph(tasks[t := spec]) == DependencyGraph(tasks)[t := spec.deps]
  {
  }

  /** Writing the specs as ready tasks gives the graph that validation looked at. */
  lemma {:induction false} ReadyCopiesSameGraph(tasks: Tasks, specs: seq<Spec>)
    ensures DependencyGraph(Overlay(tasks, ReadyCopies(specs))) == DependencyGraph(Overlay(tasks, specs))
  {
    var ready := ReadyCopies(specs);
    if specs == [] {
      assert ready == [];
    } else {
      var front, last := specs[..|specs| - 1], specs[|specs| - 1];
      assert ready[..|ready| - 1] == ReadyCopies(front);
      ReadyCopiesSameGraph(tasks, front);
      GraphOfWrite(Overlay(tasks, front), last.id, last);
      GraphOfWrite(Overlay(tasks, ReadyCopies(front)), last.id, ready[|ready| - 1]);
    }
  }

  lemma SameGraphSameSize(a: Tasks, b: Tasks)
    requires DependencyGraph(a) == DependencyGraph(b)
    ensures |a| == |b|
  {
    assert a.Keys == DependencyGraph(a).Keys && b.Keys == DependencyGraph(b).Keys;
    assert |a.Keys| == |a| && |b.Keys| == |b|;
  }

  lemma EmptyGraphIsSound()
    ensures SoundGraph(map[])
  {
    OrderedIsAcyclic(DependencyGraph(map[]), []);
  }

  lemma TasksOfSound(c: Control, mission: Id)
    requires Sound(c)
    ensures SoundGraph(TasksOf(c, mission))
  {
    EmptyGraphIsSound();
  }

  /** An accepted spawn keeps the graph acyclic and within the limit. */
  lemma SpawnKeepsGraph(tasks: Tasks, p: GraphProposal, m: Charter)
    requires SoundGraph(tasks) && Spawns(p.operation) && Favourable(Judge(p, tasks, m))
    ensures var after := Overlay(tasks, ReadyCopies(p.specs)); SoundGraph(after) && |after| <= m.maxNodes
  {
    FaultIsNotMerge(p.specs, tasks, m.scopes);
    assert SpawnReason(p.specs, tasks, m.maxNodes).SpawnOk?;
    ReadyCopiesSameGraph(tasks, p.specs);
    SameGraphSameSize(Overlay(tasks, ReadyCopies(p.specs)), Overlay(tasks, p.specs));
    OverlayIdsMatch(tasks, ReadyCopies(p.specs));
  }

  lemma StepKeepsSound(c: Control, op: ControlOp)
    requires Sound(c)
    ensures Sound(Stepped(c, op))
  {
    match op
    case SubmitMission(mission, charter) => TasksOfSound(c, mission);
    case Commit(p) =>
      TasksOfSound(c, p.mission);
      if p.mission in c.missions {
        var m, tasks := c.missions[p.mission], TasksOf(c, p.mission);
        if Spawns(p.operation) && Favourable(Judge(p, tasks, m)) {
          SpawnKeepsGraph(tasks, p, m);
        }
      }
    case Choose(mission) =>
      if mission in c.tasks {
        assert DependencyGraph(Promoted(c.tasks[mission])) == DependencyGraph(c.tasks[mission]);
      }
    case Verify(t) =>
      forall m | m in c.tasks ensures SoundGraph(Verified(c, t).tasks[m]) {
        assert DependencyGraph(Verified(c, t).tasks[m]) == DependencyGraph(c.tasks[m]);
      }
  }

  lemma OtherStepsKeepSizes(c: Control, op: ControlOp, m: Id)
    requires !op.Commit? || op.proposal.mission != m
    ensures |TasksOf(Stepped(c, op), m)| == |TasksOf(c, m)|
  {
    if op.Choose? && op.mission == m && m in c.tasks {
      SameGraphSameSize(Promoted(c.tasks[m]), c.tasks[m]);
    } else if op.Verify? && m in c.tasks {
      SameGraphSameSize(Verified(c, op.task).tasks[m], c.tasks[m]);
    }
  }

  /** A step keeps every graph within its limit exactly when it leaves room. */
  lemma StepKeepsBoundIff(c: Control, op: ControlOp)
    requires Sound(c) && Bounded(c)
    ensures Bounded(Stepped(c, op)) <==> RoomFor(c, op)
  {
    var c' := Stepped(c, op);
    if !RoomFor(c, op) {
      OtherStepsKeepSizes(c, op, op.mission);
      assert op.mission in c'.missions && |TasksOf(c', op.mission)| > c'.missions[op.mission].maxNodes;
    } else {
      forall m | m in c'.missions ensures |TasksOf(c', m)| <= c'.missions[m].maxNodes {
        if op.Commit? && op.proposal.mission == m {
          CommitKeepsBound(c, op.proposal);
        } else {
          OtherStepsKeepSizes(c, op, m);
        }
      }
    }
  }

  lemma CommitKeepsBound(c: Control, p: GraphProposal)
    requires Sound(c) && Bounded(c) && p.mission in c.missions
    ensures var c' := Stepped(c, Commit(p)); |TasksOf(c', p.mission)| <= c'.missions[p.mission].maxNodes
  {
    var m, tasks := c.missions[p.mission], TasksOf(c, p.mission);
    TasksOfSound(c, p.mission);
    if Spawns(p.operation) && Favourable(Judge(p, tasks, m)) {
      SpawnKeepsGraph(tasks, p, m);
    }
  }

  /** What verifying `t` changes for a mission that has it: `t` is no longer offered, every other choosable task
      stays choosable, and a waiting task becomes choosable exactly when `t` was all it was waiting for. */
  lemma VerificationUnlocks(c: Control, t: Id, m: Id, x: Id)
    requires m in c.tasks && x in c.tasks[m] && t in c.tasks[m]
    ensures var before, after := c.tasks[m], Verified(c, t).tasks[m];
            && after.Keys == before.Keys
            && after[x] == (if x == t then before[x].(status := TaskStatus.Accepted) else before[x])
            && (Choosable(after, x) <==>
                  && x != t && Waiting(before, x)
                  && forall d :: d in before[x].deps && d != t ==>
                       d in before && (before[d].status.Accepted? || before[d].status.Verifying?))
            && (x != t && Choosable(before, x) ==> Choosable(after, x))
  {
    var before, after := c.tasks[m], Verified(c, t).tasks[m];
    assert forall d :: d in before && d != t ==> after[d] == before[d];
    assert after[t].status.Accepted?;
    assert after[x].deps == before[x].deps;
  }

  // ---- runs ----

  /** Every mission's graph is acyclic at every point of every run. */
  lemma {:induction false} RunsStaySound(states: seq<Control>, ops: seq<ControlOp>, i: nat)
    requires ControlRun(states, ops) && i <= |ops|
    ensures Sound(states[i])
  {
    if i > 0 {
      RunsStaySound(states, ops, i - 1);
      StepKeepsSound(states[i - 1], ops[i - 1]);
    }
  }

  /** … and within its node limit for as long as no registration shrinks it below the graph. */
  lemma {:induction false} RunsStayBounded(states: seq<Control>, ops: seq<ControlOp>, i: nat)
    requires ControlRun(states, ops) && i <= |ops|
    requires forall k :: 0 <= k < i ==> RoomFor(states[k], ops[k])
    ensures Bounded(states[i])
  {
    if i > 0 {
      RunsStayBounded(states, ops, i - 1);
      RunsStaySound(states, ops, i - 1);
      StepKeepsBoundIff(states[i - 1], ops[i - 1]);
    }
  }

  // ---- progress ----

  ghost predicate Waiting(tasks: Tasks, t: Id) {
    t in tasks && (tasks[t].status.Proposed? || tasks[t].status.Ready?)
  }

  ghost predicate AllDependenciesPresent(tasks: Tasks) {
    forall t, d :: t in tasks && d in tasks[t].deps ==> d in tasks
  }

  ghost predicate NothingStuck(tasks: Tasks) {
    forall t :: t in tasks ==> Waiting(tasks, t) || tasks[t].status.Verifying? || tasks[t].status.Accepted?
  }

  /** While nothing is choosable, every waiting task waits for another one: follow that `n` times. */
  lemma {:induction false} WaitingWalk(tasks: Tasks, start: Id, n: nat) returns (w: seq<Id>)
    requires AllDependenciesPresent(tasks) && NothingStuck(tasks) && Waiting(tasks, start)
    requires forall t :: !Choosable(tasks, t)
    ensures |w| == n + 1 && IsWalk(DependencyGraph(tasks), w)
    ensures forall i :: 0 <= i < |w| ==> Waiting(tasks, w[i])
  {
    if n == 0 {
      w := [start];
    } else {
      var shorter := WaitingWalk(tasks, start, n - 1);
      var last := shorter[n - 1];
      assert Waiting(tasks, last) && !Choosable(tasks, last);
      var d :| d in tasks[last].deps && !(tasks[d].status.Accepted? || tasks[d].status.Verifying?);
      w := shorter + [d];
      forall i | 0 <= i < |w| - 1 ensures Edge(DependencyGraph(tasks), w[i], w[i + 1]) {
        if i < n - 1 {
          assert Edge(DependencyGraph(tasks), shorter[i], shorter[i + 1]);
        }
      }
    }
  }

  /** A list longer than the set it draws from repeats itself. */
  lemma {:induction false} Pigeonhole(w: seq<Id>, s: set<Id>) returns (i: nat, j: nat)
    requires |w| > |s| && forall k :: 0 <= k < |w| ==> w[k] in s
    ensures i < j < |w| && w[i] == w[j]
    decreases |w|
  {
    var last := |w| - 1;
    if k :| 0 <= k < last && w[k] == w[last] {
      return k, last;
    }
    i, j := Pigeonhole(w[..last], s - {w[last]});
  }

  lemma ReturningWalkIsCycle(g: Graph, w: seq<Id>, i: nat, j: nat)
    requires IsWalk(g, w) && i < j < |w| && w[i] == w[j]
    ensures HasCycle(g)
  {
    var c := w[i..j + 1];
    forall k | 0 <= k < |c| - 1 ensures Edge(g, c[k], c[k + 1]) {
      assert Edge(g, w[i + k], w[i + k + 1]);
    }
    assert IsCycle(g, c);
  }

  /** In an acyclic graph with all dependencies present, and every task waiting, verifying or
      accepted, some waiting task can always be chosen. */
  lemma NoDeadlock(tasks: Tasks, start: Id)
    requires SoundGraph(tasks) && AllDependenciesPresent(tasks) && NothingStuck(tasks) && Waiting(tasks, start)
    ensures exists t :: Choosable(tasks, t)
  {
    if forall t :: !Choosable(tasks, t) {
      var w := WaitingWalk(tasks, start, |tasks.Keys|);
      var i, j := Pigeonhole(w, tasks.Keys);
      ReturningWalkIsCycle(DependencyGraph(tasks), w, i, j);
    }
  }

  /** So, in every reachable state, choosing work for such a mission yields a task. */
  lemma RunsNeverDeadlock(states: seq<Control>, ops: seq<ControlOp>, i: nat, mission: Id, start: Id)
    requires ControlRun(states, ops) && i <= |ops| && mission in states[i].tasks
    requires var tasks := states[i].tasks[mission];
             AllDependenciesPresent(tasks) && NothingStuck(tasks) && Waiting(tasks, start)
    ensures exists t :: Choosable(states[i].tasks[mission], t)
  {
    RunsStaySound(states, ops, i);
    NoDeadlock(states[i].tasks[mission], start);
  }
}
