/** Which graph proposals a mission takes, what taking one writes, and how revisions order them. */
module ControlLaws {
  import opened Common
  import opened LeaseRows
  import opened TaskGraph
  import opened MissionControl
  import opened ControlTheorems

  // ---- which proposals are taken ----

  /** One of the two names no scope, or they have one in common. */
  ghost predicate ScopesMeet(a: set<string>, b: set<string>) {
    a == {} || b == {} || exists x :: x in a && x in b
  }

  /** The spec's scopes meet the mission's and those of every known task it depends on. */
  ghost predicate WithinScope(spec: Spec, tasks: Tasks, missionScopes: set<string>) {
    && ScopesMeet(spec.scopes, missionScopes)
    && forall d :: d in spec.deps && d in tasks ==> ScopesMeet(spec.scopes, tasks[d].scopes)
  }

  lemma FitsIff(spec: Spec, tasks: Tasks, missionScopes: set<string>)
    ensures WithinScope(spec, tasks, missionScopes) <==> !CrossScope(spec, tasks) && !OutOfScope(spec, missionScopes)
  {
    DisjointIff(spec.scopes, missionScopes);
    if spec.scopes <= missionScopes && spec.scopes != {} {
      var x :| x in spec.scopes;
      assert x in missionScopes;
    }
    forall d | d in spec.deps && d in tasks
      ensures ScopesMeet(spec.scopes, tasks[d].scopes)
              <==> spec.scopes == {} || tasks[d].scopes == {} || !(spec.scopes !! tasks[d].scopes)
    {
      DisjointIff(spec.scopes, tasks[d].scopes);
    }
  }

  lemma DisjointIff(a: set<string>, b: set<string>)
    ensures a !! b <==> !exists x :: x in a && x in b
  {
    if x :| x in a && x in b {
      assert !(a !! b);
    } else {
      assert forall x :: x in a ==> x !in b;
    }
  }

  lemma {:induction false} ScopeFaultIff(specs: seq<Spec>, tasks: Tasks, missionScopes: set<string>)
    ensures ScopeFault(specs, tasks, missionScopes).None?
            <==> forall i :: 0 <= i < |specs| ==> WithinScope(specs[i], tasks, missionScopes)
  {
    if specs != [] {
      FitsIff(specs[0], tasks, missionScopes);
      var rest := specs[1..];
      ScopeFaultIff(rest, tasks, missionScopes);
      if forall i :: 0 <= i < |specs| ==> WithinScope(specs[i], tasks, missionScopes) {
        forall i | 0 <= i < |rest| ensures WithinScope(rest[i], tasks, missionScopes) {
          assert rest[i] == specs[i + 1];
        }
      } else if ScopeFault(rest, tasks, missionScopes).None? {
        var i :| 0 <= i < |specs| && !WithinScope(specs[i], tasks, missionScopes);
        assert i > 0 ==> rest[i - 1] == specs[i];
      }
    }
  }

  /** A task that is neither cancelled nor superseded already pursues the objective, in the family, under the parent. */
  ghost predicate AlreadyPursued(spec: Spec, tasks: Tasks) {
    exists t :: t in tasks && tasks[t].status !in {TaskStatus.Cancelled, TaskStatus.Superseded}
                && tasks[t].objective == spec.objective && tasks[t].family == spec.family
                && tasks[t].parent == spec.parent
  }

  lemma PursuedIff(spec: Spec, tasks: Tasks)
    ensures AlreadyPursued(spec, tasks) <==> IsDuplicate(spec, tasks)
  {
    if IsDuplicate(spec, tasks) {
      var t :| t in tasks && Duplicates(tasks[t], spec);
      assert tasks[t].status !in {TaskStatus.Cancelled, TaskStatus.Superseded};
    }
    if AlreadyPursued(spec, tasks) {
      var t :| t in tasks && tasks[t].status !in {TaskStatus.Cancelled, TaskStatus.Superseded}
               && tasks[t].objective == spec.objective && tasks[t].family == spec.family
               && tasks[t].parent == spec.parent;
      assert Duplicates(tasks[t], spec);
    }
  }

  ghost function IdsOf(specs: seq<Spec>): set<Id> {
    set i | 0 <= i < |specs| :: specs[i].id
  }

  /** The spec at i is the last one under its id. */
  ghost predicate LastUnderId(specs: seq<Spec>, i: int) {
    0 <= i < |specs| && forall j :: i < j < |specs| ==> specs[j].id != specs[i].id
  }

  lemma OverlaySpans(tasks: Tasks, specs: seq<Spec>)
    ensures Overlay(tasks, specs).Keys == tasks.Keys + IdsOf(specs)
  {
    OverlayKeys(tasks, specs);
    forall x ensures x in Overlay(tasks, specs) <==> x in tasks.Keys + IdsOf(specs) {
    }
  }

  /** Overlaying specs writes the last spec under each id. */
  lemma {:induction false} LastWins(tasks: Tasks, specs: seq<Spec>, i: nat)
    requires LastUnderId(specs, i)
    ensures specs[i].id in Overlay(tasks, specs) && Overlay(tasks, specs)[specs[i].id] == specs[i]
  {
    var front := specs[..|specs| - 1];
    if i < |front| {
      assert front[i] == specs[i];
      LastWins(tasks, front, i);
    }
  }

  ghost predicate SomePursued(specs: seq<Spec>, tasks: Tasks) {
    exists i :: 0 <= i < |specs| && AlreadyPursued(specs[i], tasks)
  }

  lemma SomePursuedIff(specs: seq<Spec>, tasks: Tasks)
    ensures SomePursued(specs, tasks) <==> exists i :: 0 <= i < |specs| && IsDuplicate(specs[i], tasks)
  {
    forall i | 0 <= i < |specs| ensures AlreadyPursued(specs[i], tasks) <==> IsDuplicate(specs[i], tasks) {
      PursuedIff(specs[i], tasks);
    }
  }

  ghost predicate MaySpawn(p: GraphProposal, tasks: Tasks, m: Charter) {
    && !SomePursued(p.specs, tasks)
    && |tasks.Keys + IdsOf(p.specs)| <= m.maxNodes
    && !HasCycle(DependencyGraph(Overlay(tasks, p.specs)))
  }

  lemma SpawnIff(p: GraphProposal, tasks: Tasks, m: Charter)
    ensures Favourable(SpawnReason(p.specs, tasks, m.maxNodes)) <==> MaySpawn(p, tasks, m)
  {
    SomePursuedIff(p.specs, tasks);
    OverlaySpans(tasks, p.specs);
    assert |Overlay(tasks, p.specs)| == |tasks.Keys + IdsOf(p.specs)|;
  }

  /** A proposal is taken exactly when it is based on the current revision and, unless it stops the mission, stays in
      scope, spawns nothing already pursued, fits the node limit and leaves the graph without a cycle. */
  lemma TakenIff(p: GraphProposal, tasks: Tasks, m: Charter)
    ensures Favourable(Judge(p, tasks, m)) <==>
            && p.basedOn == m.revision
            && (p.operation != Operation.Stop ==>
                  && (forall i :: 0 <= i < |p.specs| ==> WithinScope(p.specs[i], tasks, m.scopes))
                  && (p.operation in {Operation.Spawn, Operation.Split} ==> MaySpawn(p, tasks, m))
                  && (p.operation == ReviseDependency ==> !HasCycle(DependencyGraph(Overlay(tasks, p.specs)))))
  {
    ScopeFaultIff(p.specs, tasks, m.scopes);
    FaultIsNotMerge(p.specs, tasks, m.scopes);
    if p.operation in {Operation.Spawn, Operation.Split} {
      SpawnIff(p, tasks, m);
    }
  }

  /** Merged into an existing task: the one refusal that is no error. */
  lemma MergedIff(p: GraphProposal, tasks: Tasks, m: Charter)
    ensures Judge(p, tasks, m).DuplicateMerged? <==>
            && p.basedOn == m.revision && p.operation in {Operation.Spawn, Operation.Split}
            && (forall i :: 0 <= i < |p.specs| ==> WithinScope(p.specs[i], tasks, m.scopes))
            && SomePursued(p.specs, tasks)
  {
    ScopeFaultIff(p.specs, tasks, m.scopes);
    FaultIsNotMerge(p.specs, tasks, m.scopes);
    SomePursuedIff(p.specs, tasks);
  }

  // ---- what taking a proposal writes ----

  ghost predicate Taken(c: Control, p: GraphProposal) {
    p.mission in c.missions && Favourable(Judge(p, TasksOf(c, p.mission), c.missions[p.mission]))
  }

  /** A proposal that is not taken changes no mission and no task. */
  lemma RefusedChangesNothing(c: Control, p: GraphProposal, m: Id)
    requires !Taken(c, p)
    ensures var after := Stepped(c, Commit(p)); after.missions == c.missions && TasksOf(after, m) == TasksOf(c, m)
  {
  }

  /** One that is taken raises the revision by one, or cancels the mission, and touches no other mission. */
  lemma TakenWrites(c: Control, p: GraphProposal, m: Id)
    requires Taken(c, p)
    ensures var after, was := Stepped(c, Commit(p)), c.missions[p.mission];
            && (m != p.mission ==> TasksOf(after, m) == TasksOf(c, m))
            && (p.operation !in {Operation.Spawn, Operation.Split} ==> TasksOf(after, m) == TasksOf(c, m))
            && after.missions == c.missions[p.mission :=
                 if p.operation == Operation.Stop then was.(status := MissionStatus.Cancelled)
                 else was.(status := MissionStatus.Running, revision := was.revision + 1)]
  {
  }

  /** A spawn writes each proposed task, ready, as its last spec describes it, and keeps the others. */
  lemma SpawnWrites(c: Control, p: GraphProposal, x: Id)
    requires Taken(c, p) && p.operation in {Operation.Spawn, Operation.Split}
    ensures var before, after := TasksOf(c, p.mission), TasksOf(Stepped(c, Commit(p)), p.mission);
            && after.Keys == before.Keys + IdsOf(p.specs)
            && (x in before && x !in IdsOf(p.specs) ==> after[x] == before[x])
            && forall i :: LastUnderId(p.specs, i) ==> after[p.specs[i].id] == p.specs[i].(status := TaskStatus.Ready)
  {
    var before, ready := TasksOf(c, p.mission), ReadyCopies(p.specs);
    assert TasksOf(Stepped(c, Commit(p)), p.mission) == Overlay(before, ready);
    SameIds(p.specs);
    OverlaySpans(before, ready);
    if x in before && x !in IdsOf(p.specs) {
      forall i | 0 <= i < |ready| ensures ready[i].id != x {
        assert ready[i].id in IdsOf(ready);
      }
      OverlayMisses(before, ready, x);
    }
    forall i | LastUnderId(p.specs, i) ensures Overlay(before, ready)[p.specs[i].id] == ready[i] {
      LastWins(before, ready, i);
    }
  }

  lemma SameIds(specs: seq<Spec>)
    ensures IdsOf(ReadyCopies(specs)) == IdsOf(specs)
  {
    var ready := ReadyCopies(specs);
    forall i | 0 <= i < |specs| ensures specs[i].id in IdsOf(ready) && ready[i].id in IdsOf(specs) {
      assert ready[i].id == specs[i].id;
    }
  }

  /** Registering a mission sets its charter, planning, and costs neither it nor another mission a task. */
  lemma RegistrationWrites(c: Control, mission: Id, charter: Charter, m: Id)
    ensures var after := Stepped(c, ControlOp.SubmitMission(mission, charter));
            && after.missions == c.missions[mission := charter.(status := MissionStatus.Planning)]
            && TasksOf(after, m) == TasksOf(c, m)
  {
  }

  /** Choosing work makes ready exactly the proposed tasks whose dependencies are all present and accepted or being
      verified; choosing again changes nothing more. */
  lemma ChoosingWrites(c: Control, mission: Id, x: Id)
    requires mission in c.missions && mission in c.tasks && x in c.tasks[mission]
    ensures var before, chosen := c.tasks[mission], Stepped(c, Choose(mission));
            && chosen.missions == c.missions && chosen.tasks.Keys == c.tasks.Keys
            && chosen.tasks[mission].Keys == before.Keys
            && chosen.tasks[mission][x] == (
                 if && before[x].status == TaskStatus.Proposed
                    && forall d :: d in before[x].deps ==>
                         d in before && before[d].status in {TaskStatus.Accepted, TaskStatus.Verifying}
                 then before[x].(status := TaskStatus.Ready) else before[x])
            && Stepped(chosen, Choose(mission)) == chosen
  {
    var before := c.tasks[mission];
    var after := Promoted(before);
    forall t | t in before ensures Choosable(after, t) <==> Choosable(before, t) {
      PromotionEnds(before);
      PromotionKeepsChoice(before, {}, t);
    }
    assert Promoted(after) == after;
  }

  // ---- revisions over a run ----

  ghost predicate Registers(op: ControlOp, mission: Id) {
    op.SubmitMission? && op.mission == mission
  }

  /** The step takes a proposal for the mission that does not stop it. */
  ghost predicate Advances(c: Control, op: ControlOp, mission: Id) {
    op.Commit? && op.proposal.mission == mission && op.proposal.operation != Operation.Stop && Taken(c, op.proposal)
  }

  lemma StepRevision(c: Control, op: ControlOp, mission: Id)
    requires mission in c.missions && !Registers(op, mission)
    ensures var after := Stepped(c, op);
            && mission in after.missions
            && after.missions[mission].revision
               == c.missions[mission].revision + if Advances(c, op, mission) then 1 else 0
  {
    if op.Commit? {
      if Taken(c, op.proposal) {
        TakenWrites(c, op.proposal, mission);
      } else {
        RefusedChangesNothing(c, op.proposal, mission);
      }
    }
  }

  ghost function Advanced(states: seq<Control>, ops: seq<ControlOp>, mission: Id, i: nat, j: nat): nat
    requires |states| == |ops| + 1 && i <= j <= |ops|
    decreases j
  {
    if i == j then 0
    else Advanced(states, ops, mission, i, j - 1) + if Advances(states[j - 1], ops[j - 1], mission) then 1 else 0
  }

  /** Between registrations, the revision counts the proposals taken. */
  lemma {:induction false} RevisionCounts(states: seq<Control>, ops: seq<ControlOp>, mission: Id, i: nat, j: nat)
    requires ControlRun(states, ops) && i <= j <= |ops| && mission in states[i].missions
    requires forall k :: i <= k < j ==> !Registers(ops[k], mission)
    ensures mission in states[j].missions
    ensures states[j].missions[mission].revision
            == states[i].missions[mission].revision + Advanced(states, ops, mission, i, j)
    decreases j
  {
    if i < j {
      RevisionCounts(states, ops, mission, i, j - 1);
      StepRevision(states[j - 1], ops[j - 1], mission);
    }
  }

  /** So of all the proposals based on one revision at most one is taken and goes on, and every later one is refused
      as stale and changes nothing. */
  lemma OneTakenPerRevision(states: seq<Control>, ops: seq<ControlOp>, mission: Id, i: nat, j: nat, m: Id)
    requires ControlRun(states, ops) && i < j < |ops| && Advances(states[i], ops[i], mission)
    requires forall k :: i < k < j ==> !Registers(ops[k], mission)
    requires ops[j].Commit? && ops[j].proposal.mission == mission
    requires ops[j].proposal.basedOn == ops[i].proposal.basedOn
    ensures mission in states[j].missions
    ensures Judge(ops[j].proposal, TasksOf(states[j], mission), states[j].missions[mission]).StaleRevision?
    ensures states[j + 1].missions == states[j].missions && TasksOf(states[j + 1], m) == TasksOf(states[j], m)
  {
    var p := ops[i].proposal;
    TakenIff(p, TasksOf(states[i], mission), states[i].missions[mission]);
    StepRevision(states[i], ops[i], mission);
    RevisionCounts(states, ops, mission, i + 1, j);
    RefusedChangesNothing(states[j], ops[j].proposal, m);
  }
}
