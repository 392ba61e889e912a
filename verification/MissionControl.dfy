/** Graph proposals: their validation, their commit into a mission's task graph, and the choice of
    work whose dependencies are met. */
module MissionControl {
  import opened Common
  import opened LeaseRows
  import opened TaskGraph

  datatype Operation =
    | Spawn | Split | Reassign | Merge | Challenge | Revise | Stop | RequestHelp | SubmitResult | ReviseDependency

  datatype Spec = Spec(
    id: Id, parent: Option<Id>, objective: string, family: string, deps: seq<Id>, scopes: set<string>,
    status: TaskStatus)

  datatype GraphProposal = GraphProposal(mission: Id, basedOn: int, operation: Operation, specs: seq<Spec>)

  type Tasks = map<Id, Spec>

  datatype Reason =
    | StaleRevision | CrossScopeDependency | ScopeNotInMission | DuplicateMerged | MaxGraphNodes | CycleRejected
    | StopOk | SpawnOk | MergeOk | ChallengeOk | ReassignOk | ReviseOk | OtherOk

  predicate Favourable(r: Reason) {
    r.StopOk? || r.SpawnOk? || r.MergeOk? || r.ChallengeOk? || r.ReassignOk? || r.ReviseOk? || r.OtherOk?
  }

  datatype Verdict = Verdict(reason: Reason, mergedInto: Option<Id>)

  /** The settings of a mission that bind its graph. */
  datatype Charter = Charter(status: MissionStatus, revision: int, maxNodes: nat, scopes: set<string>)

  // ---- the merged graph ----

  function DependencyGraph(tasks: Tasks): Graph {
    map t | t in tasks :: tasks[t].deps
  }

  /** Later specs win over earlier ones and over existing tasks. */
  function Overlay(tasks: Tasks, specs: seq<Spec>): Tasks {
    if specs == [] then tasks
    else
      var last := specs[|specs| - 1];
      Overlay(tasks, specs[..|specs| - 1])[last.id := last]
  }

  lemma {:induction false} OverlayKeys(tasks: Tasks, specs: seq<Spec>)
    ensures forall x :: x in Overlay(tasks, specs) <==> x in tasks || exists i :: 0 <= i < |specs| && specs[i].id == x
  {
    if specs != [] {
      OverlayKeys(tasks, specs[..|specs| - 1]);
    }
  }

  /** The value at an id that some spec names does not depend on the tasks underneath. */
  lemma {:induction false} OverlayAt(a: Tasks, b: Tasks, specs: seq<Spec>, x: Id)
    requires x in Overlay(a, specs) && x in Overlay(b, specs)
    requires (x in a && x in b && a[x] == b[x]) || exists i :: 0 <= i < |specs| && specs[i].id == x
    ensures Overlay(a, specs)[x] == Overlay(b, specs)[x]
  {
    if specs != [] && specs[|specs| - 1].id != x {
      var front := specs[..|specs| - 1];
      if exists i :: 0 <= i < |specs| && specs[i].id == x {
        var i :| 0 <= i < |specs| && specs[i].id == x;
        assert front[i].id == x;
      }
      OverlayAt(a, b, front, x);
    }
  }

  lemma OverlayTwice(tasks: Tasks, specs: seq<Spec>)
    ensures Overlay(Overlay(tasks, specs), specs) == Overlay(tasks, specs)
  {
    OverlayKeys(tasks, specs);
    OverlayKeys(Overlay(tasks, specs), specs);
    forall x | x in Overlay(tasks, specs) ensures Overlay(Overlay(tasks, specs), specs)[x] == Overlay(tasks, specs)[x] {
      if exists i :: 0 <= i < |specs| && specs[i].id == x {
        OverlayAt(Overlay(tasks, specs), tasks, specs, x);
      } else {
        OverlayMisses(tasks, specs, x);
        OverlayMisses(Overlay(tasks, specs), specs, x);
      }
    }
  }

  lemma {:induction false} OverlayMisses(tasks: Tasks, specs: seq<Spec>, x: Id)
    requires x in tasks && forall i :: 0 <= i < |specs| ==> specs[i].id != x
    ensures x in Overlay(tasks, specs) && Overlay(tasks, specs)[x] == tasks[x]
  {
    if specs != [] {
      OverlayMisses(tasks, specs[..|specs| - 1], x);
    }
  }

  method WouldCycle(tasks: Tasks, specs: seq<Spec>) returns (cyclic: bool)
    ensures cyclic <==> HasCycle(DependencyGraph(Overlay(tasks, specs)))
  {
    var graph := DependencyGraph(tasks);
    var i := 0;
    while i < |specs|
      invariant 0 <= i <= |specs|
      invariant graph == DependencyGraph(Overlay(tasks, specs[..i]))
    {
      assert specs[..i + 1][..i] == specs[..i];
      graph := graph[specs[i].id := specs[i].deps];
      i := i + 1;
    }
    assert specs[..i] == specs;
    cyclic := FindCycle(graph);
  }

  // ---- validation ----

  predicate CrossScope(spec: Spec, tasks: Tasks) {
    exists d :: d in spec.deps && d in tasks && spec.scopes != {} && tasks[d].scopes != {}
                && spec.scopes !! tasks[d].scopes
  }

  predicate OutOfScope(spec: Spec, missionScopes: set<string>) {
    missionScopes != {} && !(spec.scopes <= missionScopes) && spec.scopes !! missionScopes
  }

  function ScopeFault(specs: seq<Spec>, tasks: Tasks, missionScopes: set<string>): Option<Reason> {
    if specs == [] then None
    else if CrossScope(specs[0], tasks) then Some(CrossScopeDependency)
    else if OutOfScope(specs[0], missionScopes) then Some(ScopeNotInMission)
    else ScopeFault(specs[1..], tasks, missionScopes)
  }

  /** A live task with the same objective, family and parent. */
  predicate Duplicates(existing: Spec, spec: Spec) {
    && existing.objective == spec.objective
    && existing.family == spec.family
    && existing.parent == spec.parent
    && !existing.status.Cancelled? && !existing.status.Superseded?
  }

  predicate IsDuplicate(spec: Spec, tasks: Tasks) {
    exists t :: t in tasks && Duplicates(tasks[t], spec)
  }

  ghost function SpawnReason(specs: seq<Spec>, tasks: Tasks, maxNodes: nat): Reason {
    if exists i :: 0 <= i < |specs| && IsDuplicate(specs[i], tasks) then DuplicateMerged
    else if |Overlay(tasks, specs)| > maxNodes then MaxGraphNodes
    else if HasCycle(DependencyGraph(Overlay(tasks, specs))) then CycleRejected
    else SpawnOk
  }

  /** What validation decides, with the cycle test read as "the merged graph has a cycle". */
  ghost function Judge(p: GraphProposal, tasks: Tasks, m: Charter): Reason {
    if p.basedOn != m.revision then StaleRevision
    else if p.operation.Stop? then StopOk
    else if ScopeFault(p.specs, tasks, m.scopes).Some? then ScopeFault(p.specs, tasks, m.scopes).value
    else
      match p.operation
      case Spawn => SpawnReason(p.specs, tasks, m.maxNodes)
      case Split => SpawnReason(p.specs, tasks, m.maxNodes)
      case Merge => MergeOk
      case Challenge => ChallengeOk
      case Reassign => ReassignOk
      case ReviseDependency =>
        if HasCycle(DependencyGraph(Overlay(tasks, p.specs))) then CycleRejected else ReviseOk
      case _ => OtherOk
  }

  method CheckScopes(specs: seq<Spec>, tasks: Tasks, missionScopes: set<string>) returns (fault: Option<Reason>)
    ensures fault == ScopeFault(specs, tasks, missionScopes)
  {
    var i := 0;
    while i < |specs|
      invariant 0 <= i <= |specs|
      invariant ScopeFault(specs, tasks, missionScopes) == ScopeFault(specs[i..], tasks, missionScopes)
    {
      if CrossScope(specs[i], tasks) {
        return Some(CrossScopeDependency);
      }
      if OutOfScope(specs[i], missionScopes) {
        return Some(ScopeNotInMission);
      }
      assert specs[i..][1..] == specs[i + 1..];
      i := i + 1;
    }
    return None;
  }

  method ValidateSpawn(specs: seq<Spec>, tasks: Tasks, maxNodes: nat) returns (v: Verdict)
    ensures v.reason == SpawnReason(specs, tasks, maxNodes)
    ensures v.mergedInto.Some? <==> v.reason.DuplicateMerged?
    ensures v.mergedInto.Some? ==>
              exists t, i :: t in tasks && 0 <= i < |specs| && Duplicates(tasks[t], specs[i])
                             && v.mergedInto.value == tasks[t].id
  {
    var projected := tasks;
    var i := 0;
    while i < |specs|
      invariant 0 <= i <= |specs| && projected == Overlay(tasks, specs[..i])
      invariant forall j :: 0 <= j < i ==> !IsDuplicate(specs[j], tasks)
    {
      if t :| t in tasks && Duplicates(tasks[t], specs[i]) {
        assert IsDuplicate(specs[i], tasks);
        return Verdict(DuplicateMerged, Some(tasks[t].id));
      }
      assert specs[..i + 1][..i] == specs[..i];
      projected := projected[specs[i].id := specs[i]];
      i := i + 1;
    }
    assert specs[..i] == specs;
    if |projected| > maxNodes {
      return Verdict(MaxGraphNodes, None);
    }
    OverlayTwice(tasks, specs);
    var cyclic := WouldCycle(projected, specs);
    return Verdict(if cyclic then CycleRejected else SpawnOk, None);
  }

  method ValidateProposal(p: GraphProposal, tasks: Tasks, m: Charter) returns (v: Verdict)
    ensures v.reason == Judge(p, tasks, m)
    ensures v.mergedInto.Some? <==> v.reason.DuplicateMerged?
  {
    if p.basedOn != m.revision {
      return Verdict(StaleRevision, None);
    }
    if p.operation.Stop? {
      return Verdict(StopOk, None);
    }
    var fault := CheckScopes(p.specs, tasks, m.scopes);
    if fault.Some? {
      FaultIsNotMerge(p.specs, tasks, m.scopes);
      return Verdict(fault.value, None);
    }
    match p.operation
    case Spawn => v := ValidateSpawn(p.specs, tasks, m.maxNodes);
    case Split => v := ValidateSpawn(p.specs, tasks, m.maxNodes);
    case Merge => v := Verdict(MergeOk, None);
    case Challenge => v := Verdict(ChallengeOk, None);
    case Reassign => v := Verdict(ReassignOk, None);
    case ReviseDependency =>
      var cyclic := WouldCycle(tasks, p.specs);
      v := Verdict(if cyclic then CycleRejected else ReviseOk, None);
    case _ => v := Verdict(OtherOk, None);
  }

  lemma {:induction false} FaultIsNotMerge(specs: seq<Spec>, tasks: Tasks, missionScopes: set<string>)
    ensures var f := ScopeFault(specs, tasks, missionScopes);
            f.Some? ==> !f.value.DuplicateMerged? && !Favourable(f.value)
  {
    if specs != [] {
      FaultIsNotMerge(specs[1..], tasks, missionScopes);
    }
  }

  // ---- the controller ----

  datatype Control = Control(missions: map<Id, Charter>, tasks: map<Id, Tasks>)

  datatype Outcome = Revision(n: int) | Raised(reason: Reason) | UnknownMission

  function ReadyCopies(specs: seq<Spec>): seq<Spec> {
    seq(|specs|, i requires 0 <= i < |specs| => specs[i].(status := TaskStatus.Ready))
  }

  function TasksOf(c: Control, mission: Id): Tasks {
    if mission in c.tasks then c.tasks[mission] else map[]
  }

  /** Registering a mission keeps the tasks it may already have. */
  function Registered(c: Control, mission: Id, m: Charter): Control {
    Control(c.missions[mission := m.(status := MissionStatus.Planning)], c.tasks[mission := TasksOf(c, mission)])
  }

  predicate Spawns(op: Operation) {
    op.Spawn? || op.Split?
  }

  /** The effect of a commit whose verdict is `reason`. */
  function Committed(c: Control, p: GraphProposal, reason: Reason): Control
    requires p.mission in c.missions
  {
    var m, tasks := c.missions[p.mission], TasksOf(c, p.mission);
    if !Favourable(reason) then c.(tasks := c.tasks[p.mission := tasks])
    else if p.operation.Stop? then
      Control(c.missions[p.mission := m.(status := MissionStatus.Cancelled)], c.tasks[p.mission := tasks])
    else
      Control(c.missions[p.mission := m.(revision := m.revision + 1, status := MissionStatus.Running)],
              c.tasks[p.mission := if Spawns(p.operation) then Overlay(tasks, ReadyCopies(p.specs)) else tasks])
  }

  /** Accepted and verifying dependencies count as met; missing ones do not. */
  predicate DependenciesMet(tasks: Tasks, task: Spec) {
    forall d :: d in task.deps ==> d in tasks && (tasks[d].status.Accepted? || tasks[d].status.Verifying?)
  }

  predicate Choosable(tasks: Tasks, t: Id) {
    t in tasks && (tasks[t].status.Ready? || tasks[t].status.Proposed?) && DependenciesMet(tasks, tasks[t])
  }

  function Promoted(tasks: Tasks): Tasks {
    map t | t in tasks :: if Choosable(tasks, t) then tasks[t].(status := TaskStatus.Ready) else tasks[t]
  }

  /** An unknown mission is an error that changes nothing. */
  function Chosen(c: Control, mission: Id): Control {
    if mission in c.missions && mission in c.tasks then
      c.(tasks := c.tasks[mission := Promoted(c.tasks[mission])])
    else c
  }

  function WithAccepted(tasks: Tasks, t: Id): Tasks {
    if t in tasks then tasks[t := tasks[t].(status := TaskStatus.Accepted)] else tasks
  }

  /** Verification marks a task accepted in every mission that has it. */
  function Verified(c: Control, t: Id): Control {
    c.(tasks := map m | m in c.tasks :: WithAccepted(c.tasks[m], t))
  }

  /** The graphs while the missions in `rest` still await their turn. */
  ghost function PartlyVerified(tasks: map<Id, Tasks>, t: Id, rest: set<Id>): map<Id, Tasks> {
    map m | m in tasks :: if m in rest then tasks[m] else WithAccepted(tasks[m], t)
  }

  /** An attempt on a task, with the receipt of its verification once there is one. */
  datatype AttemptNote = AttemptNote(task: Id, receipt: Option<Id>)

  ghost predicate IdsMatch(tasks: Tasks) {
    forall t :: t in tasks ==> tasks[t].id == t
  }

  /** The task map while `rest` still awaits its turn. */
  ghost function PartlyPromoted(tasks: Tasks, rest: set<Id>): Tasks {
    map t | t in tasks :: if t !in rest && Choosable(tasks, t) then tasks[t].(status := TaskStatus.Ready) else tasks[t]
  }

  /** Promotions made earlier in the scan do not change which dependencies are met. */
  lemma PromotionKeepsChoice(tasks: Tasks, rest: set<Id>, t: Id)
    requires t in tasks
    ensures DependenciesMet(PartlyPromoted(tasks, rest), tasks[t]) <==> DependenciesMet(tasks, tasks[t])
  {
    forall d | d in tasks ensures var s, s' := tasks[d].status, PartlyPromoted(tasks, rest)[d].status;
                                  (s'.Accepted? || s'.Verifying?) <==> (s.Accepted? || s.Verifying?)
    {
    }
  }

  /** Writes each spec as a ready task. */
  method WriteSpecs(tasks: Tasks, specs: seq<Spec>) returns (after: Tasks)
    ensures after == Overlay(tasks, ReadyCopies(specs))
  {
    after := tasks;
    ghost var ready := ReadyCopies(specs);
    var i := 0;
    while i < |specs|
      invariant 0 <= i <= |specs| && after == Overlay(tasks, ready[..i])
    {
      assert ready[..i + 1][..i] == ready[..i];
      after := after[specs[i].id := specs[i].(status := TaskStatus.Ready)];
      i := i + 1;
    }
    assert ready[..i] == ready;
  }

  ghost predicate Listed(tasks: Tasks, rest: set<Id>, ready: seq<Spec>, t: Id) {
    Choosable(tasks, t) && t !in rest <==> exists i :: 0 <= i < |ready| && ready[i].id == t
  }

  ghost predicate ListedAsPromoted(tasks: Tasks, ready: seq<Spec>, i: int) {
    0 <= i < |ready| ==> Choosable(tasks, ready[i].id) && ready[i] == tasks[ready[i].id].(status := TaskStatus.Ready)
  }

  ghost predicate ListedOnce(ready: seq<Spec>, i: int, j: int) {
    0 <= i < j < |ready| ==> ready[i].id != ready[j].id
  }

  /** `ready` holds exactly the choosable tasks outside `rest`, promoted and each once. */
  ghost predicate ReadyList(tasks: Tasks, rest: set<Id>, ready: seq<Spec>) {
    && (forall t :: Listed(tasks, rest, ready, t))
    && (forall i :: ListedAsPromoted(tasks, ready, i))
    && (forall i, j :: ListedOnce(ready, i, j))
  }

  lemma ListNext(tasks: Tasks, rest: set<Id>, ready: seq<Spec>, t: Id)
    requires IdsMatch(tasks) && ReadyList(tasks, rest, ready) && t in rest && Choosable(tasks, t)
    ensures ReadyList(tasks, rest - {t}, ready + [tasks[t].(status := TaskStatus.Ready)])
  {
    var longer := ready + [tasks[t].(status := TaskStatus.Ready)];
    assert Listed(tasks, rest, ready, t);
    forall x ensures Listed(tasks, rest - {t}, longer, x) {
      assert Listed(tasks, rest, ready, x);
      if x == t {
        assert longer[|ready|].id == x;
      } else if exists i :: 0 <= i < |ready| && ready[i].id == x {
        var i :| 0 <= i < |ready| && ready[i].id == x;
        assert longer[i].id == x;
      }
    }
    forall i ensures ListedAsPromoted(tasks, longer, i) {
      assert ListedAsPromoted(tasks, ready, i);
    }
    forall i, j ensures ListedOnce(longer, i, j) {
      assert ListedOnce(ready, i, j);
    }
  }

  lemma SkipNext(tasks: Tasks, rest: set<Id>, ready: seq<Spec>, t: Id)
    requires ReadyList(tasks, rest, ready) && t in rest && !Choosable(tasks, t)
    ensures ReadyList(tasks, rest - {t}, ready)
  {
    forall x ensures Listed(tasks, rest - {t}, ready, x) {
      assert Listed(tasks, rest, ready, x);
    }
  }

  lemma PromoteNext(tasks: Tasks, rest: set<Id>, t: Id)
    requires t in rest && t in tasks
    ensures var now, next := PartlyPromoted(tasks, rest), PartlyPromoted(tasks, rest - {t});
            && (Choosable(tasks, t) ==> next == now[t := tasks[t].(status := TaskStatus.Ready)])
            && (Choosable(tasks, t) && tasks[t].status.Ready? ==> next == now)
            && (!Choosable(tasks, t) ==> next == now)
  {
  }

  lemma PromotionEnds(tasks: Tasks)
    ensures PartlyPromoted(tasks, tasks.Keys) == tasks && PartlyPromoted(tasks, {}) == Promoted(tasks)
  {
  }

  /** Visits the tasks in any order, promoting proposed ones as their turn comes. */
  method ResolveReady(tasks: Tasks) returns (ready: seq<Spec>, after: Tasks)
    requires IdsMatch(tasks)
    ensures after == Promoted(tasks)
    ensures ReadyList(tasks, {}, ready)
  {
    ready, after := [], tasks;
    var rest := tasks.Keys;
    PromotionEnds(tasks);
    assert forall t :: Listed(tasks, rest, ready, t);
    while rest != {}
      invariant rest <= tasks.Keys && after == PartlyPromoted(tasks, rest) && ReadyList(tasks, rest, ready)
      decreases |rest|
    {
      var t :| t in rest;
      var task := tasks[t];
      PromotionKeepsChoice(tasks, rest, t);
      PromoteNext(tasks, rest, t);
      if (task.status.Ready? || task.status.Proposed?) && DependenciesMet(after, task) {
        ListNext(tasks, rest, ready, t);
        if task.status.Proposed? {
          task := task.(status := TaskStatus.Ready);
          after := after[task.id := task];
        }
        ready := ready + [task.(status := TaskStatus.Ready)];
      } else {
        SkipNext(tasks, rest, ready, t);
      }
      rest := rest - {t};
    }
  }

  class MissionController {
    var missions: map<Id, Charter>
    var tasks: map<Id, Tasks>
    var attempts: map<Id, AttemptNote>
    var verifications: map<Id, Id>

    constructor ()
      ensures State() == Control(map[], map[]) && attempts == map[] && verifications == map[]
    {
      missions, tasks, attempts, verifications := map[], map[], map[], map[];
    }

    function State(): Control
      reads this
    {
      Control(missions, tasks)
    }

    method SubmitMission(mission: Id, m: Charter)
      modifies this
      ensures State() == Registered(old(State()), mission, m)
    {
      missions := missions[mission := m.(status := MissionStatus.Planning)];
      if mission !in tasks {
        tasks := tasks[mission := map[]];
      }
    }

    method CommitValidatedRevision(p: GraphProposal) returns (outcome: Outcome)
      modifies this
      ensures old(p.mission !in missions) ==> outcome == UnknownMission && State() == old(State())
      ensures old(p.mission in missions) ==>
                var reason := Judge(p, TasksOf(old(State()), p.mission), old(missions[p.mission]));
                && State() == Committed(old(State()), p, reason)
                && outcome == if Favourable(reason) || reason.DuplicateMerged?
                              then Revision(missions[p.mission].revision) else Raised(reason)
    {
      if p.mission !in missions {
        return UnknownMission;
      }
      var m := missions[p.mission];
      if p.mission !in tasks {
        tasks := tasks[p.mission := map[]];
      }
      var v := ValidateProposal(p, tasks[p.mission], m);
      if !Favourable(v.reason) {
        if v.mergedInto.Some? {
          return Revision(m.revision);
        }
        return Raised(v.reason);
      }
      if Spawns(p.operation) {
        var spawned := WriteSpecs(tasks[p.mission], p.specs);
        tasks := tasks[p.mission := spawned];
      } else if p.operation.Stop? {
        missions := missions[p.mission := m.(status := MissionStatus.Cancelled)];
        return Revision(m.revision);
      }
      missions := missions[p.mission := m.(revision := m.revision + 1, status := MissionStatus.Running)];
      return Revision(m.revision + 1);
    }

    /** The dependency-ready part of the choice; the scheduler picks from this list. */
    method ChooseReadyWork(mission: Id) returns (choice: Option<seq<Spec>>)
      requires mission in tasks ==> IdsMatch(tasks[mission])
      modifies this
      ensures State() == Chosen(old(State()), mission)
      ensures choice.None? <==> mission !in missions
      ensures choice.Some? ==> ReadyList(TasksOf(old(State()), mission), {}, choice.value)
    {
      if mission !in missions {
        return None;
      }
      if mission !in tasks {
        assert forall t :: Listed(map[], {}, [], t);
        return Some([]);
      }
      var ready, promoted := ResolveReady(tasks[mission]);
      tasks := tasks[mission := promoted];
      return Some(ready);
    }

    method RegisterAttempt(attempt: Id, task: Id)
      modifies this`attempts
      ensures attempts == old(attempts)[attempt := AttemptNote(task, None)]
    {
      attempts := attempts[attempt := AttemptNote(task, None)];
    }

    /** A receipt for an unknown attempt is filed and changes nothing else. */
    method RecordVerification(attempt: Id, receipt: Id)
      modifies this
      ensures verifications == old(verifications)[attempt := receipt]
      ensures attempt !in old(attempts) ==> State() == old(State()) && attempts == old(attempts)
      ensures attempt in old(attempts) ==>
                && State() == Verified(old(State()), old(attempts)[attempt].task)
                && attempts == old(attempts)[attempt := AttemptNote(old(attempts)[attempt].task, Some(receipt))]
    {
      verifications := verifications[attempt := receipt];
      if attempt !in attempts {
        return;
      }
      var t := attempts[attempt].task;
      attempts := attempts[attempt := AttemptNote(t, Some(receipt))];
      AcceptEverywhere(t);
    }

    method AcceptEverywhere(t: Id)
      modifies this`tasks
      ensures tasks == Verified(old(State()), t).tasks
    {
      var rest := tasks.Keys;
      assert PartlyVerified(tasks, t, rest) == tasks;
      while rest != {}
        invariant rest <= tasks.Keys && tasks == PartlyVerified(old(tasks), t, rest)
        decreases |rest|
      {
        var m :| m in rest;
        if t in tasks[m] {
          tasks := tasks[m := tasks[m][t := tasks[m][t].(status := TaskStatus.Accepted)]];
        }
        rest := rest - {m};
      }
    }
  }
}
