/** The execution planner: Kahn layering with duplicate, missing-dependency and cycle
    detection, proved against a meaning of the plan stated in terms of dependency chains. */
module ExecutionPlanner {
  import opened Sorting
  import opened MissionTypes
  import opened DependencyGraph

  datatype ExecutionPlan = ExecutionPlan(layers: seq<seq<Id>>, order: seq<Id>)

  datatype PlanErrorCode = Cycle | MissingDependency | DuplicateTask

  datatype PlanResult = Planned(plan: ExecutionPlan) | PlanError(code: PlanErrorCode, detail: seq<Id>)

  // ----- what a plan means

  /** Task definitions by id; with repeated ids the last one stands. */
  function TaskTable(tasks: seq<TaskDefinition>): map<Id, TaskDefinition> {
    if tasks == [] then map[]
    else
      var last := tasks[|tasks| - 1];
      TaskTable(tasks[..|tasks| - 1])[last.id := last]
  }

  lemma {:induction false} TableEntries(tasks: seq<TaskDefinition>)
    requires forall i, j :: 0 <= i < j < |tasks| ==> tasks[i].id != tasks[j].id
    ensures forall x :: x in TaskTable(tasks) ==> exists i :: 0 <= i < |tasks| && tasks[i].id == x
    ensures forall i :: 0 <= i < |tasks| ==> tasks[i].id in TaskTable(tasks) && TaskTable(tasks)[tasks[i].id] == tasks[i]
  {
    if tasks != [] {
      var rest := tasks[..|tasks| - 1];
      TableEntries(rest);
      forall x | x in TaskTable(tasks) ensures exists i :: 0 <= i < |tasks| && tasks[i].id == x {
        if x in TaskTable(rest) {
          var i :| 0 <= i < |rest| && rest[i].id == x;
          assert tasks[i].id == x;
        }
      }
      forall i | 0 <= i < |tasks| ensures tasks[i].id in TaskTable(tasks) && TaskTable(tasks)[tasks[i].id] == tasks[i] {
        if i < |rest| { assert rest[i] == tasks[i]; }
      }
    }
  }

  /** With unique ids, looking a task up by its id finds it. */
  lemma TaskTableComplete(m: MissionDefinition)
    requires NoRepeats(m.Ids())
    ensures TaskTable(m.tasks).Keys == Elements(m.Ids())
    ensures forall i :: 0 <= i < |m.tasks| ==>
      m.tasks[i].id in TaskTable(m.tasks) && TaskTable(m.tasks)[m.tasks[i].id] == m.tasks[i]
  {
    assert forall i :: 0 <= i < |m.tasks| ==> m.Ids()[i] == m.tasks[i].id;
    TableEntries(m.tasks);
    forall x ensures x in TaskTable(m.tasks) <==> x in m.Ids() {
      if i :| 0 <= i < |m.tasks| && m.tasks[i].id == x { assert m.Ids()[i] == x; }
    }
  }

  ghost function GraphOf(m: MissionDefinition): Graph {
    var table := TaskTable(m.tasks);
    map x | x in table :: Elements(table[x].dependsOn)
  }

  lemma GraphAt(m: MissionDefinition, i: nat)
    requires i < |m.tasks| && NoRepeats(m.Ids())
    ensures GraphOf(m).Keys == Elements(m.Ids()) && m.tasks[i].id in GraphOf(m)
    ensures GraphOf(m)[m.tasks[i].id] == Elements(m.tasks[i].dependsOn)
  {
    TaskTableComplete(m);
  }

  function Flatten(layers: seq<seq<Id>>): seq<Id> {
    if layers == [] then [] else Flatten(layers[..|layers| - 1]) + layers[|layers| - 1]
  }

  /** Layer `k` lists, sorted, exactly the tasks whose longest chain has `k` dependencies. */
  ghost predicate IsLayer(g: Graph, layer: seq<Id>, k: nat) {
    && layer != [] && Sorted(NotAfter, layer) && NoRepeats(layer)
    && forall x {:trigger x in layer} {:trigger LongestChain(g, x, k)} :: x in layer <==> x in g && LongestChain(g, x, k)
  }

  ghost predicate InSomeLayer(layers: seq<seq<Id>>, x: Id) {
    exists k :: 0 <= k < |layers| && x in layers[k]
  }

  /** The layers are those of the chain lengths, one after the other, up to the last task. */
  ghost predicate AreLayers(g: Graph, layers: seq<seq<Id>>) {
    && (forall k {:trigger IsLayer(g, layers[k], k)} :: 0 <= k < |layers| ==> IsLayer(g, layers[k], k))
    && (forall x {:trigger InSomeLayer(layers, x)} :: x in g ==> InSomeLayer(layers, x))
  }

  ghost predicate WellFormed(m: MissionDefinition) {
    NoRepeats(m.Ids()) && Closed(GraphOf(m))
  }

  ghost predicate IsPlan(m: MissionDefinition, plan: ExecutionPlan) {
    && WellFormed(m) && !HasCycle(GraphOf(m))
    && AreLayers(GraphOf(m), plan.layers)
    && plan.order == Flatten(plan.layers)
  }

  /** Sorted list of exactly the tasks from which dependencies lead into a cycle. */
  ghost predicate IsCycleReport(m: MissionDefinition, detail: seq<Id>) {
    && WellFormed(m) && HasCycle(GraphOf(m))
    && Sorted(NotAfter, detail) && NoRepeats(detail)
    && forall x {:trigger x in detail} {:trigger ReachesCycle(GraphOf(m), x)} ::
         x in detail <==> x in GraphOf(m) && ReachesCycle(GraphOf(m), x)
  }

  /** The first task id that repeats an earlier one. */
  ghost predicate IsFirstDuplicate(m: MissionDefinition, i: nat) {
    i < |m.tasks| && m.Ids()[i] in m.Ids()[..i] && NoRepeats(m.Ids()[..i])
  }

  ghost predicate DependenciesKnown(m: MissionDefinition, i: nat, n: nat) {
    i < |m.tasks| && n <= |m.tasks[i].dependsOn| &&
    forall j :: 0 <= j < n ==> m.tasks[i].dependsOn[j] in m.Ids()
  }

  /** The first listed dependency, in task order, that names no task. */
  ghost predicate IsFirstMissing(m: MissionDefinition, i: nat, j: nat) {
    && NoRepeats(m.Ids())
    && DependenciesKnown(m, i, j)
    && (forall h :: 0 <= h < i ==> DependenciesKnown(m, h, |m.tasks[h].dependsOn|))
    && j < |m.tasks[i].dependsOn| && m.tasks[i].dependsOn[j] !in m.Ids()
  }

  ghost predicate PlanCorrect(m: MissionDefinition, r: PlanResult) {
    match r
    case Planned(plan) => IsPlan(m, plan)
    case PlanError(Cycle, detail) => IsCycleReport(m, detail)
    case PlanError(DuplicateTask, detail) =>
      exists i: nat :: IsFirstDuplicate(m, i) && detail == [m.tasks[i].id]
    case PlanError(MissingDependency, detail) =>
      exists i: nat, j: nat :: IsFirstMissing(m, i, j) && detail == [m.tasks[i].id, m.tasks[i].dependsOn[j]]
  }

  // ----- the planner

  /** The still unplaced tasks all of whose dependencies are done, in their listed order. */
  function Ready(remaining: seq<Id>, deps: Graph, done: set<Id>): (r: seq<Id>)
    requires forall x :: x in remaining ==> x in deps
    ensures forall x :: x in r <==> x in remaining && deps[x] <= done
    ensures NoRepeats(remaining) ==> NoRepeats(r)
  {
    if remaining == [] then
      []
    else
      var rest := Ready(remaining[1..], deps, done);
      if deps[remaining[0]] <= done then [remaining[0]] + rest else rest
  }

  function Delete(s: seq<Id>, x: Id): (r: seq<Id>)
    ensures NoRepeats(s) ==> NoRepeats(r) && forall y :: y in r <==> y in s && y != x
    ensures |r| == if x in s then |s| - 1 else |s|
  {
    if s == [] then
      []
    else
      assert s == [s[0]] + s[1..] && (NoRepeats(s) ==> s[0] !in s[1..]);
      if s[0] == x then s[1..] else [s[0]] + Delete(s[1..], x)
  }

  method CheckDuplicates(mission: MissionDefinition) returns (failure: seq<Id>, idSet: set<Id>)
    ensures failure == [] ==> NoRepeats(mission.Ids()) && idSet == Elements(mission.Ids())
    ensures failure != [] ==> PlanCorrect(mission, PlanError(DuplicateTask, failure))
  {
    var ids := mission.Ids();
    idSet := {};
    for i := 0 to |ids|
      invariant idSet == Elements(ids[..i]) && NoRepeats(ids[..i])
    {
      if ids[i] in idSet {
        assert IsFirstDuplicate(mission, i);
        return [ids[i]], idSet;
      }
      assert ids[..i + 1] == ids[..i] + [ids[i]];
      idSet := idSet + {ids[i]};
    }
    assert ids[..|ids|] == ids;
    failure := [];
  }

  method ResolveDependencies(mission: MissionDefinition, idSet: set<Id>) returns (failure: seq<Id>, deps: Graph)
    requires NoRepeats(mission.Ids()) && idSet == Elements(mission.Ids())
    ensures failure == [] ==> deps == GraphOf(mission) && WellFormed(mission)
    ensures failure != [] ==> PlanCorrect(mission, PlanError(MissingDependency, failure))
  {
    deps := map[];
    var ids := mission.Ids();
    for i := 0 to |mission.tasks|
      invariant deps.Keys == Elements(ids[..i])
      invariant forall h :: 0 <= h < i ==> DependenciesKnown(mission, h, |mission.tasks[h].dependsOn|)
      invariant forall h :: 0 <= h < i ==> ids[h] in deps && deps[ids[h]] == Elements(mission.tasks[h].dependsOn)
    {
      var t := mission.tasks[i];
      var d: set<Id> := {};
      for j := 0 to |t.dependsOn|
        invariant d == Elements(t.dependsOn[..j])
        invariant DependenciesKnown(mission, i, j)
      {
        if t.dependsOn[j] !in idSet {
          assert IsFirstMissing(mission, i, j);
          return [t.id, t.dependsOn[j]], deps;
        }
        d := d + {t.dependsOn[j]};
      }
      assert t.dependsOn[..|t.dependsOn|] == t.dependsOn;
      assert ids[..i + 1] == ids[..i] + [t.id];
      deps := deps[t.id := d];
    }
    failure := [];
    assert ids[..|ids|] == ids;
    ResolvedGraph(mission, deps);
  }

  lemma ResolvedGraph(m: MissionDefinition, deps: Graph)
    requires NoRepeats(m.Ids()) && deps.Keys == Elements(m.Ids())
    requires forall i :: 0 <= i < |m.tasks| ==> DependenciesKnown(m, i, |m.tasks[i].dependsOn|)
    requires forall i :: 0 <= i < |m.tasks| ==>
      m.Ids()[i] in deps && deps[m.Ids()[i]] == Elements(m.tasks[i].dependsOn)
    ensures deps == GraphOf(m) && Closed(deps)
  {
    TaskTableComplete(m);
    forall x | x in deps ensures deps[x] == GraphOf(m)[x] && deps[x] <= deps.Keys {
      var i :| 0 <= i < |m.Ids()| && m.Ids()[i] == x;
      GraphAt(m, i);
      assert DependenciesKnown(m, i, |m.tasks[i].dependsOn|);
    }
  }

  /** The layer that round `k` of the loop takes out. */
  ghost predicate IsRound(g: Graph, layer: seq<Id>, k: nat) {
    && layer != [] && Sorted(NotAfter, layer) && NoRepeats(layer)
    && forall x :: x in layer <==> x in Settled(g, k + 1) && x !in Settled(g, k)
  }

  ghost predicate LayeredUpTo(g: Graph, layers: seq<seq<Id>>) {
    forall k :: 0 <= k < |layers| ==> IsRound(g, layers[k], k)
  }

  /** Moves one layer out of `remaining` and into the order and the done set. */
  method PlaceLayer(layer: seq<Id>, before: seq<Id>, placed: seq<Id>, settled: set<Id>)
      returns (remaining: seq<Id>, order: seq<Id>, done: set<Id>)
    requires NoRepeats(before) && NoRepeats(layer) && layer != [] && (forall x :: x in layer ==> x in before)
    ensures NoRepeats(remaining) && |remaining| < |before|
    ensures forall x :: x in remaining <==> x in before && x !in layer
    ensures order == placed + layer && done == settled + Elements(layer)
  {
    remaining, order := before, placed;
    for j := 0 to |layer|
      invariant NoRepeats(remaining) && |remaining| == |before| - j
      invariant forall x :: x in remaining <==> x in before && x !in layer[..j]
      invariant order == placed + layer[..j]
    {
      assert layer[j] in before && layer[j] !in layer[..j];
      assert layer[..j + 1] == layer[..j] + [layer[j]];
      remaining := Delete(remaining, layer[j]);
      order := order + [layer[j]];
    }
    done := settled;
    for j := 0 to |layer|
      invariant done == settled + Elements(layer[..j])
    {
      assert layer[..j + 1] == layer[..j] + [layer[j]];
      done := done + {layer[j]};
    }
    assert layer[..|layer|] == layer;
  }

  /** The sorted ready tasks are the ones the next round settles. */
  method NextLayer(ghost k: nat, remaining: seq<Id>, deps: Graph, done: set<Id>) returns (layer: seq<Id>)
    requires NoRepeats(remaining) && done == Settled(deps, k)
    requires forall x :: x in remaining <==> x in deps && x !in done
    ensures forall x :: x in layer ==> x in remaining
    ensures layer != [] ==> IsRound(deps, layer, k)
    ensures Settled(deps, k + 1) == done + Elements(layer) <= deps.Keys
  {
    var ready := Ready(remaining, deps, done);
    ReadyIsNextRound(deps, k, remaining);
    layer := SortedList(ready);
    assert forall x :: x in layer <==> x in ready;
  }

  method SortedList(s: seq<Id>) returns (r: seq<Id>)
    requires NoRepeats(s)
    ensures r == SortBy(NotAfter, s)
    ensures Sorted(NotAfter, r) && NoRepeats(r) && forall x :: x in r <==> x in s
  {
    r := SortBy(NotAfter, s);
    SortByFacts(NotAfter, s);
    SortBySorts(s);
  }

  lemma ReadyIsNextRound(g: Graph, k: nat, remaining: seq<Id>)
    requires forall x :: x in remaining <==> x in g && x !in Settled(g, k)
    ensures forall x :: x in Ready(remaining, g, Settled(g, k)) <==> x in Settled(g, k + 1) && x !in Settled(g, k)
    ensures Settled(g, k + 1) == Settled(g, k) + Elements(Ready(remaining, g, Settled(g, k))) <= g.Keys
  {
    SettledGrows(g, k, k + 1);
    var ready := Ready(remaining, g, Settled(g, k));
    forall x ensures x in ready <==> x in Settled(g, k + 1) && x !in Settled(g, k) {
    }
  }

  /** Where the layering loop stands after `|layers|` rounds. */
  ghost predicate InRound(g: Graph, remaining: seq<Id>, layers: seq<seq<Id>>, order: seq<Id>, done: set<Id>) {
    && NoRepeats(remaining)
    && done == Settled(g, |layers|) <= g.Keys
    && (forall x :: x in remaining <==> x in g && x !in done)
    && LayeredUpTo(g, layers)
    && order == Flatten(layers)
  }

  method PlanMission(mission: MissionDefinition) returns (r: PlanResult)
    ensures PlanCorrect(mission, r)
  {
    var duplicate, idSet := CheckDuplicates(mission);
    if duplicate != [] {
      return PlanError(DuplicateTask, duplicate);
    }
    var missing, deps := ResolveDependencies(mission, idSet);
    if missing != [] {
      return PlanError(MissingDependency, missing);
    }
    r := LayerTasks(mission, deps);
  }

  /** Takes out round after round of ready tasks until none is left or none is ready. */
  method LayerTasks(mission: MissionDefinition, deps: Graph) returns (r: PlanResult)
    requires WellFormed(mission) && deps == GraphOf(mission)
    ensures PlanCorrect(mission, r)
  {
    var remaining := mission.Ids();
    var layers: seq<seq<Id>>, order: seq<Id>, done: set<Id> := [], [], {};
    FirstRound(mission);
    while remaining != []
      invariant InRound(deps, remaining, layers, order, done)
      decreases |remaining|
    {
      var layer := NextLayer(|layers|, remaining, deps, done);
      if layer == [] {
        var cycle := SortedList(remaining);
        StuckTasks(deps, |layers|, remaining);
        return PlanError(Cycle, cycle);
      }
      var remaining', order', done' := PlaceLayer(layer, remaining, order, done);
      remaining, order, done, layers := remaining', order', done', layers + [layer];
    }
    AllPlaced(mission, layers);
    r := Planned(ExecutionPlan(layers, order));
  }

  lemma FirstRound(m: MissionDefinition)
    requires WellFormed(m)
    ensures InRound(GraphOf(m), m.Ids(), [], [], {})
  {
    TaskTableComplete(m);
  }

  lemma StuckTasks(g: Graph, k: nat, remaining: seq<Id>)
    requires Closed(g) && remaining != [] && Settled(g, k + 1) == Settled(g, k)
    requires forall x :: x in remaining <==> x in g && x !in Settled(g, k)
    ensures HasCycle(g) && forall x :: x in remaining <==> x in g && ReachesCycle(g, x)
  {
    forall x | x in g ensures x in remaining <==> ReachesCycle(g, x) {
      StuckIffReachesCycle(g, k, x);
    }
    assert remaining[0] in remaining;
    CycleIffReached(g);
  }

  lemma AllPlaced(m: MissionDefinition, layers: seq<seq<Id>>)
    requires WellFormed(m) && LayeredUpTo(GraphOf(m), layers)
    requires Settled(GraphOf(m), |layers|) == GraphOf(m).Keys
    ensures IsPlan(m, ExecutionPlan(layers, Flatten(layers)))
  {
    var g := GraphOf(m);
    forall k | 0 <= k < |layers| ensures IsLayer(g, layers[k], k) {
      RoundIsLayer(g, layers[k], k);
    }
    EveryTaskLayered(g, layers);
    AllSettledAcyclic(g, |layers|);
  }

  lemma RoundIsLayer(g: Graph, layer: seq<Id>, k: nat)
    requires Closed(g) && IsRound(g, layer, k)
    ensures IsLayer(g, layer, k)
  {
    SettledGrows(g, k + 1, k + 1);
    forall x ensures x in layer <==> x in g && LongestChain(g, x, k) {
      if x in g { RankIsLongestChain(g, k, x); }
    }
  }

  lemma EveryTaskLayered(g: Graph, layers: seq<seq<Id>>)
    requires LayeredUpTo(g, layers) && Settled(g, |layers|) == g.Keys
    ensures forall x {:trigger InSomeLayer(layers, x)} :: x in g ==> InSomeLayer(layers, x)
  {
    forall x | x in g ensures InSomeLayer(layers, x) {
      var k := FirstSettled(g, x, |layers|);
      assert IsRound(g, layers[k], k) && x in layers[k];
    }
  }

  lemma AllSettledAcyclic(g: Graph, k: nat)
    requires Closed(g) && Settled(g, k) == g.Keys
    ensures !HasCycle(g)
  {
    SettledGrows(g, k, k + 1);
    forall x | x in g ensures !ReachesCycle(g, x) {
      StuckIffReachesCycle(g, k, x);
    }
    CycleIffReached(g);
  }

  lemma FirstSettled(g: Graph, x: Id, n: nat) returns (k: nat)
    requires x in Settled(g, n)
    ensures k < n && x in Settled(g, k + 1) && x !in Settled(g, k)
  {
    k := n - 1;
    while x in Settled(g, k)
      invariant k < n && x in Settled(g, k + 1)
      decreases k
    {
      k := k - 1;
    }
  }
}
