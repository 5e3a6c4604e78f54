/** What follows for every mission from the planner's contract. */
module PlanProperties {
  import opened Sorting
  import opened MissionTypes
  import opened DependencyGraph
  import opened ExecutionPlanner

  /** The three ways planning fails exclude one another and are exhaustive: with unique
      ids and known dependencies the planner raises CYCLE exactly on cyclic graphs. */
  lemma FailsIffCycle(m: MissionDefinition, r: PlanResult)
    requires PlanCorrect(m, r)
    ensures r.PlanError? && r.code == DuplicateTask <==> !NoRepeats(m.Ids())
    ensures r.PlanError? && r.code == MissingDependency <==> NoRepeats(m.Ids()) && !Closed(GraphOf(m))
    ensures r.PlanError? && r.code == Cycle <==> WellFormed(m) && HasCycle(GraphOf(m))
    ensures r.Planned? <==> WellFormed(m) && !HasCycle(GraphOf(m))
  {
    match r
    case Planned(plan) =>
    case PlanError(Cycle, detail) =>
    case PlanError(DuplicateTask, detail) =>
      var i: nat :| IsFirstDuplicate(m, i) && detail == [m.tasks[i].id];
      var j :| 0 <= j < i && m.Ids()[..i][j] == m.Ids()[i];
      assert m.Ids()[j] == m.Ids()[i];
    case PlanError(MissingDependency, detail) =>
      var i: nat, j: nat :| IsFirstMissing(m, i, j) && detail == [m.tasks[i].id, m.tasks[i].dependsOn[j]];
      GraphAt(m, i);
      assert m.tasks[i].dependsOn[j] in GraphOf(m)[m.tasks[i].id];
  }

  // ----- every mission has its result

  lemma {:induction false} SomeFirstDuplicate(m: MissionDefinition, n: nat) returns (i: nat)
    requires n <= |m.tasks| && !NoRepeats(m.Ids()[..n])
    ensures IsFirstDuplicate(m, i)
  {
    var ids := m.Ids();
    if NoRepeats(ids[..n - 1]) {
      i := n - 1;
      assert ids[..n] == ids[..i] + [ids[i]];
    } else {
      i := SomeFirstDuplicate(m, n - 1);
    }
  }

  lemma {:induction false} SomeUnknown(m: MissionDefinition, i: nat, n: nat) returns (j: nat)
    requires i < |m.tasks| && n <= |m.tasks[i].dependsOn| && !DependenciesKnown(m, i, n)
    ensures j < n && DependenciesKnown(m, i, j) && m.tasks[i].dependsOn[j] !in m.Ids()
  {
    if DependenciesKnown(m, i, n - 1) {
      j := n - 1;
    } else {
      j := SomeUnknown(m, i, n - 1);
    }
  }

  lemma {:induction false} SomeFirstMissing(m: MissionDefinition, n: nat) returns (i: nat, j: nat)
    requires NoRepeats(m.Ids()) && n <= |m.tasks|
    requires exists h :: 0 <= h < n && !DependenciesKnown(m, h, |m.tasks[h].dependsOn|)
    ensures IsFirstMissing(m, i, j)
  {
    if h :| 0 <= h < n - 1 && !DependenciesKnown(m, h, |m.tasks[h].dependsOn|) {
      i, j := SomeFirstMissing(m, n - 1);
    } else {
      i := n - 1;
      j := SomeUnknown(m, i, |m.tasks[i].dependsOn|);
    }
  }

  lemma AllKnownClosed(m: MissionDefinition)
    requires NoRepeats(m.Ids()) && forall h :: 0 <= h < |m.tasks| ==> DependenciesKnown(m, h, |m.tasks[h].dependsOn|)
    ensures WellFormed(m)
  {
    TaskTableComplete(m);
    var g := GraphOf(m);
    forall x, d | x in g && d in g[x] ensures d in g {
      var h :| 0 <= h < |m.Ids()| && m.Ids()[h] == x;
      GraphAt(m, h);
      assert DependenciesKnown(m, h, |m.tasks[h].dependsOn|);
    }
  }

  /** Rounds can be taken until one adds nothing. */
  lemma {:induction false} RoundsToTheEnd(g: Graph, layers: seq<seq<Id>>) returns (all: seq<seq<Id>>)
    requires LayeredUpTo(g, layers) && Settled(g, |layers|) <= g.Keys
    ensures LayeredUpTo(g, all) && Settled(g, |all|) == Settled(g, |all| + 1)
    decreases g.Keys - Settled(g, |layers|)
  {
    var k := |layers|;
    SettledGrows(g, k, k + 1);
    if Settled(g, k) == Settled(g, k + 1) {
      all := layers;
    } else {
      var layer := SortedListOf(Settled(g, k + 1) - Settled(g, k));
      var x :| x in Settled(g, k + 1) && x !in Settled(g, k);
      assert x in layer;
      assert LayeredUpTo(g, layers + [layer]);
      all := RoundsToTheEnd(g, layers + [layer]);
    }
  }

  lemma LayeringExists(m: MissionDefinition) returns (r: PlanResult)
    requires WellFormed(m)
    ensures PlanCorrect(m, r)
  {
    var g := GraphOf(m);
    var layers := RoundsToTheEnd(g, []);
    SettledGrows(g, |layers|, |layers|);
    if Settled(g, |layers|) == g.Keys {
      AllPlaced(m, layers);
      r := Planned(ExecutionPlan(layers, Flatten(layers)));
    } else {
      r := StuckExists(m, |layers|);
    }
  }

  lemma StuckExists(m: MissionDefinition, k: nat) returns (r: PlanResult)
    requires WellFormed(m) && Settled(GraphOf(m), k) == Settled(GraphOf(m), k + 1) != GraphOf(m).Keys
    ensures PlanCorrect(m, r)
  {
    var g := GraphOf(m);
    SettledGrows(g, k, k);
    var remaining := SortedListOf(g.Keys - Settled(g, k));
    var x :| x in g && x !in Settled(g, k);
    assert x in remaining;
    StuckTasks(g, k, remaining);
    r := PlanError(Cycle, remaining);
  }

  /** The planner's contract can be met on every mission. */
  lemma PlanExists(m: MissionDefinition) returns (r: PlanResult)
    ensures PlanCorrect(m, r)
  {
    assert m.Ids()[..|m.tasks|] == m.Ids();
    if !NoRepeats(m.Ids()) {
      var i := SomeFirstDuplicate(m, |m.tasks|);
      r := PlanError(DuplicateTask, [m.tasks[i].id]);
    } else if exists h :: 0 <= h < |m.tasks| && !DependenciesKnown(m, h, |m.tasks[h].dependsOn|) {
      var i, j := SomeFirstMissing(m, |m.tasks|);
      r := PlanError(MissingDependency, [m.tasks[i].id, m.tasks[i].dependsOn[j]]);
    } else {
      AllKnownClosed(m);
      r := LayeringExists(m);
    }
  }

  /** The layers depend only on the dependency relation: two missions with the same
      tasks in any order, and the same dependencies listed in any order and any number
      of times, get the same plan or the same cycle report. */
  lemma PlanIgnoresListing(m1: MissionDefinition, r1: PlanResult, m2: MissionDefinition, r2: PlanResult)
    requires PlanCorrect(m1, r1) && PlanCorrect(m2, r2)
    requires WellFormed(m1) && NoRepeats(m2.Ids())
    requires SameTasks(m1, m2)
    ensures r1 == r2
  {
    SameGraph(m1, m2);
    FailsIffCycle(m1, r1);
    FailsIffCycle(m2, r2);
    if r1.Planned? {
      SameLayers(GraphOf(m1), r1.plan.layers, r2.plan.layers);
    } else {
      SameCycleReport(m1, r1.detail, m2, r2.detail);
    }
  }

  /** The two missions list the same task ids, with the same set of dependencies for each. */
  ghost predicate SameTasks(m1: MissionDefinition, m2: MissionDefinition) {
    && Elements(m1.Ids()) == Elements(m2.Ids())
    && (forall i, j :: 0 <= i < |m1.tasks| && 0 <= j < |m2.tasks| && m1.tasks[i].id == m2.tasks[j].id ==>
          Elements(m1.tasks[i].dependsOn) == Elements(m2.tasks[j].dependsOn))
  }

  lemma SameGraph(m1: MissionDefinition, m2: MissionDefinition)
    requires NoRepeats(m1.Ids()) && NoRepeats(m2.Ids()) && SameTasks(m1, m2)
    ensures GraphOf(m1) == GraphOf(m2)
  {
    TaskTableComplete(m1);
    TaskTableComplete(m2);
    forall x | x in Elements(m1.Ids()) ensures GraphOf(m1)[x] == GraphOf(m2)[x] {
      assert x in Elements(m2.Ids());
      var i :| 0 <= i < |m1.Ids()| && m1.Ids()[i] == x;
      var j :| 0 <= j < |m2.Ids()| && m2.Ids()[j] == x;
      GraphAt(m1, i);
      GraphAt(m2, j);
    }
    assert GraphOf(m1).Keys == GraphOf(m2).Keys;
  }

  lemma SameCycleReport(m1: MissionDefinition, d1: seq<Id>, m2: MissionDefinition, d2: seq<Id>)
    requires IsCycleReport(m1, d1) && IsCycleReport(m2, d2) && GraphOf(m1) == GraphOf(m2)
    ensures d1 == d2
  {
    SortedListUnique(d1, d2);
  }

  lemma NoMoreLayers(g: Graph, l1: seq<seq<Id>>, l2: seq<seq<Id>>)
    requires AreLayers(g, l1) && AreLayers(g, l2)
    ensures |l1| <= |l2|
  {
    if l1 != [] {
      var k := |l1| - 1;
      assert IsLayer(g, l1[k], k);
      var x := l1[k][0];
      assert x in l1[k];
      assert InSomeLayer(l2, x);
      var j :| 0 <= j < |l2| && x in l2[j];
      assert IsLayer(g, l2[j], j);
    }
  }

  lemma SameLayers(g: Graph, l1: seq<seq<Id>>, l2: seq<seq<Id>>)
    requires AreLayers(g, l1) && AreLayers(g, l2)
    ensures l1 == l2
  {
    NoMoreLayers(g, l1, l2);
    NoMoreLayers(g, l2, l1);
    forall k | 0 <= k < |l1| ensures l1[k] == l2[k] {
      assert IsLayer(g, l1[k], k) && IsLayer(g, l2[k], k);
      SortedListUnique(l1[k], l2[k]);
    }
  }

  // ----- the one result of every mission

  lemma DuplicateNotBefore(m: MissionDefinition, i: nat, j: nat)
    requires IsFirstDuplicate(m, i) && IsFirstDuplicate(m, j)
    ensures j <= i
  {
    var h :| 0 <= h < i && m.Ids()[..i][h] == m.Ids()[i];
  }

  /** The planner's contract leaves it no choice, on any mission. */
  lemma PlanDeterminate(m: MissionDefinition, r1: PlanResult, r2: PlanResult)
    requires PlanCorrect(m, r1) && PlanCorrect(m, r2)
    ensures r1 == r2
  {
    FailsIffCycle(m, r1);
    FailsIffCycle(m, r2);
    if WellFormed(m) {
      SelfSame(m);
      PlanIgnoresListing(m, r1, m, r2);
    } else if r1.code == DuplicateTask {
      var i: nat :| IsFirstDuplicate(m, i) && r1.detail == [m.tasks[i].id];
      var j: nat :| IsFirstDuplicate(m, j) && r2.detail == [m.tasks[j].id];
      DuplicateNotBefore(m, i, j);
      DuplicateNotBefore(m, j, i);
    } else {
      var i1: nat, j1: nat :| IsFirstMissing(m, i1, j1) && r1.detail == [m.tasks[i1].id, m.tasks[i1].dependsOn[j1]];
      var i2: nat, j2: nat :| IsFirstMissing(m, i2, j2) && r2.detail == [m.tasks[i2].id, m.tasks[i2].dependsOn[j2]];
    }
  }

  lemma SelfSame(m: MissionDefinition)
    requires NoRepeats(m.Ids())
    ensures SameTasks(m, m)
  {
    forall i, j | 0 <= i < |m.tasks| && 0 <= j < |m.tasks| && m.tasks[i].id == m.tasks[j].id
      ensures Elements(m.tasks[i].dependsOn) == Elements(m.tasks[j].dependsOn)
    {
      assert m.Ids()[i] == m.Ids()[j];
    }
  }

  lemma SomePlan(m: MissionDefinition)
    ensures exists r :: PlanCorrect(m, r)
  {
    var r := PlanExists(m);
  }

  /** The planner's result: the only one its contract allows. */
  ghost function ThePlan(m: MissionDefinition): (r: PlanResult)
    ensures PlanCorrect(m, r)
  {
    SomePlan(m);
    var r :| PlanCorrect(m, r);
    r
  }

  lemma PlanIs(m: MissionDefinition, r: PlanResult)
    requires PlanCorrect(m, r)
    ensures r == ThePlan(m)
  {
    PlanDeterminate(m, r, ThePlan(m));
  }

  // ----- what the layers are

  lemma LayersDisjoint(m: MissionDefinition, plan: ExecutionPlan, j: nat, k: nat)
    requires IsPlan(m, plan) && j < k < |plan.layers|
    ensures forall x :: x in plan.layers[j] ==> x !in plan.layers[k]
  {
    assert IsLayer(GraphOf(m), plan.layers[j], j) && IsLayer(GraphOf(m), plan.layers[k], k);
  }

  /** Every dependency lies in a strictly earlier layer. */
  lemma DependenciesEarlier(m: MissionDefinition, plan: ExecutionPlan, k: nat, x: Id, d: Id) returns (j: nat)
    requires IsPlan(m, plan) && k < |plan.layers| && x in plan.layers[k]
    requires x in GraphOf(m) && d in GraphOf(m)[x]
    ensures j < k && d in plan.layers[j]
  {
    var g := GraphOf(m);
    assert IsLayer(g, plan.layers[k], k);
    assert d in g && InSomeLayer(plan.layers, d);
    j :| 0 <= j < |plan.layers| && d in plan.layers[j];
    assert IsLayer(g, plan.layers[j], j);
    var q :| IsWalkFrom(g, d, q) && |q| == j + 1;
    var p := PrependWalk(g, x, q);
  }

  /** No valid layering is shorter: whatever levels put every dependency strictly lower,
      a task of layer `k` has level at least `k`. */
  lemma FewestLayers(m: MissionDefinition, plan: ExecutionPlan, level: map<Id, nat>, k: nat, x: Id)
    requires IsPlan(m, plan) && k < |plan.layers| && x in plan.layers[k]
    requires GraphOf(m).Keys <= level.Keys
    requires forall y, d :: y in GraphOf(m) && d in GraphOf(m)[y] && d in GraphOf(m) ==> level[d] < level[y]
    ensures x in level && level[x] >= k
  {
    var g := GraphOf(m);
    assert IsLayer(g, plan.layers[k], k);
    var p :| IsWalkFrom(g, x, p) && |p| == k + 1;
    LevelsBoundChains(g, level, p);
  }

  // ----- the plan as a sequence of stages

  /** The tasks of the first `n` layers. */
  ghost function Placed(layers: seq<seq<Id>>, n: nat): set<Id>
    requires n <= |layers|
  {
    if n == 0 then {} else Placed(layers, n - 1) + Elements(layers[n - 1])
  }

  /** `layer` holds new tasks only, and all their dependencies are in `before`. */
  ghost predicate IsStage(g: Graph, before: set<Id>, layer: seq<Id>) {
    && layer != [] && NoRepeats(layer)
    && forall x :: x in layer ==> x in g && x !in before && g[x] <= before
  }

  ghost predicate StageAt(g: Graph, layers: seq<seq<Id>>, n: nat) {
    n < |layers| && IsStage(g, Placed(layers, n), layers[n])
  }

  /** The layers, one after the other, place every task after its dependencies. */
  ghost predicate Staged(g: Graph, layers: seq<seq<Id>>) {
    && (forall n: nat :: n < |layers| ==> StageAt(g, layers, n))
    && Placed(layers, |layers|) == g.Keys
  }

  lemma {:induction false} PlacedMembers(layers: seq<seq<Id>>, n: nat, x: Id)
    requires n <= |layers|
    ensures x in Placed(layers, n) <==> exists k :: 0 <= k < n && x in layers[k]
  {
    if n > 0 {
      PlacedMembers(layers, n - 1, x);
    }
  }

  lemma PlanStage(m: MissionDefinition, plan: ExecutionPlan, n: nat)
    requires IsPlan(m, plan) && n < |plan.layers|
    ensures StageAt(GraphOf(m), plan.layers, n)
  {
    assert IsLayer(GraphOf(m), plan.layers[n], n);
    forall x | x in plan.layers[n] ensures x !in Placed(plan.layers, n) {
      PlacedMembers(plan.layers, n, x);
      forall j: nat | j < n ensures x !in plan.layers[j] {
        LayersDisjoint(m, plan, j, n);
      }
    }
    forall x, d | x in plan.layers[n] && d in GraphOf(m)[x] ensures d in Placed(plan.layers, n) {
      var j := DependenciesEarlier(m, plan, n, x, d);
      PlacedMembers(plan.layers, n, d);
    }
  }

  lemma PlanCovers(m: MissionDefinition, plan: ExecutionPlan)
    requires IsPlan(m, plan)
    ensures Placed(plan.layers, |plan.layers|) == GraphOf(m).Keys
  {
    forall x ensures x in Placed(plan.layers, |plan.layers|) <==> x in GraphOf(m) {
      PlacedMembers(plan.layers, |plan.layers|, x);
      assert x in GraphOf(m) ==> InSomeLayer(plan.layers, x);
      if k :| 0 <= k < |plan.layers| && x in plan.layers[k] {
        assert IsLayer(GraphOf(m), plan.layers[k], k);
      }
    }
  }

  lemma PlanIsStaged(m: MissionDefinition, plan: ExecutionPlan)
    requires IsPlan(m, plan)
    ensures Staged(GraphOf(m), plan.layers)
  {
    forall n: nat | n < |plan.layers| ensures StageAt(GraphOf(m), plan.layers, n) {
      PlanStage(m, plan, n);
    }
    PlanCovers(m, plan);
  }

  // ----- the flat order

  /** No task comes before one of its dependencies. */
  ghost predicate DependenciesFirst(g: Graph, order: seq<Id>) {
    forall i :: 0 <= i < |order| ==> order[i] in g && g[order[i]] <= Elements(order[..i])
  }

  lemma AppendStage(g: Graph, before: seq<Id>, layer: seq<Id>)
    requires NoRepeats(before) && DependenciesFirst(g, before) && IsStage(g, Elements(before), layer)
    ensures NoRepeats(before + layer) && DependenciesFirst(g, before + layer)
  {
    var order := before + layer;
    forall i | 0 <= i < |order| ensures order[i] in g && g[order[i]] <= Elements(order[..i]) {
      if i < |before| {
        assert order[..i] == before[..i];
      } else {
        assert order[i] == layer[i - |before|] && layer[i - |before|] in layer;
        assert order[..i] == before + layer[..i - |before|];
      }
    }
    forall i, j | 0 <= i < j < |order| ensures order[i] != order[j] {
      if i < |before| <= j {
        assert before[i] in Elements(before) && layer[j - |before|] in layer;
      }
    }
  }

  lemma {:induction false} StagedOrder(g: Graph, layers: seq<seq<Id>>, n: nat)
    requires Staged(g, layers) && n <= |layers|
    ensures NoRepeats(Flatten(layers[..n])) && DependenciesFirst(g, Flatten(layers[..n]))
    ensures Elements(Flatten(layers[..n])) == Placed(layers, n)
  {
    if n > 0 {
      StagedOrder(g, layers, n - 1);
      assert StageAt(g, layers, n - 1);
      AppendStage(g, Flatten(layers[..n - 1]), layers[n - 1]);
      assert layers[..n][..n - 1] == layers[..n - 1];
    }
  }

  /** How many tasks the first `k` layers hold together. */
  ghost function SumOfSizes(layers: seq<seq<Id>>, k: nat): nat
    requires k <= |layers|
  {
    if k == 0 then 0 else SumOfSizes(layers, k - 1) + |layers[k - 1]|
  }

  lemma {:induction false} FlattenedEntry(layers: seq<seq<Id>>, n: nat, k: nat, i: nat)
    requires k < n <= |layers| && i < |layers[k]|
    ensures |Flatten(layers[..n])| == SumOfSizes(layers, n)
    ensures SumOfSizes(layers, k) + i < SumOfSizes(layers, n)
    ensures Flatten(layers[..n])[SumOfSizes(layers, k) + i] == layers[k][i]
    decreases n
  {
    assert layers[..n][..n - 1] == layers[..n - 1];
    if k < n - 1 {
      FlattenedEntry(layers, n - 1, k, i);
    } else {
      FlattenedSize(layers, n - 1);
    }
  }

  lemma {:induction false} FlattenedSize(layers: seq<seq<Id>>, n: nat)
    requires n <= |layers|
    ensures |Flatten(layers[..n])| == SumOfSizes(layers, n)
  {
    if n > 0 {
      FlattenedSize(layers, n - 1);
      assert layers[..n][..n - 1] == layers[..n - 1];
    }
  }

  /** `order` lists the layers one after the other: the `i`-th task of layer `k` stands where
      the sizes of the earlier layers and `i` add up to, and there are no further entries. */
  lemma OrderEntry(m: MissionDefinition, plan: ExecutionPlan, k: nat, i: nat)
    requires IsPlan(m, plan) && k < |plan.layers| && i < |plan.layers[k]|
    ensures |plan.order| == SumOfSizes(plan.layers, |plan.layers|)
    ensures SumOfSizes(plan.layers, k) + i < |plan.order|
    ensures plan.order[SumOfSizes(plan.layers, k) + i] == plan.layers[k][i]
  {
    assert plan.layers[..|plan.layers|] == plan.layers;
    FlattenedEntry(plan.layers, |plan.layers|, k, i);
  }

  /** `order` lists every task once, each after all of its dependencies. */
  lemma OrderIsTopological(m: MissionDefinition, plan: ExecutionPlan)
    requires IsPlan(m, plan)
    ensures NoRepeats(plan.order) && Elements(plan.order) == GraphOf(m).Keys
    ensures DependenciesFirst(GraphOf(m), plan.order)
  {
    PlanIsStaged(m, plan);
    assert plan.layers[..|plan.layers|] == plan.layers;
    StagedOrder(GraphOf(m), plan.layers, |plan.layers|);
  }

  /** The same in the terms of the mission: whatever the `i`-th task lists as a dependency
      stands in `order` before the task itself. */
  lemma DependenciesInOrder(m: MissionDefinition, plan: ExecutionPlan, i: nat, j: nat) returns (a: nat, b: nat)
    requires IsPlan(m, plan) && i < |m.tasks| && j < |m.tasks[i].dependsOn|
    ensures a < b < |plan.order| && plan.order[a] == m.tasks[i].dependsOn[j] && plan.order[b] == m.tasks[i].id
  {
    OrderIsTopological(m, plan);
    GraphAt(m, i);
    assert m.tasks[i].id in Elements(plan.order);
    b :| 0 <= b < |plan.order| && plan.order[b] == m.tasks[i].id;
    var d := m.tasks[i].dependsOn[j];
    assert d in GraphOf(m)[m.tasks[i].id] && d in Elements(plan.order[..b]);
    a :| 0 <= a < b && plan.order[..b][a] == d;
  }
}
