/** The agent graph walk: a guarded walk over an arbitrary directed graph with step, time,
    call and cost budgets and a threaded blackboard. */
module AgentRunner {
  import opened Wrappers
  import opened JoinedText

  datatype NodeKind =
    InputNode | RetrieveNode | FunctionNode | ConditionNode | ActionNode | ReviewNode | NotifyNode | OutputNode

  datatype Node = Node(id: Text, kind: NodeKind)

  /** An edge without a condition has the empty one. */
  datatype Edge = Edge(from: Text, to: Text, condition: Text)

  datatype Graph = Graph(nodes: seq<Node>, edges: seq<Edge>)

  datatype Value = Json(text: Text)

  type Blackboard = map<Text, Value>

  datatype Limits = Limits(maxSteps: int, maxFunctionCalls: int, maxCostUsd: real)

  /** Executing a node gives an output and costs something, or fails or times out. */
  datatype NodeResult = Done(output: Blackboard, costUsd: real) | Threw

  /** What the run cannot decide itself: how the n-th node execution comes out, whether the
      deadline has passed before it, and which conditions hold. */
  datatype Environment = Environment(
    execute: (Node, Blackboard, nat) -> NodeResult,
    late: nat -> bool,
    holds: (Text, Blackboard) -> bool)

  datatype Step = Step(nodeId: Text, kind: NodeKind, input: Blackboard, output: Blackboard)

  datatype Failure = CycleDetected(id: Text) | StepBudget | TimeBudget | CallBudget | NodeFailed(id: Text) | CostBudget

  datatype AgentRun = Completed(steps: seq<Step>, output: Blackboard) | Failed(steps: seq<Step>, error: Failure)

  // ----- choosing nodes

  function Ids(nodes: seq<Node>): set<Text> {
    set n | n in nodes :: n.id
  }

  function FirstInput(nodes: seq<Node>): Option<Node> {
    if nodes == [] then None
    else if nodes[0].kind == InputNode then Some(nodes[0])
    else FirstInput(nodes[1..])
  }

  function StartNode(g: Graph): Option<Node> {
    if FirstInput(g.nodes).Some? then FirstInput(g.nodes)
    else if g.nodes == [] then None
    else Some(g.nodes[0])
  }

  /** Of nodes with the same id the last one is looked up. */
  function NodeById(nodes: seq<Node>, id: Text): (r: Option<Node>)
    ensures r.Some? <==> id in Ids(nodes)
    ensures r.Some? ==> r.value in nodes && r.value.id == id
  {
    if nodes == [] then None
    else if nodes[|nodes| - 1].id == id then Some(nodes[|nodes| - 1])
    else NodeById(nodes[..|nodes| - 1], id)
  }

  predicate EnabledEdge(env: Environment, e: Edge, from: Text, bb: Blackboard) {
    e.from == from && (e.condition == [] || env.holds(e.condition, bb))
  }

  function FirstEnabled(env: Environment, edges: seq<Edge>, from: Text, bb: Blackboard): Option<Edge> {
    if edges == [] then None
    else if EnabledEdge(env, edges[0], from, bb) then Some(edges[0])
    else FirstEnabled(env, edges[1..], from, bb)
  }

  function NextNode(g: Graph, env: Environment, from: Text, bb: Blackboard): Option<Node> {
    match FirstEnabled(env, g.edges, from, bb)
    case None => None
    case Some(edge) => NodeById(g.nodes, edge.to)
  }

  ghost predicate IsFirstEnabled(env: Environment, edges: seq<Edge>, from: Text, bb: Blackboard, i: int) {
    && 0 <= i < |edges| && EnabledEdge(env, edges[i], from, bb)
    && forall j :: 0 <= j < i ==> !EnabledEdge(env, edges[j], from, bb)
  }

  /** The chosen edge is enabled and no edge listed before it is. */
  lemma {:induction false} FirstEnabledMeaning(env: Environment, edges: seq<Edge>, from: Text, bb: Blackboard)
    ensures match FirstEnabled(env, edges, from, bb)
      case None => forall i :: 0 <= i < |edges| ==> !EnabledEdge(env, edges[i], from, bb)
      case Some(e) => exists i :: IsFirstEnabled(env, edges, from, bb, i) && edges[i] == e
  {
    if edges != [] && !EnabledEdge(env, edges[0], from, bb) {
      FirstEnabledMeaning(env, edges[1..], from, bb);
      match FirstEnabled(env, edges[1..], from, bb)
      case None =>
        assert forall i :: 1 <= i < |edges| ==> edges[i] == edges[1..][i - 1];
      case Some(e) =>
        var i :| IsFirstEnabled(env, edges[1..], from, bb, i) && edges[1..][i] == e;
        assert edges[i + 1] == e;
        assert forall j :: 1 <= j < i + 1 ==> edges[j] == edges[1..][j - 1];
        assert IsFirstEnabled(env, edges, from, bb, i + 1);
    } else if edges != [] {
      assert IsFirstEnabled(env, edges, from, bb, 0);
    }
  }

  // ----- the walk

  /** Where the loop stands before it executes `current`. */
  datatype Walk = Walk(
    current: Option<Node>, guard: set<Text>, steps: seq<Step>, blackboard: Blackboard, functionCalls: nat, costUsd: real)

  function StartWalk(g: Graph, input: Blackboard): Walk {
    Walk(StartNode(g), {}, [], input, 0, 0.0)
  }

  function CallsAfter(w: Walk): nat
    requires w.current.Some?
  {
    w.functionCalls + if w.current.value.kind == FunctionNode then 1 else 0
  }

  /** What stops the walk before it executes the current node. */
  function Refusal(env: Environment, limits: Limits, w: Walk): Option<Failure>
    requires w.current.Some?
  {
    var node := w.current.value;
    if node.id in w.guard then Some(CycleDetected(node.id))
    else if |w.steps| + 1 > limits.maxSteps then Some(StepBudget)
    else if env.late(|w.steps|) then Some(TimeBudget)
    else if node.kind == FunctionNode && CallsAfter(w) > limits.maxFunctionCalls then Some(CallBudget)
    else if env.execute(node, w.blackboard, |w.steps|).Threw? then Some(NodeFailed(node.id))
    else None
  }

  /** The walk after executing the current node; `current` is still the executed node. */
  function Executed(env: Environment, w: Walk): Walk
    requires w.current.Some? && env.execute(w.current.value, w.blackboard, |w.steps|).Done?
  {
    var node := w.current.value;
    var result := env.execute(node, w.blackboard, |w.steps|);
    Walk(w.current, w.guard + {node.id},
         w.steps + [Step(node.id, node.kind, w.blackboard, result.output)],
         w.blackboard + result.output, CallsAfter(w), w.costUsd + result.costUsd)
  }

  function Moved(g: Graph, env: Environment, w: Walk): Walk
    requires w.current.Some?
  {
    w.(current := NextNode(g, env, w.current.value.id, w.blackboard))
  }

  predicate InGraph(g: Graph, w: Walk) {
    w.current.Some? ==> w.current.value in g.nodes
  }

  /** The run from `w` on. It ends on every graph, cyclic ones included. */
  function RunFrom(g: Graph, env: Environment, limits: Limits, w: Walk): AgentRun
    requires InGraph(g, w)
    decreases |Ids(g.nodes) - w.guard|
  {
    if w.current.None? then Completed(w.steps, w.blackboard)
    else if Refusal(env, limits, w).Some? then Failed(w.steps, Refusal(env, limits, w).value)
    else
      var w1 := Executed(env, w);
      if w1.costUsd > limits.maxCostUsd then Failed(w1.steps, CostBudget)
      else if w.current.value.kind == OutputNode then Completed(w1.steps, w1.blackboard)
      else
        Advances(g, env, limits, w);
        RunFrom(g, env, limits, Moved(g, env, w1))
  }

  /** Executing a node leaves fewer nodes to execute. */
  lemma Advances(g: Graph, env: Environment, limits: Limits, w: Walk)
    requires InGraph(g, w) && w.current.Some? && Refusal(env, limits, w) == None
    ensures |Ids(g.nodes) - Executed(env, w).guard| < |Ids(g.nodes) - w.guard|
  {
    var guard := Executed(env, w).guard;
    assert w.current.value.id in Ids(g.nodes) - w.guard && w.current.value.id !in Ids(g.nodes) - guard;
    assert Ids(g.nodes) - guard < Ids(g.nodes) - w.guard;
    GuardGrows(Ids(g.nodes), w.guard, guard);
  }

  /** A run goes on from the next node. */
  lemma RunContinues(g: Graph, env: Environment, limits: Limits, w: Walk)
    requires InGraph(g, w) && w.current.Some? && Refusal(env, limits, w) == None
    requires Executed(env, w).costUsd <= limits.maxCostUsd && w.current.value.kind != OutputNode
    ensures InGraph(g, Moved(g, env, Executed(env, w)))
    ensures RunFrom(g, env, limits, w) == RunFrom(g, env, limits, Moved(g, env, Executed(env, w)))
    ensures |Ids(g.nodes) - Executed(env, w).guard| < |Ids(g.nodes) - w.guard|
  {
    Advances(g, env, limits, w);
  }

  lemma GuardGrows(ids: set<Text>, a: set<Text>, b: set<Text>)
    requires ids - b < ids - a
    ensures |ids - b| < |ids - a|
  {
    var x :| x in ids - a && x !in ids - b;
    assert ids - b <= (ids - a) - {x};
    SubsetSmaller(ids - b, (ids - a) - {x});
  }

  lemma {:induction false} SubsetSmaller(a: set<Text>, b: set<Text>)
    requires a <= b
    ensures |a| <= |b|
  {
    if a != {} {
      var x :| x in a;
      SubsetSmaller(a - {x}, b - {x});
    }
  }

  function RunOf(g: Graph, env: Environment, limits: Limits, input: Blackboard): AgentRun {
    StartInGraph(g);
    RunFrom(g, env, limits, StartWalk(g, input))
  }

  lemma StartInGraph(g: Graph)
    ensures StartNode(g).Some? ==> StartNode(g).value in g.nodes
  {
    InputInNodes(g.nodes);
  }

  lemma {:induction false} InputInNodes(nodes: seq<Node>)
    ensures FirstInput(nodes).Some? ==> FirstInput(nodes).value in nodes && FirstInput(nodes).value.kind == InputNode
  {
    if nodes != [] {
      InputInNodes(nodes[1..]);
    }
  }

  method RunAgent(g: Graph, env: Environment, limits: Limits, input: Blackboard) returns (run: AgentRun)
    ensures run == RunOf(g, env, limits, input)
  {
    StartInGraph(g);
    var current := StartNode(g);
    var guard: set<Text> := {};
    var steps: seq<Step> := [];
    var blackboard := input;
    var stepCount, functionCalls, costUsd := 0, 0, 0.0;
    while current.Some?
      invariant stepCount == |steps|
      invariant InGraph(g, Walk(current, guard, steps, blackboard, functionCalls, costUsd))
      invariant RunFrom(g, env, limits, Walk(current, guard, steps, blackboard, functionCalls, costUsd))
        == RunOf(g, env, limits, input)
      decreases |Ids(g.nodes) - guard|
    {
      ghost var w := Walk(current, guard, steps, blackboard, functionCalls, costUsd);
      var node := current.value;
      if node.id in guard {
        return Failed(steps, CycleDetected(node.id));
      }
      guard := guard + {node.id};
      stepCount := stepCount + 1;
      if stepCount > limits.maxSteps {
        return Failed(steps, StepBudget);
      }
      if env.late(stepCount - 1) {
        return Failed(steps, TimeBudget);
      }
      if node.kind == FunctionNode {
        functionCalls := functionCalls + 1;
        if functionCalls > limits.maxFunctionCalls {
          return Failed(steps, CallBudget);
        }
      }
      var result := env.execute(node, blackboard, stepCount - 1);
      if result.Threw? {
        return Failed(steps, NodeFailed(node.id));
      }
      steps := steps + [Step(node.id, node.kind, blackboard, result.output)];
      blackboard := blackboard + result.output;
      costUsd := costUsd + result.costUsd;
      assert Walk(current, guard, steps, blackboard, functionCalls, costUsd) == Executed(env, w);
      if costUsd > limits.maxCostUsd {
        return Failed(steps, CostBudget);
      }
      if node.kind == OutputNode {
        break;
      }
      RunContinues(g, env, limits, w);
      current := NextNode(g, env, node.id, blackboard);
    }
    run := Completed(steps, blackboard);
  }
}
