/** What the recorded steps of every agent run say, in the terms of the graph, the budgets
    and the environment. */
module AgentGuarantees {
  import opened Sorting
  import opened JoinedText
  import opened AgentRunner
  import opened AgentProperties

  // ----- where the walk goes

  /** Of the edges out of `from`, edge `k` is the first that has no condition or one that
      holds. */
  ghost predicate Follows(g: Graph, env: Environment, from: Text, bb: Blackboard, k: nat) {
    && k < |g.edges| && g.edges[k].from == from
    && (g.edges[k].condition == [] || env.holds(g.edges[k].condition, bb))
    && forall j :: 0 <= j < k && g.edges[j].from == from ==>
      g.edges[j].condition != [] && !env.holds(g.edges[j].condition, bb)
  }

  /** `n` is the last listed node with this id. */
  ghost predicate LastListed(nodes: seq<Node>, id: Text, n: Node) {
    exists i {:trigger nodes[i]} :: 0 <= i < |nodes| && nodes[i] == n && n.id == id
      && forall j :: i < j < |nodes| ==> nodes[j].id != id
  }

  /** `n` is the first listed input node, or the first node when there is no input node. */
  ghost predicate FirstListed(nodes: seq<Node>, n: Node) {
    exists i {:trigger nodes[i]} :: 0 <= i < |nodes| && nodes[i] == n
      && (forall j :: 0 <= j < i ==> nodes[j].kind != InputNode)
      && (n.kind != InputNode ==> i == 0 && forall j :: 0 <= j < |nodes| ==> nodes[j].kind != InputNode)
  }

  lemma {:induction false} NodeByIdMeaning(nodes: seq<Node>, id: Text)
    ensures match NodeById(nodes, id)
      case Some(n) => LastListed(nodes, id, n)
      case None => forall i :: 0 <= i < |nodes| ==> nodes[i].id != id
  {
    if nodes != [] && nodes[|nodes| - 1].id != id {
      var rest := nodes[..|nodes| - 1];
      NodeByIdMeaning(rest, id);
      if NodeById(rest, id).Some? {
        var i :| 0 <= i < |rest| && rest[i] == NodeById(rest, id).value
          && forall j :: i < j < |rest| ==> rest[j].id != id;
        assert nodes[i] == rest[i];
        forall j | i < j < |nodes| ensures nodes[j].id != id {
          assert j < |rest| ==> nodes[j] == rest[j];
        }
      } else {
        forall i | 0 <= i < |nodes| ensures nodes[i].id != id {
          assert i < |rest| ==> nodes[i] == rest[i];
        }
      }
    }
  }

  lemma {:induction false} FirstInputMeaning(nodes: seq<Node>)
    ensures match FirstInput(nodes)
      case Some(n) => n.kind == InputNode && FirstListed(nodes, n)
      case None => forall i :: 0 <= i < |nodes| ==> nodes[i].kind != InputNode
  {
    if nodes != [] && nodes[0].kind != InputNode {
      FirstInputMeaning(nodes[1..]);
      if FirstInput(nodes[1..]).Some? {
        var n := FirstInput(nodes[1..]).value;
        var i :| 0 <= i < |nodes[1..]| && nodes[1..][i] == n
          && forall j :: 0 <= j < i ==> nodes[1..][j].kind != InputNode;
        assert nodes[i + 1] == n;
        forall j | 0 <= j < i + 1 ensures nodes[j].kind != InputNode {
          assert j > 0 ==> nodes[j] == nodes[1..][j - 1];
        }
      } else {
        forall i | 0 <= i < |nodes| ensures nodes[i].kind != InputNode {
          assert i > 0 ==> nodes[i] == nodes[1..][i - 1];
        }
      }
    }
  }

  lemma StartNodeMeaning(g: Graph)
    ensures match StartNode(g)
      case Some(n) => FirstListed(g.nodes, n)
      case None => g.nodes == []
  {
    FirstInputMeaning(g.nodes);
    if FirstInput(g.nodes).None? && g.nodes != [] {
      assert g.nodes[0].kind != InputNode;
    }
  }

  /** From node `from` on blackboard `bb` the walk goes to node `n`. */
  ghost predicate GoesTo(g: Graph, env: Environment, from: Text, bb: Blackboard, n: Node) {
    exists k: nat :: Follows(g, env, from, bb, k) && LastListed(g.nodes, g.edges[k].to, n)
  }

  /** From node `from` on blackboard `bb` it goes nowhere: there is no edge to follow, or the
      one there is leads to an id that no node has. */
  ghost predicate GoesNowhere(g: Graph, env: Environment, from: Text, bb: Blackboard) {
    forall k: nat :: Follows(g, env, from, bb, k) ==> forall i :: 0 <= i < |g.nodes| ==> g.nodes[i].id != g.edges[k].to
  }

  lemma FollowedOnce(g: Graph, env: Environment, from: Text, bb: Blackboard, j: nat, k: nat)
    requires Follows(g, env, from, bb, j) && Follows(g, env, from, bb, k)
    ensures j == k
  {
  }

  lemma NextNodeMeaning(g: Graph, env: Environment, from: Text, bb: Blackboard)
    ensures match NextNode(g, env, from, bb)
      case Some(n) => GoesTo(g, env, from, bb, n)
      case None => GoesNowhere(g, env, from, bb)
  {
    FirstEnabledMeaning(env, g.edges, from, bb);
    match FirstEnabled(env, g.edges, from, bb)
    case None =>
      forall k: nat ensures !Follows(g, env, from, bb, k) {
        assert k < |g.edges| ==> !EnabledEdge(env, g.edges[k], from, bb);
      }
    case Some(edge) =>
      var k: nat :| IsFirstEnabled(env, g.edges, from, bb, k) && g.edges[k] == edge;
      NodeByIdMeaning(g.nodes, edge.to);
      forall j | 0 <= j < k && g.edges[j].from == from
        ensures g.edges[j].condition != [] && !env.holds(g.edges[j].condition, bb)
      {
        assert !EnabledEdge(env, g.edges[j], from, bb);
      }
      assert Follows(g, env, from, bb, k);
      forall j: nat | Follows(g, env, from, bb, j) ensures j == k {
        FollowedOnce(g, env, from, bb, j, k);
      }
  }

  // ----- the steps

  /** The blackboard after the first `n` steps. */
  ghost function BoardAfter(input: Blackboard, steps: seq<Step>, n: nat): Blackboard
    requires n <= |steps|
  {
    if n == 0 then input else steps[n - 1].input + steps[n - 1].output
  }

  /** The walk that has taken the first `n` steps goes on to node `node`. */
  ghost predicate GoesOn(g: Graph, env: Environment, input: Blackboard, steps: seq<Step>, n: nat, node: Node)
    requires n <= |steps|
  {
    if n == 0 then FirstListed(g.nodes, node)
    else
      && steps[n - 1].kind != OutputNode
      && GoesTo(g, env, steps[n - 1].nodeId, BoardAfter(input, steps, n), node)
  }

  lemma BoardsThreaded(g: Graph, env: Environment, input: Blackboard, steps: seq<Step>, n: nat)
    requires IsTrace(g, env, input, steps) && n <= |steps|
    ensures BoardAfter(input, steps, n) == Overridden(input, steps[..n])
  {
    if n > 0 {
      assert StepInWalk(g, env, input, steps, n - 1);
      assert steps[..n][..n - 1] == steps[..n - 1];
    }
  }

  lemma NextGoesOn(g: Graph, env: Environment, input: Blackboard, steps: seq<Step>, n: nat)
    requires IsTrace(g, env, input, steps) && n <= |steps|
    requires n > 0 ==> steps[n - 1].kind != OutputNode
    ensures match NextOf(g, env, input, steps[..n])
      case Some(node) => GoesOn(g, env, input, steps, n, node)
      case None =>
        if n == 0 then g.nodes == [] else GoesNowhere(g, env, steps[n - 1].nodeId, BoardAfter(input, steps, n))
  {
    BoardsThreaded(g, env, input, steps, n);
    if n == 0 {
      StartNodeMeaning(g);
    } else {
      NextNodeMeaning(g, env, steps[n - 1].nodeId, BoardAfter(input, steps, n));
    }
  }

  /** Step `i` of every run: the first executes the first listed input node, or the first node;
      each later one the last listed node that the first edge open after the step before names.
      Its input is the initial input, or what the step before left: its input overridden by its
      output. It was executed in time, within the number of steps, and gave the recorded
      output. */
  lemma WalkStep(g: Graph, env: Environment, limits: Limits, input: Blackboard, i: nat)
    requires i < |RunOf(g, env, limits, input).steps|
    ensures var steps := RunOf(g, env, limits, input).steps;
      var node := Node(steps[i].nodeId, steps[i].kind);
      && GoesOn(g, env, input, steps, i, node)
      && steps[i].input == BoardAfter(input, steps, i)
      && env.execute(node, steps[i].input, i).Done? && env.execute(node, steps[i].input, i).output == steps[i].output
      && !env.late(i) && i < limits.maxSteps
      && forall j :: 0 <= j < i ==> steps[j].nodeId != steps[i].nodeId
  {
    RunSound(g, env, limits, input);
    var steps := RunOf(g, env, limits, input).steps;
    assert StepInWalk(g, env, input, steps, i);
    BoardsThreaded(g, env, input, steps, i);
    NextGoesOn(g, env, input, steps, i);
    assert NextOf(g, env, input, steps[..i]).value == Node(steps[i].nodeId, steps[i].kind);
    forall j | 0 <= j < i ensures steps[j].nodeId != steps[i].nodeId {
      assert StepIds(steps)[j] != StepIds(steps)[i];
    }
  }

  /** Two consecutive steps of any run are joined by an edge that is open on the blackboard
      between them, and no edge listed before it is. */
  lemma StepsJoined(g: Graph, env: Environment, limits: Limits, input: Blackboard, i: nat) returns (k: nat)
    requires i + 1 < |RunOf(g, env, limits, input).steps|
    ensures var s, t := RunOf(g, env, limits, input).steps[i], RunOf(g, env, limits, input).steps[i + 1];
      && k < |g.edges| && g.edges[k].from == s.nodeId && g.edges[k].to == t.nodeId
      && (g.edges[k].condition == [] || env.holds(g.edges[k].condition, s.input + s.output))
      && (forall j :: 0 <= j < k && g.edges[j].from == s.nodeId ==>
            g.edges[j].condition != [] && !env.holds(g.edges[j].condition, s.input + s.output))
      && t.input == s.input + s.output && s.kind != OutputNode
  {
    WalkStep(g, env, limits, input, i + 1);
    var steps := RunOf(g, env, limits, input).steps;
    var node := Node(steps[i + 1].nodeId, steps[i + 1].kind);
    k :| Follows(g, env, steps[i].nodeId, BoardAfter(input, steps, i + 1), k)
      && LastListed(g.nodes, g.edges[k].to, node);
  }

  // ----- budgets

  ghost function FunctionPositions(steps: seq<Step>): set<int> {
    set i | 0 <= i < |steps| && steps[i].kind == FunctionNode
  }

  lemma {:induction false} FunctionStepsCount(steps: seq<Step>)
    ensures FunctionSteps(steps) == |FunctionPositions(steps)|
  {
    if steps == [] {
      assert FunctionPositions(steps) == {};
    } else {
      var n := |steps| - 1;
      FunctionStepsCount(steps[..n]);
      GrowsByOne(FunctionPositions(steps[..n]), FunctionPositions(steps), n, steps[n].kind == FunctionNode);
    }
  }

  /** What executing the node of step `i` cost. */
  ghost function CostAt(env: Environment, steps: seq<Step>, i: nat): real
    requires i < |steps|
  {
    var result := env.execute(Node(steps[i].nodeId, steps[i].kind), steps[i].input, i);
    if result.Done? then result.costUsd else 0.0
  }

  /** `sums[i]` is what the first `i` steps cost together. */
  ghost predicate SumsUp(env: Environment, steps: seq<Step>, sums: seq<real>) {
    && |sums| == |steps| + 1 && sums[0] == 0.0
    && forall i: nat {:trigger CostAt(env, steps, i)} :: i < |steps| ==> sums[i + 1] == sums[i] + CostAt(env, steps, i)
  }

  lemma CostsSumUp(env: Environment, steps: seq<Step>) returns (sums: seq<real>)
    ensures SumsUp(env, steps, sums) && forall i :: 0 <= i <= |steps| ==> sums[i] == TotalCost(env, steps[..i])
  {
    sums := seq(|steps| + 1, i requires 0 <= i < |steps| + 1 => TotalCost(env, steps[..i]));
    forall i: nat | i < |steps| ensures sums[i + 1] == sums[i] + CostAt(env, steps, i) {
      assert steps[..i + 1][..i] == steps[..i];
    }
  }

  /** The budgets in every run: at most `maxSteps` steps and `maxFunctionCalls` function steps,
      and what the steps cost together is over `maxCostUsd` only after the last step, and then
      exactly when that is the failure reported. */
  lemma WalkBudgets(g: Graph, env: Environment, limits: Limits, input: Blackboard) returns (sums: seq<real>)
    ensures var run := RunOf(g, env, limits, input);
      && SumsUp(env, run.steps, sums)
      && (forall i :: 0 < i < |run.steps| ==> sums[i] <= limits.maxCostUsd)
      && (run.steps != [] ==>
            && |run.steps| <= limits.maxSteps
            && (sums[|run.steps|] > limits.maxCostUsd <==> run.Failed? && run.error == CostBudget))
      && (FunctionPositions(run.steps) != {} ==> |FunctionPositions(run.steps)| <= limits.maxFunctionCalls)
  {
    RunSound(g, env, limits, input);
    var steps := RunOf(g, env, limits, input).steps;
    sums := CostsSumUp(env, steps);
    assert steps[..|steps|] == steps;
    FunctionStepsCount(steps);
  }

  // ----- how it ends

  /** A completed run gives the blackboard after its last step, and stops at an output node or
      where the walk goes nowhere; without any step only if the graph has no node. */
  lemma WalkCompletes(g: Graph, env: Environment, limits: Limits, input: Blackboard)
    requires RunOf(g, env, limits, input).Completed?
    ensures var run := RunOf(g, env, limits, input); var n := |run.steps|;
      && run.output == BoardAfter(input, run.steps, n)
      && (if n == 0 then g.nodes == []
          else run.steps[n - 1].kind == OutputNode || GoesNowhere(g, env, run.steps[n - 1].nodeId, run.output))
  {
    RunSound(g, env, limits, input);
    var run := RunOf(g, env, limits, input);
    var steps, n := run.steps, |run.steps|;
    assert steps[..n] == steps;
    BoardsThreaded(g, env, input, steps, n);
    if n > 0 && steps[n - 1].kind != OutputNode {
      NextGoesOn(g, env, input, steps, n);
    }
  }

  /** A run that fails, but not for its cost, stops before the node the walk goes on to, for
      the first reason there is: that node has been executed already, the steps are used up,
      the time is over, the node is a function and the calls are used up, or executing it
      failed. */
  lemma WalkFails(g: Graph, env: Environment, limits: Limits, input: Blackboard) returns (node: Node)
    requires RunOf(g, env, limits, input).Failed? && RunOf(g, env, limits, input).error != CostBudget
    ensures var run := RunOf(g, env, limits, input); var n := |run.steps|;
      && GoesOn(g, env, input, run.steps, n, node)
      && (if exists i :: 0 <= i < n && run.steps[i].nodeId == node.id then run.error == CycleDetected(node.id)
          else if n >= limits.maxSteps then run.error == StepBudget
          else if env.late(n) then run.error == TimeBudget
          else if node.kind == FunctionNode && |FunctionPositions(run.steps)| >= limits.maxFunctionCalls then
            run.error == CallBudget
          else run.error == NodeFailed(node.id) && env.execute(node, BoardAfter(input, run.steps, n), n).Threw?)
  {
    RunSound(g, env, limits, input);
    var run := RunOf(g, env, limits, input);
    var steps, n := run.steps, |run.steps|;
    assert steps[..n] == steps;
    BoardsThreaded(g, env, input, steps, n);
    NextGoesOn(g, env, input, steps, n);
    FunctionStepsCount(steps);
    node := NextOf(g, env, input, steps).value;
    IdsOfSteps(steps, node.id);
  }

  lemma IdsOfSteps(steps: seq<Step>, id: Text)
    ensures id in StepIds(steps) <==> exists i :: 0 <= i < |steps| && steps[i].nodeId == id
  {
    if i :| 0 <= i < |steps| && steps[i].nodeId == id {
      assert StepIds(steps)[i] == id;
    }
  }
}
