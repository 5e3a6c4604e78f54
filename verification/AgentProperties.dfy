/** What every agent run guarantees, and how its budgets matter. */
module AgentProperties {
  import opened Wrappers
  import opened Sorting
  import opened JoinedText
  import opened AgentRunner

  /** The initial input overridden by the outputs of `steps`, in order. */
  ghost function Overridden(input: Blackboard, steps: seq<Step>): Blackboard {
    if steps == [] then input
    else Overridden(input, steps[..|steps| - 1]) + steps[|steps| - 1].output
  }

  ghost function FunctionSteps(steps: seq<Step>): nat {
    if steps == [] then 0
    else FunctionSteps(steps[..|steps| - 1]) + if steps[|steps| - 1].kind == FunctionNode then 1 else 0
  }

  /** What executing the node of step `i` came to. */
  ghost function ResultOf(env: Environment, step: Step, i: nat): NodeResult {
    env.execute(Node(step.nodeId, step.kind), step.input, i)
  }

  ghost function TotalCost(env: Environment, steps: seq<Step>): real {
    if steps == [] then 0.0
    else
      var n := |steps| - 1;
      var result := ResultOf(env, steps[n], n);
      TotalCost(env, steps[..n]) + if result.Done? then result.costUsd else 0.0
  }

  /** The node a walk that has taken `steps` would execute next. */
  ghost function NextOf(g: Graph, env: Environment, input: Blackboard, steps: seq<Step>): Option<Node> {
    if steps == [] then StartNode(g)
    else NextNode(g, env, steps[|steps| - 1].nodeId, Overridden(input, steps))
  }

  ghost function StepIds(steps: seq<Step>): seq<Text> {
    seq(|steps|, i requires 0 <= i < |steps| => steps[i].nodeId)
  }

  ghost predicate IsStep(s: Step, n: Node) {
    s.nodeId == n.id && s.kind == n.kind
  }

  /** Step `i` executed the node the walk leads to, on the blackboard as threaded so far,
      and records the output that gave. */
  ghost predicate StepInWalk(g: Graph, env: Environment, input: Blackboard, steps: seq<Step>, i: nat) {
    && i < |steps| && steps[i].input == Overridden(input, steps[..i])
    && NextOf(g, env, input, steps[..i]).Some? && IsStep(steps[i], NextOf(g, env, input, steps[..i]).value)
    && ResultOf(env, steps[i], i).Done? && ResultOf(env, steps[i], i).output == steps[i].output
    && !env.late(i) && (i > 0 ==> steps[i - 1].kind != OutputNode)
  }

  /** A trace of the walk from the start node: no node twice, every step the first enabled
      edge's target, every input the threaded blackboard. */
  ghost predicate IsTrace(g: Graph, env: Environment, input: Blackboard, steps: seq<Step>) {
    && NoRepeats(StepIds(steps))
    && forall i: nat :: i < |steps| ==> StepInWalk(g, env, input, steps, i)
  }

  /** The walk's counters, guard and blackboard are those of the steps it has recorded. */
  ghost predicate Traced(g: Graph, env: Environment, limits: Limits, input: Blackboard, w: Walk) {
    && IsTrace(g, env, input, w.steps)
    && w.guard == Elements(StepIds(w.steps)) <= Ids(g.nodes)
    && w.blackboard == Overridden(input, w.steps)
    && w.functionCalls == FunctionSteps(w.steps)
    && w.costUsd == TotalCost(env, w.steps)
    && WithinBudgets(env, limits, w.steps)
  }

  /** What the loop keeps. */
  ghost predicate Threaded(g: Graph, env: Environment, limits: Limits, input: Blackboard, w: Walk) {
    && InGraph(g, w) && Traced(g, env, limits, input, w)
    && (w.steps != [] ==> w.costUsd <= limits.maxCostUsd && w.steps[|w.steps| - 1].kind != OutputNode)
    && w.current == NextOf(g, env, input, w.steps)
  }

  lemma TraceExtends(g: Graph, env: Environment, input: Blackboard, steps: seq<Step>, s: Step)
    requires IsTrace(g, env, input, steps) && s.nodeId !in StepIds(steps)
    requires StepInWalk(g, env, input, steps + [s], |steps|)
    ensures IsTrace(g, env, input, steps + [s])
  {
    var t := steps + [s];
    assert StepIds(t) == StepIds(steps) + [s.nodeId];
    forall i: nat | i < |t| ensures StepInWalk(g, env, input, t, i) {
      if i < |steps| {
        assert StepInWalk(g, env, input, steps, i);
        assert t[..i] == steps[..i];
      }
    }
  }

  /** What one more step adds to everything that is told from the steps. */
  lemma OneMoreStep(env: Environment, input: Blackboard, steps: seq<Step>, s: Step)
    ensures StepIds(steps + [s]) == StepIds(steps) + [s.nodeId]
    ensures Elements(StepIds(steps + [s])) == Elements(StepIds(steps)) + {s.nodeId}
    ensures Overridden(input, steps + [s]) == Overridden(input, steps) + s.output
    ensures FunctionSteps(steps + [s]) == FunctionSteps(steps) + if s.kind == FunctionNode then 1 else 0
    ensures ResultOf(env, s, |steps|).Done? ==>
      TotalCost(env, steps + [s]) == TotalCost(env, steps) + ResultOf(env, s, |steps|).costUsd
  {
    var t := steps + [s];
    assert t[..|t| - 1] == steps && t[|t| - 1] == s;
    assert StepIds(t) == StepIds(steps) + [s.nodeId];
  }

  lemma ExecutedStep(g: Graph, env: Environment, limits: Limits, input: Blackboard, w: Walk) returns (s: Step)
    requires Threaded(g, env, limits, input, w) && w.current.Some? && Refusal(env, limits, w) == None
    ensures var w1, result := Executed(env, w), ResultOf(env, s, |w.steps|);
      && w1.steps == w.steps + [s] && IsStep(s, w.current.value)
      && result.Done? && s.output == result.output && s.input == Overridden(input, w.steps)
      && w1.blackboard == w.blackboard + result.output && w1.costUsd == w.costUsd + result.costUsd
      && w1.functionCalls == w.functionCalls + (if s.kind == FunctionNode then 1 else 0)
      && w1.guard == w.guard + {s.nodeId}
      && s.nodeId !in w.guard && s.nodeId in Ids(g.nodes)
  {
    s := Executed(env, w).steps[|w.steps|];
    assert w.current.value == Node(s.nodeId, s.kind);
  }

  lemma ExecutedTrace(g: Graph, env: Environment, limits: Limits, input: Blackboard, w: Walk)
    requires Threaded(g, env, limits, input, w) && w.current.Some? && Refusal(env, limits, w) == None
    ensures Traced(g, env, limits, input, Executed(env, w))
    ensures var steps := Executed(env, w).steps; steps != [] && steps[|steps| - 1].kind == w.current.value.kind
  {
    var s := ExecutedStep(g, env, limits, input, w);
    OneMoreStep(env, input, w.steps, s);
    assert forall i :: 0 < i < |w.steps| ==> (w.steps + [s])[..i] == w.steps[..i];
    assert (w.steps + [s])[..|w.steps|] == w.steps;
    assert s.nodeId in StepIds(w.steps) <==> s.nodeId in Elements(StepIds(w.steps));
    TraceExtends(g, env, input, w.steps, s);
  }

  /** What a finished run guarantees. */
  ghost predicate Sound(g: Graph, env: Environment, limits: Limits, input: Blackboard, run: AgentRun) {
    && IsTrace(g, env, input, run.steps)
    && Elements(StepIds(run.steps)) <= Ids(g.nodes)
    && WithinBudgets(env, limits, run.steps)
    && match run
       case Completed(steps, output) =>
         && output == Overridden(input, steps) && EndsHere(g, env, steps, output)
         && (steps != [] ==> TotalCost(env, steps) <= limits.maxCostUsd)
       case Failed(steps, error) => FailsHere(g, env, limits, input, steps, error)
  }

  /** A failed walk stops for the reason it gives, and for the first there is: after the step
      that overran the cost budget; or else before a node, because it has been executed
      already, the steps, the time or the calls are used up, or its execution failed. */
  ghost predicate FailsHere(g: Graph, env: Environment, limits: Limits, input: Blackboard, steps: seq<Step>, error: Failure) {
    if error == CostBudget then steps != [] && TotalCost(env, steps) > limits.maxCostUsd
    else
      && (steps != [] ==> TotalCost(env, steps) <= limits.maxCostUsd && steps[|steps| - 1].kind != OutputNode)
      && NextOf(g, env, input, steps).Some?
      && FailsBefore(env, limits, steps, Overridden(input, steps), NextOf(g, env, input, steps).value, error)
  }

  /** What stops a walk before it executes `node` on the blackboard `bb`. */
  ghost predicate FailsBefore(env: Environment, limits: Limits, steps: seq<Step>, bb: Blackboard, node: Node, error: Failure) {
    var tooManyCalls := node.kind == FunctionNode && FunctionSteps(steps) >= limits.maxFunctionCalls;
    if node.id in StepIds(steps) then error == CycleDetected(node.id)
    else if |steps| >= limits.maxSteps then error == StepBudget
    else if env.late(|steps|) then error == TimeBudget
    else if tooManyCalls then error == CallBudget
    else error == NodeFailed(node.id) && env.execute(node, bb, |steps|).Threw?
  }

  /** A completed walk stops at an output node, or where no enabled edge leads to a node. */
  ghost predicate EndsHere(g: Graph, env: Environment, steps: seq<Step>, output: Blackboard) {
    if steps == [] then g.nodes == []
    else
      var last := steps[|steps| - 1];
      last.kind == OutputNode || NextNode(g, env, last.nodeId, output) == None
  }

  /** What the budgets let through. */
  ghost predicate WithinBudgets(env: Environment, limits: Limits, steps: seq<Step>) {
    && (steps != [] ==> |steps| <= limits.maxSteps)
    && (FunctionSteps(steps) > 0 ==> FunctionSteps(steps) <= limits.maxFunctionCalls)
    && forall i :: 0 < i < |steps| ==> TotalCost(env, steps[..i]) <= limits.maxCostUsd
  }

  lemma MovedThreaded(g: Graph, env: Environment, limits: Limits, input: Blackboard, w: Walk)
    requires Threaded(g, env, limits, input, w) && w.current.Some? && Refusal(env, limits, w) == None
    requires Executed(env, w).costUsd <= limits.maxCostUsd && w.current.value.kind != OutputNode
    ensures Threaded(g, env, limits, input, Moved(g, env, Executed(env, w)))
  {
    ExecutedTrace(g, env, limits, input, w);
  }

  /** Stopping right after a step is sound when it overran the cost budget or was an output. */
  lemma StopSound(g: Graph, env: Environment, limits: Limits, input: Blackboard, w: Walk)
    requires Traced(g, env, limits, input, w) && w.steps != []
    ensures w.costUsd > limits.maxCostUsd ==> Sound(g, env, limits, input, Failed(w.steps, CostBudget))
    ensures w.costUsd <= limits.maxCostUsd && w.steps[|w.steps| - 1].kind == OutputNode ==>
      Sound(g, env, limits, input, Completed(w.steps, w.blackboard))
  {
  }

  /** The walk goes on after the current node. */
  ghost predicate Continues(env: Environment, limits: Limits, w: Walk) {
    && w.current.Some? && Refusal(env, limits, w) == None
    && Executed(env, w).costUsd <= limits.maxCostUsd && w.current.value.kind != OutputNode
  }

  lemma StopsSound(g: Graph, env: Environment, limits: Limits, input: Blackboard, w: Walk)
    requires Threaded(g, env, limits, input, w) && !Continues(env, limits, w)
    ensures Sound(g, env, limits, input, RunFrom(g, env, limits, w))
  {
    if w.current.None? {
      NowhereSound(g, env, limits, input, w);
    } else if Refusal(env, limits, w) == None {
      LastStepSound(g, env, limits, input, w);
    } else {
      RefusedSound(g, env, limits, input, w);
    }
  }

  /** Completing where no node comes next is sound. */
  lemma NowhereSound(g: Graph, env: Environment, limits: Limits, input: Blackboard, w: Walk)
    requires Threaded(g, env, limits, input, w) && w.current.None?
    ensures Sound(g, env, limits, input, Completed(w.steps, w.blackboard))
  {
  }

  lemma LastStepSound(g: Graph, env: Environment, limits: Limits, input: Blackboard, w: Walk)
    requires Threaded(g, env, limits, input, w) && w.current.Some? && Refusal(env, limits, w) == None
    ensures var w1 := Executed(env, w);
      && (w1.costUsd > limits.maxCostUsd ==> Sound(g, env, limits, input, Failed(w1.steps, CostBudget)))
      && (w1.costUsd <= limits.maxCostUsd && w.current.value.kind == OutputNode ==>
            Sound(g, env, limits, input, Completed(w1.steps, w1.blackboard)))
  {
    ExecutedTrace(g, env, limits, input, w);
    StopSound(g, env, limits, input, Executed(env, w));
  }

  /** Stopping before a node is sound when that is refused. */
  lemma RefusedSound(g: Graph, env: Environment, limits: Limits, input: Blackboard, w: Walk)
    requires Threaded(g, env, limits, input, w) && w.current.Some? && Refusal(env, limits, w).Some?
    ensures Sound(g, env, limits, input, Failed(w.steps, Refusal(env, limits, w).value))
  {
    assert w.current.value.id in StepIds(w.steps) <==> w.current.value.id in w.guard;
    assert FailsBefore(env, limits, w.steps, w.blackboard, w.current.value, Refusal(env, limits, w).value);
  }

  lemma {:induction false} RunFromSound(g: Graph, env: Environment, limits: Limits, input: Blackboard, w: Walk)
    requires Threaded(g, env, limits, input, w)
    ensures Sound(g, env, limits, input, RunFrom(g, env, limits, w))
    decreases |Ids(g.nodes) - w.guard|
  {
    if Continues(env, limits, w) {
      RunContinues(g, env, limits, w);
      MovedThreaded(g, env, limits, input, w);
      RunFromSound(g, env, limits, input, Moved(g, env, Executed(env, w)));
    } else {
      StopsSound(g, env, limits, input, w);
    }
  }

  /** Every run, on every graph: no node is executed twice; steps and function calls stay
      within their budgets and the number of nodes; each step is the target of the first
      enabled edge of the one before; each recorded input, and a completed run's output, is
      the initial input overridden by the earlier outputs in order; a completed run stops
      for one of the two right reasons within its cost budget, and a failed one for the
      reason it gives. */
  lemma RunSound(g: Graph, env: Environment, limits: Limits, input: Blackboard)
    ensures Sound(g, env, limits, input, RunOf(g, env, limits, input))
    ensures |RunOf(g, env, limits, input).steps| <= |Ids(g.nodes)|
  {
    StartInGraph(g);
    var w := StartWalk(g, input);
    assert StepIds(w.steps) == [];
    RunFromSound(g, env, limits, input, w);
    var ids := StepIds(RunOf(g, env, limits, input).steps);
    DistinctCount(ids);
    SubsetSmaller(Elements(ids), Ids(g.nodes));
  }

  lemma {:induction false} DistinctCount(s: seq<Text>)
    requires NoRepeats(s)
    ensures |Elements(s)| == |s|
  {
    if s != [] {
      DistinctCount(s[1..]);
      assert s == [s[0]] + s[1..] && s[0] !in s[1..];
      assert Elements(s) == Elements(s[1..]) + {s[0]};
    }
  }

  // ----- budgets

  ghost predicate WithinLimits(a: Limits, b: Limits) {
    a.maxSteps <= b.maxSteps && a.maxFunctionCalls <= b.maxFunctionCalls && a.maxCostUsd <= b.maxCostUsd
  }

  ghost predicate BudgetFailure(run: AgentRun) {
    run.Failed? && run.error in {StepBudget, CallBudget, CostBudget}
  }

  lemma {:induction false} RunExtends(g: Graph, env: Environment, limits: Limits, w: Walk)
    requires InGraph(g, w)
    ensures w.steps <= RunFrom(g, env, limits, w).steps
    decreases |Ids(g.nodes) - w.guard|
  {
    if w.current.Some? && Refusal(env, limits, w) == None {
      var w1 := Executed(env, w);
      if w1.costUsd <= limits.maxCostUsd && w.current.value.kind != OutputNode {
        Advances(g, env, limits, w);
        RunExtends(g, env, limits, Moved(g, env, w1));
      }
    }
  }

  /** Raising the budgets never changes what a run did within the lower ones: a run that no
      budget stopped is the same run, and a run that a budget stopped is a prefix. */
  lemma {:induction false} BudgetsOnlyCut(g: Graph, env: Environment, a: Limits, b: Limits, w: Walk)
    requires InGraph(g, w) && WithinLimits(a, b)
    ensures !BudgetFailure(RunFrom(g, env, a, w)) ==> RunFrom(g, env, b, w) == RunFrom(g, env, a, w)
    ensures RunFrom(g, env, a, w).steps <= RunFrom(g, env, b, w).steps
    decreases |Ids(g.nodes) - w.guard|
  {
    if w.current.Some? {
      RunExtends(g, env, b, w);
      if Refusal(env, a, w) == None {
        var w1 := Executed(env, w);
        Advances(g, env, a, w);
        if w1.costUsd > a.maxCostUsd {
          RunExtends(g, env, b, Moved(g, env, w1));
        } else if w.current.value.kind != OutputNode {
          BudgetsOnlyCut(g, env, a, b, Moved(g, env, w1));
        }
      }
    }
  }
}
