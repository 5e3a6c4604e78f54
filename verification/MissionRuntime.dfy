/** The mission execution runtime: governance, planning, the layer loop with approval
    gates, retries and cancellation, and the final report. Each step is proved against
    the closed form of the run. */
module MissionRuntime {
  import opened Sorting
  import opened MissionTypes
  import opened RetryManager
  import opened ExecutionPlanner
  import opened PlanProperties
  import opened DagMeaning
  import opened MissionRun
  import opened MissionReport

  /** What a caller and its environment decide: granted approvals, the answer to the n-th
      cancellation poll, the registered executor keys, whether attempt `a` at task `x`
      succeeds, and the locale's comparator. */
  datatype Options = Options(
    approvals: set<Id>,
    cancelled: nat -> bool,
    registered: set<Id>,
    succeeds: (Id, nat) -> bool,
    collate: (Id, Id) -> bool)

  /** Governance decides, or fails with an error that is not a decision. */
  datatype Governance = Decided(blocked: bool) | Raised

  datatype ExecutionResult = Returned(report: Report) | Threw

  // ----- the run a mission and its options stand for

  /** Running task `x` once: a missing executor fails without an attempt. */
  function Dispatch(o: Options, t: TaskDefinition): AttemptOutcome {
    if t.executor !in o.registered then AttemptOutcome(false, 0)
    else RetryOutcome(o.succeeds, t.id, EffectiveAttempts(t.retry))
  }

  predicate NeedsApproval(o: Options, t: TaskDefinition) {
    t.requiresApproval && t.id !in o.approvals
  }

  ghost function RunOf(m: MissionDefinition, o: Options, plan: ExecutionPlan): Run {
    var table := TaskTable(m.tasks);
    var ok := set x | x in table && Dispatch(o, table[x]).ok;
    Run(GraphOf(m), plan.layers, ok,
        (map x | x in table :: Dispatch(o, table[x]).attempts),
        (map x | x in GraphOf(m) :: Meaning(GraphOf(m), ok, x)),
        (set x | x in table && NeedsApproval(o, table[x])),
        o.cancelled, o.collate)
  }

  // ----- classification of one task

  /** The state a task takes when its layer is reached, before it is dispatched. */
  function Decide(dependsOn: seq<Id>, progress: map<Id, Progress>, needsApproval: bool): TaskState
    requires forall d :: d in dependsOn ==> d in progress
  {
    if exists d :: d in dependsOn && progress[d].state in {Failed, Skipped, Cancelled} then Skipped
    else if exists d :: d in dependsOn && progress[d].state in {Waiting, Pending} then Pending
    else if needsApproval then Waiting
    else Ready
  }

  /** Task progress on entering layer `n` of a run that has not paused. */
  ghost predicate AtLayer(r: Run, n: nat, progress: map<Id, Progress>) {
    && ValidRun(r) && n <= |r.layers|
    && (forall k :: 0 <= k < n ==> Held(r, r.layers[k]) == [])
    && progress.Keys == r.g.Keys
    && forall x :: x in progress ==> progress[x] == ProgressAt(r, n, x)
  }

  lemma {:induction false} HeldMembers(r: Run, s: seq<Id>, x: Id)
    ensures x in Held(r, s) <==> x in s && SettledState(r, x) == Waiting
  {
    if s != [] {
      HeldMembers(r, s[..|s| - 1], x);
      assert s == s[..|s| - 1] + [s[|s| - 1]];
    }
  }

  lemma {:induction false} RunnableMembers(r: Run, s: seq<Id>)
    ensures forall x :: x in Runnable(r, s) <==> x in s && SettledState(r, x) in {Completed, Failed}
    ensures NoRepeats(s) ==> NoRepeats(Runnable(r, s))
  {
    if s != [] {
      RunnableMembers(r, s[..|s| - 1]);
      assert s == s[..|s| - 1] + [s[|s| - 1]];
    }
  }

  /** The loop-head invariant: every task of an earlier layer is completed, failed or
      skipped as its meaning says, and every other task is pending. */
  lemma EarlierTasksSettled(r: Run, n: nat, progress: map<Id, Progress>, d: Id)
    requires AtLayer(r, n, progress) && d in r.g
    ensures d in Placed(r.layers, n) ==> progress[d].state == r.meaning[d] && Terminal(progress[d].state)
    ensures d !in Placed(r.layers, n) ==> progress[d] == Progress(Pending, 0)
  {
    if d in Placed(r.layers, n) {
      PlacedMembers(r.layers, n, d);
      var k :| 0 <= k < n && d in r.layers[k];
      HeldMembers(r, r.layers[k], d);
      assert MeaningHolds(r, d);
    }
  }

  /** What classification must answer for a task of the current layer. */
  ghost function Target(r: Run, x: Id): TaskState {
    if SettledState(r, x) in {Completed, Failed} then Ready else SettledState(r, x)
  }

  lemma DependenciesSettled(r: Run, n: nat, progress: map<Id, Progress>, x: Id)
    requires AtLayer(r, n, progress) && n < |r.layers| && x in r.layers[n]
    ensures x in r.g
    ensures forall d :: d in r.g[x] ==>
      d in r.g && d in Placed(r.layers, n) && progress[d].state == r.meaning[d] && Terminal(progress[d].state)
  {
    assert StageAt(r.g, r.layers, n);
    forall d | d in r.g[x]
      ensures d in r.g && d in Placed(r.layers, n)
      ensures progress[d].state == r.meaning[d] && Terminal(progress[d].state)
    {
      EarlierTasksSettled(r, n, progress, d);
    }
  }

  /** The branch for a dependency that is still waiting or pending is never taken. */
  lemma DecideMeaning(r: Run, n: nat, before: map<Id, Progress>, progress: map<Id, Progress>, x: Id, dependsOn: seq<Id>)
    requires AtLayer(r, n, before) && n < |r.layers| && x in r.layers[n]
    requires x in r.g && Elements(dependsOn) == r.g[x]
    requires progress.Keys == r.g.Keys && forall d :: d in r.g && d in Placed(r.layers, n) ==> progress[d] == before[d]
    ensures forall d :: d in dependsOn ==> d in progress
    ensures Decide(dependsOn, progress, x in r.gated) == Target(r, x) != Pending
  {
    DependenciesSettled(r, n, before, x);
    assert MeaningHolds(r, x);
  }

  // ----- one layer

  /** `r` is what the tasks of `table` under options `o` stand for. */
  ghost predicate Describes(r: Run, table: map<Id, TaskDefinition>, o: Options) {
    && r.g.Keys == table.Keys
    && (forall x :: x in table ==>
          && table[x].id == x
          && r.g[x] == Elements(table[x].dependsOn)
          && (x in r.gated <==> NeedsApproval(o, table[x]))
          && (x in r.ok <==> Dispatch(o, table[x]).ok)
          && x in r.attempts && r.attempts[x] == Dispatch(o, table[x]).attempts)
    && r.cancelled == o.cancelled && r.collate == o.collate
  }

  /** `progress` is `before` with the tasks of `s` in their classified state. */
  ghost predicate Classified(r: Run, before: map<Id, Progress>, s: seq<Id>, progress: map<Id, Progress>) {
    && progress.Keys == before.Keys
    && forall x :: x in progress ==> progress[x] == if x in s then Progress(Target(r, x), 0) else before[x]
  }

  /** Classifies the `j`-th task of the current layer. */
  method ClassifyTask(table: map<Id, TaskDefinition>, o: Options, x: Id, progress: map<Id, Progress>,
                      ghost r: Run, ghost n: nat, ghost before: map<Id, Progress>, ghost j: nat)
      returns (state: TaskState)
    requires Describes(r, table, o) && AtLayer(r, n, before) && n < |r.layers| && j < |r.layers[n]|
    requires x == r.layers[n][j] && Classified(r, before, r.layers[n][..j], progress)
    ensures x in r.g && MeaningHolds(r, x) && state == Target(r, x) != Pending
  {
    assert StageAt(r.g, r.layers, n);
    assert x in r.layers[n];
    DecideMeaning(r, n, before, progress, x, table[x].dependsOn);
    state := Decide(table[x].dependsOn, progress, NeedsApproval(o, table[x]));
  }

  /** What classifying the first `j` tasks of the layer has computed. */
  ghost predicate ClassifiedUpTo(r: Run, before: map<Id, Progress>, layer: seq<Id>, j: nat,
                                 progress: map<Id, Progress>, toRun: seq<Id>, held: seq<Id>) {
    && j <= |layer| && Classified(r, before, layer[..j], progress)
    && toRun == Runnable(r, layer[..j]) && held == Held(r, layer[..j])
  }

  lemma ClassifiedStep(r: Run, before: map<Id, Progress>, layer: seq<Id>, j: nat,
                       progress: map<Id, Progress>, toRun: seq<Id>, held: seq<Id>)
    requires j < |layer| && MeaningHolds(r, layer[j]) && layer[j] in before
    requires ClassifiedUpTo(r, before, layer, j, progress, toRun, held)
    ensures ClassifiedUpTo(r, before, layer, j + 1, progress[layer[j] := Progress(Target(r, layer[j]), 0)],
                           if Target(r, layer[j]) == Ready then toRun + [layer[j]] else toRun,
                           if Target(r, layer[j]) == Waiting then held + [layer[j]] else held)
  {
    assert layer[..j + 1][..j] == layer[..j] && layer[..j + 1] == layer[..j] + [layer[j]];
  }

  method ClassifyLayer(table: map<Id, TaskDefinition>, o: Options, ghost r: Run, ghost n: nat, layer: seq<Id>,
                       before: map<Id, Progress>, pendingBefore: seq<Id>)
      returns (progress: map<Id, Progress>, toRun: seq<Id>, pendingApprovals: seq<Id>)
    requires Describes(r, table, o) && AtLayer(r, n, before) && n < |r.layers| && layer == r.layers[n]
    ensures Classified(r, before, layer, progress)
    ensures toRun == Runnable(r, layer) && pendingApprovals == pendingBefore + Held(r, layer)
  {
    progress, toRun, pendingApprovals := before, [], pendingBefore;
    ghost var held: seq<Id> := [];
    for j := 0 to |layer|
      invariant ClassifiedUpTo(r, before, layer, j, progress, toRun, held)
      invariant pendingApprovals == pendingBefore + held
    {
      var x := layer[j];
      var state := ClassifyTask(table, o, x, progress, r, n, before, j);
      ClassifiedStep(r, before, layer, j, progress, toRun, held);
      progress := progress[x := Progress(state, 0)];
      if state == Waiting {
        ConcatAssociative(pendingBefore, held, [x]);
        pendingApprovals, held := pendingApprovals + [x], held + [x];
      } else if state == Ready {
        toRun := toRun + [x];
      }
    }
    assert layer[..|layer|] == layer;
  }

  method StartTasks(toRun: seq<Id>, before: map<Id, Progress>, published: seq<Event>)
      returns (progress: map<Id, Progress>, events: seq<Event>)
    requires forall x :: x in toRun ==> x in before
    ensures progress.Keys == before.Keys
    ensures forall x :: x in progress ==>
      progress[x] == if x in toRun then before[x].(state := Running) else before[x]
    ensures events == published + Started(toRun)
  {
    progress, events := before, published;
    for j := 0 to |toRun|
      invariant progress.Keys == before.Keys
      invariant forall x :: x in progress ==>
        progress[x] == if x in toRun[..j] then before[x].(state := Running) else before[x]
      invariant events == published + Started(toRun[..j])
    {
      assert toRun[..j + 1] == toRun[..j] + [toRun[j]];
      assert toRun[j] in toRun;
      progress := progress[toRun[j] := progress[toRun[j]].(state := Running)];
      events := events + [TaskStarted(toRun[j])];
    }
    assert toRun[..|toRun|] == toRun;
  }

  /** Dispatches every started task to its executor, retrying within its policy. */
  method DispatchTasks(table: map<Id, TaskDefinition>, o: Options, toRun: seq<Id>)
      returns (outcomes: map<Id, AttemptOutcome>)
    requires forall x :: x in toRun ==> x in table
    ensures forall x :: x in toRun ==> x in outcomes && outcomes[x] == Dispatch(o, table[x])
  {
    outcomes := map[];
    for j := 0 to |toRun|
      invariant forall x :: x in toRun[..j] ==> x in outcomes && outcomes[x] == Dispatch(o, table[x])
    {
      var x := toRun[j];
      assert x in toRun && toRun[..j + 1] == toRun[..j] + [x];
      var t := table[x];
      var outcome := AttemptOutcome(false, 0);
      if t.executor in o.registered {
        var failures;
        outcome, failures := RunWithRetry(o.succeeds, t.id, EffectiveAttempts(t.retry));
      }
      outcomes := outcomes[x := outcome];
    }
    assert toRun[..|toRun|] == toRun;
  }

  /** Applies the outcomes in the order the locale sorts the task ids. */
  method ApplyOutcomes(ghost r: Run, ids: seq<Id>, outcomes: map<Id, AttemptOutcome>,
                       before: map<Id, Progress>, published: seq<Event>)
      returns (progress: map<Id, Progress>, events: seq<Event>)
    requires forall x :: x in ids ==> x in before && x in outcomes
    requires forall x :: x in ids ==>
      SettledProgress(r, x) == Progress(if outcomes[x].ok then Completed else Failed, outcomes[x].attempts)
    ensures progress.Keys == before.Keys
    ensures forall x :: x in progress ==> progress[x] == if x in ids then SettledProgress(r, x) else before[x]
    ensures events == published + Ended(r, ids)
  {
    progress, events := before, published;
    for j := 0 to |ids|
      invariant progress.Keys == before.Keys
      invariant forall x :: x in progress ==> progress[x] == if x in ids[..j] then SettledProgress(r, x) else before[x]
      invariant events == published + Ended(r, ids[..j])
    {
      var x := ids[j];
      assert x in ids && ids[..j + 1] == ids[..j] + [x];
      if outcomes[x].ok {
        progress := progress[x := Progress(Completed, outcomes[x].attempts)];
        events := events + [TaskCompleted(x)];
      } else {
        progress := progress[x := Progress(Failed, outcomes[x].attempts)];
        events := events + [TaskFailed(x)];
      }
    }
    assert ids[..|ids|] == ids;
  }

  /** A dispatched task settles as its dispatch comes out. */
  lemma RunnableOutcome(r: Run, table: map<Id, TaskDefinition>, o: Options, x: Id)
    requires Describes(r, table, o) && ValidRun(r) && x in r.g && SettledState(r, x) in {Completed, Failed}
    ensures SettledProgress(r, x)
      == Progress(if Dispatch(o, table[x]).ok then Completed else Failed, Dispatch(o, table[x]).attempts)
  {
    assert MeaningHolds(r, x);
  }

  /** `progress` is `before` with the tasks of `s` settled. */
  ghost predicate RanTasks(r: Run, s: seq<Id>, before: map<Id, Progress>, progress: map<Id, Progress>) {
    && progress.Keys == before.Keys
    && forall x :: x in progress ==> progress[x] == if x in s then SettledProgress(r, x) else before[x]
  }

  ghost predicate PastLayer(r: Run, n: nat, progress: map<Id, Progress>) {
    && n < |r.layers| && progress.Keys == r.g.Keys
    && forall x :: x in progress ==> progress[x] == ProgressAt(r, n + 1, x)
  }

  ghost predicate LayerDone(r: Run, layer: seq<Id>, progress: map<Id, Progress>) {
    forall x :: x in layer ==> x in progress && progress[x].state == SettledState(r, x)
  }

  /** Classified, then run: every task of the layer is settled. */
  lemma LayerSettled(r: Run, n: nat, before: map<Id, Progress>, classified: map<Id, Progress>, progress: map<Id, Progress>)
    requires AtLayer(r, n, before) && n < |r.layers|
    requires Classified(r, before, r.layers[n], classified)
    requires RanTasks(r, Runnable(r, r.layers[n]), classified, progress)
    ensures PastLayer(r, n, progress) && LayerDone(r, r.layers[n], progress)
  {
    LayerTasksKnown(r, n);
    forall x | x in progress
      ensures progress[x] == if x in r.layers[n] then SettledProgress(r, x) else before[x]
    {
    }
  }

  /** Runs the dispatched tasks of one classified layer. */
  method RunTasks(table: map<Id, TaskDefinition>, o: Options, ghost r: Run, ghost n: nat, toRun: seq<Id>,
                  before: map<Id, Progress>, published: seq<Event>)
      returns (progress: map<Id, Progress>, events: seq<Event>)
    requires Describes(r, table, o) && ValidRun(r) && before.Keys == r.g.Keys
    requires n < |r.layers| && toRun == Runnable(r, r.layers[n])
    ensures RanTasks(r, toRun, before, progress)
    ensures events == published + LayerTrace(r, r.layers[n])
  {
    LayerTasksKnown(r, n);
    var running, started := StartTasks(toRun, before, published);
    var outcomes := DispatchTasks(table, o, toRun);
    var ids := SortBy(o.collate, toRun);
    SortByFacts(o.collate, toRun);
    forall x | x in ids
      ensures SettledProgress(r, x) == Progress(if outcomes[x].ok then Completed else Failed, outcomes[x].attempts)
    {
      RunnableOutcome(r, table, o, x);
    }
    progress, events := ApplyOutcomes(r, ids, outcomes, running, started);
    ConcatAssociative(published, Started(toRun), Ended(r, ids));
  }

  method RunLayer(table: map<Id, TaskDefinition>, o: Options, ghost r: Run, ghost n: nat, layer: seq<Id>,
                  before: map<Id, Progress>, pendingBefore: seq<Id>, published: seq<Event>)
      returns (progress: map<Id, Progress>, pendingApprovals: seq<Id>, events: seq<Event>, waiting: bool)
    requires Describes(r, table, o) && AtLayer(r, n, before) && n < |r.layers| && layer == r.layers[n]
    ensures PastLayer(r, n, progress)
    ensures pendingApprovals == pendingBefore + Held(r, layer)
    ensures events == published + LayerTrace(r, layer)
    ensures waiting <==> Held(r, layer) != []
  {
    var classified, toRun;
    classified, toRun, pendingApprovals := ClassifyLayer(table, o, r, n, layer, before, pendingBefore);
    progress, events := RunTasks(table, o, r, n, toRun, classified, published);
    LayerSettled(r, n, before, classified, progress);
    waiting := AnyWaiting(r, layer, progress);
  }

  method AnyWaiting(ghost r: Run, layer: seq<Id>, progress: map<Id, Progress>) returns (waiting: bool)
    requires LayerDone(r, layer, progress)
    ensures waiting <==> Held(r, layer) != []
  {
    WaitingIffHeld(r, layer);
    waiting := exists x :: x in layer && progress[x].state == Waiting;
  }

  lemma LayerTasksKnown(r: Run, n: nat)
    requires ValidRun(r) && n < |r.layers|
    ensures forall x :: x in r.layers[n] ==> x in r.g
    ensures forall x :: x in Runnable(r, r.layers[n]) <==>
      x in r.layers[n] && SettledState(r, x) in {Completed, Failed}
  {
    assert StageAt(r.g, r.layers, n);
    RunnableMembers(r, r.layers[n]);
  }

  lemma WaitingIffHeld(r: Run, s: seq<Id>)
    ensures (exists x :: x in s && SettledState(r, x) == Waiting) <==> Held(r, s) != []
  {
    if Held(r, s) != [] {
      HeldMembers(r, s, Held(r, s)[0]);
    }
    if x :| x in s && SettledState(r, x) == Waiting {
      HeldMembers(r, s, x);
    }
  }

  // ----- the layer loop

  /** What the loop has computed on entering layer `n`. */
  ghost predicate LoopHead(r: Run, n: nat, progress: map<Id, Progress>, pendingApprovals: seq<Id>,
                           events: seq<Event>, start: seq<Event>) {
    && AtLayer(r, n, progress)
    && LayersRun(r) == LayersRunFrom(r, n)
    && pendingApprovals == []
    && events == start + Trace(r, n)
  }

  /** What the loop has computed where it stops after `n` layers, and how often it has polled. */
  ghost predicate LoopExit(r: Run, n: nat, progress: map<Id, Progress>, pendingApprovals: seq<Id>,
                           events: seq<Event>, start: seq<Event>, paused: bool, polls: nat) {
    && n == LayersRun(r)
    && progress.Keys == r.g.Keys && (forall x :: x in progress ==> progress[x] == ProgressAt(r, n, x))
    && events == start + Trace(r, n)
    && (paused <==> PausedAfter(r, n))
    && pendingApprovals == (if paused then Held(r, r.layers[n - 1]) else [])
    && polls == FinalPoll(r)
  }

  lemma NextHead(r: Run, n: nat, before: map<Id, Progress>, progress: map<Id, Progress>,
                 events: seq<Event>, start: seq<Event>)
    requires LoopHead(r, n, before, [], events, start) && PastLayer(r, n, progress)
    requires !r.cancelled(n) && Held(r, r.layers[n]) == []
    ensures LoopHead(r, n + 1, progress, [], events + LayerTrace(r, r.layers[n]), start)
  {
    forall k | 0 <= k < n + 1 ensures Held(r, r.layers[k]) == [] {
      assert k < n || k == n;
    }
  }

  lemma ExitPaused(r: Run, n: nat, before: map<Id, Progress>, progress: map<Id, Progress>,
                   events: seq<Event>, start: seq<Event>)
    requires LoopHead(r, n, before, [], events, start) && PastLayer(r, n, progress)
    requires !r.cancelled(n) && Held(r, r.layers[n]) != []
    ensures LoopExit(r, n + 1, progress, Held(r, r.layers[n]), events + LayerTrace(r, r.layers[n]), start, true, n + 1)
  {
  }

  /** One iteration of the loop that no cancellation stops. */
  method Advance(table: map<Id, TaskDefinition>, o: Options, ghost r: Run, ghost n: nat, layer: seq<Id>,
                 before: map<Id, Progress>, published: seq<Event>, ghost start: seq<Event>)
      returns (progress: map<Id, Progress>, pendingApprovals: seq<Id>, events: seq<Event>, paused: bool)
    requires Describes(r, table, o) && LoopHead(r, n, before, [], published, start)
    requires n < |r.layers| && layer == r.layers[n] && !r.cancelled(n)
    ensures paused ==> LoopExit(r, n + 1, progress, pendingApprovals, events, start, true, n + 1)
    ensures !paused ==> LoopHead(r, n + 1, progress, pendingApprovals, events, start)
  {
    progress, pendingApprovals, events, paused := RunLayer(table, o, r, n, layer, before, [], published);
    assert [] + Held(r, layer) == Held(r, layer);
    if paused {
      ExitPaused(r, n, before, progress, published, start);
    } else {
      NextHead(r, n, before, progress, published, start);
    }
  }

  method RunLayers(table: map<Id, TaskDefinition>, o: Options, layers: seq<seq<Id>>, ghost r: Run,
                   initial: map<Id, Progress>, start: seq<Event>)
      returns (progress: map<Id, Progress>, pendingApprovals: seq<Id>, events: seq<Event>, paused: bool, polls: nat)
    requires Describes(r, table, o) && LoopHead(r, 0, initial, [], start, start) && layers == r.layers
    ensures LoopExit(r, LayersRun(r), progress, pendingApprovals, events, start, paused, polls)
  {
    progress, pendingApprovals, events := initial, [], start;
    for n := 0 to |layers|
      invariant LoopHead(r, n, progress, pendingApprovals, events, start)
    {
      if o.cancelled(n) {
        return progress, pendingApprovals, events, false, n + 1;
      }
      progress, pendingApprovals, events, paused := Advance(table, o, r, n, layers[n], progress, events, start);
      if paused {
        return progress, pendingApprovals, events, true, n + 1;
      }
    }
    paused, polls := false, |layers|;
  }

  // ----- the whole execution

  ghost function FinalRecords(m: MissionDefinition, r: Run): seq<TaskRecord> {
    seq(|m.tasks|, i requires 0 <= i < |m.tasks| =>
      var t := m.tasks[i];
      var p := FinalProgress(r, t.id);
      TaskRecord(t.id, t.executor, p.state, t.dependsOn, p.attempts))
  }

  function InitialProgress(m: MissionDefinition): map<Id, Progress> {
    map x | x in m.Ids() :: Progress(Pending, 0)
  }

  /** How an execution ended, before the figures of its report are drawn up. */
  datatype Ending = Ending(state: ExecutionState, records: seq<TaskRecord>, events: seq<Event>, pendingApprovals: seq<Id>)

  function ReportOf(e: Ending): Report {
    BuildReport(e.state, e.records, e.events, e.pendingApprovals)
  }

  /** The ending of an execution that governance let begin, given how planning came out. */
  ghost function EndingOf(m: MissionDefinition, o: Options, planned: PlanResult): Ending {
    match planned
    case PlanError(code, detail) =>
      Ending(RunFailed, Records(m, InitialProgress(m)), [MissionFailed(PlanFailure(code, detail))], [])
    case Planned(plan) =>
      var r := RunOf(m, o, plan);
      Ending(FinalState(r), FinalRecords(m, r), RunTrace(r, |m.tasks|), ApprovalsAsked(r))
  }

  ghost function EndingFor(m: MissionDefinition, blocked: bool, o: Options): Ending {
    if blocked then Ending(RunBlocked, Records(m, InitialProgress(m)), [MissionFailed(GovernanceBlocked)], [])
    else EndingOf(m, o, ThePlan(m))
  }

  /** The report that a mission, the decision of governance and the options determine. */
  ghost function ReportFor(m: MissionDefinition, blocked: bool, o: Options): Report {
    ReportOf(EndingFor(m, blocked, o))
  }

  lemma TableIds(m: MissionDefinition)
    requires NoRepeats(m.Ids())
    ensures TaskTable(m.tasks).Keys == InitialProgress(m).Keys == Elements(m.Ids())
    ensures forall x :: x in TaskTable(m.tasks) ==> TaskTable(m.tasks)[x].id == x
  {
    TaskTableComplete(m);
    forall x | x in TaskTable(m.tasks) ensures TaskTable(m.tasks)[x].id == x {
      var i :| 0 <= i < |m.Ids()| && m.Ids()[i] == x;
      assert m.tasks[i].id == x;
    }
  }

  lemma RunMeaning(m: MissionDefinition, o: Options, plan: ExecutionPlan, x: Id)
    requires Acyclic(GraphOf(m)) && x in GraphOf(m)
    ensures MeaningHolds(RunOf(m, o, plan), x)
  {
    var r := RunOf(m, o, plan);
    MeaningEquation(r.g, r.ok, x);
    assert DagMeaning.BlockedUpstream(r.g, r.ok, x) <==> DependencyBlocks(r, x);
  }

  /** What a plan gives the layer loop to work with. */
  lemma RunOfPlan(m: MissionDefinition, o: Options, plan: ExecutionPlan)
    requires IsPlan(m, plan)
    ensures ValidRun(RunOf(m, o, plan)) && Acyclic(GraphOf(m))
  {
    PlanIsStaged(m, plan);
    forall x | x in GraphOf(m) ensures MeaningHolds(RunOf(m, o, plan), x) {
      RunMeaning(m, o, plan, x);
    }
  }

  lemma RunDescribes(m: MissionDefinition, o: Options, plan: ExecutionPlan)
    requires NoRepeats(m.Ids())
    ensures Describes(RunOf(m, o, plan), TaskTable(m.tasks), o)
    ensures RunOf(m, o, plan).g.Keys == InitialProgress(m).Keys == Elements(m.Ids())
  {
    TableIds(m);
  }

  datatype MetricsSnapshot = MetricsSnapshot(executions: nat, completed: nat, failed: nat, blocked: nat, cancelled: nat, waiting: nat)

  /** One more execution that ended in `state`. */
  function Tally(c: MetricsSnapshot, state: ExecutionState): MetricsSnapshot {
    MetricsSnapshot(
      c.executions,
      c.completed + if state == RunCompleted then 1 else 0,
      c.failed + if state == RunFailed then 1 else 0,
      c.blocked + if state == RunBlocked then 1 else 0,
      c.cancelled + if state == RunCancelled then 1 else 0,
      c.waiting + if state == RunWaiting then 1 else 0)
  }

  /** The call returned a report of the given ending. */
  ghost predicate Ends(result: ExecutionResult, state: ExecutionState) {
    result.Returned? && result.report.executionState == state
  }

  /** How one call moves the process-wide counters. */
  function Counted(before: MetricsSnapshot, result: ExecutionResult): MetricsSnapshot {
    var c := before.(executions := before.executions + 1);
    if result.Threw? then c else Tally(c, result.report.executionState)
  }

  lemma CountedReport(before: MetricsSnapshot, entered: MetricsSnapshot, report: Report)
    requires entered == before.(executions := before.executions + 1)
    ensures Counted(before, Returned(report)) == Tally(entered, report.executionState)
  {
  }

  datatype Call = Execute(result: ExecutionResult) | Reset

  function CountedCall(before: MetricsSnapshot, call: Call): MetricsSnapshot {
    match call
    case Execute(result) => Counted(before, result)
    case Reset => MetricsSnapshot(0, 0, 0, 0, 0, 0)
  }

  /** The counters after a sequence of calls. */
  function Replay(calls: seq<Call>): MetricsSnapshot {
    if calls == [] then MetricsSnapshot(0, 0, 0, 0, 0, 0)
    else CountedCall(Replay(calls[..|calls| - 1]), calls[|calls| - 1])
  }

  lemma ReplayOneMore(calls: seq<Call>, call: Call)
    ensures Replay(calls + [call]) == CountedCall(Replay(calls), call)
  {
    assert (calls + [call])[..|calls|] == calls;
  }

  /** The process-wide counters. `log` is the history of calls. */
  class Runtime {
    var executions: nat
    var completed: nat
    var failed: nat
    var blocked: nat
    var cancelled: nat
    var waiting: nat
    ghost var log: seq<Call>

    ghost predicate Valid()
      reads this
    {
      Metrics() == Replay(log)
    }

    function Metrics(): MetricsSnapshot
      reads this
    {
      MetricsSnapshot(executions, completed, failed, blocked, cancelled, waiting)
    }

    constructor ()
      ensures Valid() && log == [] && Metrics() == MetricsSnapshot(0, 0, 0, 0, 0, 0)
    {
      executions, completed, failed, blocked, cancelled, waiting := 0, 0, 0, 0, 0, 0;
      log := [];
    }

    method ResetMetrics()
      requires Valid()
      modifies this
      ensures Valid() && log == old(log) + [Reset]
      ensures Metrics() == MetricsSnapshot(0, 0, 0, 0, 0, 0)
    {
      ReplayOneMore(log, Reset);
      log := log + [Reset];
      executions := 0;
      completed := 0;
      failed := 0;
      blocked := 0;
      cancelled := 0;
      waiting := 0;
    }

    method ExecuteMission(m: MissionDefinition, governance: Governance, o: Options) returns (result: ExecutionResult)
      requires Valid()
      modifies this
      ensures Valid() && log == old(log) + [Execute(result)]
      ensures result.Threw? <==> governance.Raised?
      ensures result.Returned? ==> result.report == ReportFor(m, governance.blocked, o)
      ensures Metrics() == Counted(old(Metrics()), result)
      ensures executions == old(executions) + 1
      ensures completed == old(completed) + if Ends(result, RunCompleted) then 1 else 0
      ensures failed == old(failed) + if Ends(result, RunFailed) then 1 else 0
      ensures blocked == old(blocked) + if Ends(result, RunBlocked) then 1 else 0
      ensures cancelled == old(cancelled) + if Ends(result, RunCancelled) then 1 else 0
      ensures waiting == old(waiting) + if Ends(result, RunWaiting) then 1 else 0
    {
      ghost var calls := log;
      executions := executions + 1;
      if governance.Raised? {
        ReplayOneMore(calls, Execute(Threw));
        log := calls + [Execute(Threw)];
        return Threw;
      }
      ghost var counted := Metrics();
      var ending := Govern(m, governance.blocked, o);
      var report := ReportOf(ending);
      result := Returned(report);
      CountedReport(old(Metrics()), counted, report);
      ReplayOneMore(calls, Execute(result));
      log := calls + [Execute(result)];
    }

    /** Everything after governance has decided. */
    method Govern(m: MissionDefinition, isBlocked: bool, o: Options) returns (ending: Ending)
      modifies this
      ensures ending == EndingFor(m, isBlocked, o)
      ensures Metrics() == Tally(old(Metrics()), ending.state)
    {
      if isBlocked {
        Count(RunBlocked);
        var records := Records(m, InitialProgress(m));
        return Ending(RunBlocked, records, [MissionFailed(GovernanceBlocked)], []);
      }
      var planned := PlanMission(m);
      PlanIs(m, planned);
      if planned.PlanError? {
        Count(RunFailed);
        var records := Records(m, InitialProgress(m));
        return Ending(RunFailed, records, [MissionFailed(PlanFailure(planned.code, planned.detail))], []);
      }
      ending := RunPlan(m, o, planned.plan);
    }

    /** Schedules and dispatches the planned layers, then resolves the final state. */
    method RunPlan(m: MissionDefinition, o: Options, plan: ExecutionPlan) returns (ending: Ending)
      requires IsPlan(m, plan)
      modifies this
      ensures ending == EndingOf(m, o, Planned(plan))
      ensures Metrics() == Tally(old(Metrics()), ending.state)
    {
      ghost var r := RunOf(m, o, plan);
      RunOfPlan(m, o, plan);
      RunDescribes(m, o, plan);
      var start := [MissionStarted(|m.tasks|, |plan.layers|)];
      var progress, pendingApprovals, events, paused, polls :=
        RunLayers(TaskTable(m.tasks), o, plan.layers, r, InitialProgress(m), start);
      LayersRunStops(r, 0);
      var state, records, closing := Resolve(m, o, r, progress, pendingApprovals, paused, polls);
      Count(state);
      ending := Ending(state, records, events + [closing], pendingApprovals);
    }

    /** Counts one more ending of the given kind. */
    method Count(state: ExecutionState)
      modifies this
      ensures Metrics() == Tally(old(Metrics()), state)
    {
      match state
      case RunBlocked => blocked := blocked + 1;
      case RunFailed => failed := failed + 1;
      case RunCompleted => completed := completed + 1;
      case RunCancelled => cancelled := cancelled + 1;
      case RunWaiting => waiting := waiting + 1;
    }
  }

  /** Resolves the final mission state after the loop. */
  method Resolve(m: MissionDefinition, o: Options, ghost r: Run, reached: map<Id, Progress>,
                 pendingApprovals: seq<Id>, paused: bool, polls: nat)
      returns (state: ExecutionState, records: seq<TaskRecord>, closing: Event)
    requires r.cancelled == o.cancelled && reached.Keys == r.g.Keys == Elements(m.Ids())
    requires polls == FinalPoll(r) && pendingApprovals == ApprovalsAsked(r)
    requires forall x :: x in reached ==> reached[x] == ProgressAt(r, LayersRun(r), x)
    requires paused <==> PausedAfter(r, LayersRun(r))
    ensures state == FinalState(r) && records == FinalRecords(m, r) && closing == ClosingEvent(r)
  {
    if o.cancelled(polls) {
      var progress := CancelRemaining(m, reached);
      return RunCancelled, Records(m, progress), MissionCancelled;
    }
    EndsUncancelled(m, r, reached);
    records := Records(m, reached);
    state, closing := Conclude(records, pendingApprovals, paused);
    ConcludedOnce(records, pendingApprovals, paused, state, closing, FinalState(r), ClosingEvent(r));
  }

  /** An uncancelled mission ends waiting if it paused, failed if a task did, and otherwise
      completed, and its closing event says so. */
  ghost predicate Concluded(records: seq<TaskRecord>, pendingApprovals: seq<Id>, paused: bool,
                            state: ExecutionState, closing: Event) {
    && (paused ==> state == RunWaiting && closing == MissionPaused(SortBy(NotAfter, pendingApprovals)))
    && (!paused && (exists i :: 0 <= i < |records| && records[i].state == Failed) ==>
          state == RunFailed && closing == MissionFailed(TaskFailure))
    && (!paused && (forall i :: 0 <= i < |records| ==> records[i].state != Failed) ==>
          state == RunCompleted && closing == MissionCompleted)
  }

  lemma ConcludedOnce(records: seq<TaskRecord>, pendingApprovals: seq<Id>, paused: bool,
                      s1: ExecutionState, c1: Event, s2: ExecutionState, c2: Event)
    requires Concluded(records, pendingApprovals, paused, s1, c1)
    requires Concluded(records, pendingApprovals, paused, s2, c2)
    ensures s1 == s2 && c1 == c2
  {
  }

  method Conclude(records: seq<TaskRecord>, pendingApprovals: seq<Id>, paused: bool)
      returns (state: ExecutionState, closing: Event)
    ensures Concluded(records, pendingApprovals, paused, state, closing)
  {
    if paused {
      state, closing := RunWaiting, MissionPaused(SortBy(NotAfter, pendingApprovals));
    } else if exists i :: 0 <= i < |records| && records[i].state == Failed {
      state, closing := RunFailed, MissionFailed(TaskFailure);
    } else {
      state, closing := RunCompleted, MissionCompleted;
    }
  }

  lemma EndsUncancelled(m: MissionDefinition, r: Run, reached: map<Id, Progress>)
    requires reached.Keys == r.g.Keys == Elements(m.Ids())
    requires forall x :: x in reached ==> reached[x] == ProgressAt(r, LayersRun(r), x)
    requires !r.cancelled(FinalPoll(r))
    ensures var records := Records(m, reached);
      && records == FinalRecords(m, r)
      && Concluded(records, ApprovalsAsked(r), PausedAfter(r, LayersRun(r)), FinalState(r), ClosingEvent(r))
  {
    forall x | x in reached ensures reached[x] == FinalProgress(r, x) {
    }
    AnyFailed(m, r);
  }

  lemma AnyFailed(m: MissionDefinition, r: Run)
    requires r.g.Keys == Elements(m.Ids())
    ensures (exists x :: x in r.g && FinalProgress(r, x).state == Failed) <==>
            (exists i :: 0 <= i < |m.tasks| && FinalRecords(m, r)[i].state == Failed)
  {
    if x :| x in r.g && FinalProgress(r, x).state == Failed {
      var i :| 0 <= i < |m.Ids()| && m.Ids()[i] == x;
      assert FinalRecords(m, r)[i].state == Failed;
    }
    if i :| 0 <= i < |m.tasks| && FinalRecords(m, r)[i].state == Failed {
      assert m.Ids()[i] in m.Ids();
    }
  }

  /** Marks everything that has not ended as cancelled. */
  method CancelRemaining(m: MissionDefinition, before: map<Id, Progress>) returns (progress: map<Id, Progress>)
    requires before.Keys == Elements(m.Ids())
    ensures progress.Keys == before.Keys
    ensures forall x :: x in progress ==>
      progress[x] == if Terminal(before[x].state) then before[x] else before[x].(state := Cancelled)
  {
    progress := before;
    var ids := m.Ids();
    for i := 0 to |ids|
      invariant progress.Keys == before.Keys
      invariant forall x :: x in progress ==>
        progress[x] == if x !in ids[..i] || Terminal(before[x].state) then before[x] else before[x].(state := Cancelled)
    {
      assert ids[i] in ids && ids[..i + 1] == ids[..i] + [ids[i]];
      if !Terminal(progress[ids[i]].state) {
        progress := progress[ids[i] := progress[ids[i]].(state := Cancelled)];
      }
    }
    assert ids[..|ids|] == ids;
  }
}
