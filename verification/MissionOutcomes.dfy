/** What every report says, from first to last, in the terms of the mission, its plan and
    the options: how far the layer loop gets, what becomes of each task, how the mission
    ends, what it asks for and how its events open and close. */
module MissionOutcomes {
  import opened Sorting
  import opened MissionTypes
  import opened RetryManager
  import opened ExecutionPlanner
  import opened PlanProperties
  import opened DagMeaning
  import opened MissionRun
  import opened MissionReport
  import opened MissionRuntime
  import opened MissionStates
  import opened MissionTrace
  import opened MissionGuarantees

  // ----- how far the loop gets

  /** Task `x` requires an approval that was not given. */
  ghost predicate LacksApproval(m: MissionDefinition, o: Options, x: Id) {
    x !in o.approvals && exists t :: t in m.tasks && t.id == x && t.requiresApproval
  }

  /** Something that `x` transitively depends on would not succeed. */
  ghost predicate Doomed(m: MissionDefinition, o: Options, x: Id) {
    FailureBelow(GraphOf(m), SucceedingTasks(m, o), x)
  }

  /** Some task of the layer has to wait for its approval. */
  ghost predicate Pauses(m: MissionDefinition, o: Options, layer: seq<Id>) {
    exists x :: x in layer && LacksApproval(m, o, x) && !Doomed(m, o, x)
  }

  ghost function Layers(m: MissionDefinition): seq<seq<Id>> {
    if ThePlan(m).Planned? then ThePlan(m).plan.layers else []
  }

  /** The last of the first `n` layers makes the mission pause. */
  ghost predicate PausedAt(m: MissionDefinition, o: Options, n: nat)
    requires n <= |Layers(m)|
  {
    n > 0 && Pauses(m, o, Layers(m)[n - 1])
  }

  /** The loop processes exactly the first `n` layers: no poll before one of them is answered
      with a cancellation, none but the last pauses the mission, and what comes next is a
      pause, a cancellation or no layer. */
  ghost predicate Processes(m: MissionDefinition, o: Options, n: nat) {
    && n <= |Layers(m)|
    && (forall k :: 0 <= k < n ==> !o.cancelled(k))
    && (forall k :: 0 <= k < n - 1 ==> !Pauses(m, o, Layers(m)[k]))
    && (PausedAt(m, o, n) || n == |Layers(m)| || o.cancelled(n))
  }

  lemma NotFurther(m: MissionDefinition, o: Options, n: nat, k: nat)
    requires Processes(m, o, n) && Processes(m, o, k)
    ensures k <= n
  {
  }

  /** What becomes of a task when its layer is processed. */
  ghost function OnceReached(m: MissionDefinition, o: Options, x: Id): TaskState {
    if Doomed(m, o, x) then Skipped
    else if LacksApproval(m, o, x) then Waiting
    else if x in SucceedingTasks(m, o) then Completed
    else Failed
  }

  lemma GatedMeans(m: MissionDefinition, o: Options, plan: ExecutionPlan, x: Id)
    requires NoRepeats(m.Ids()) && x in GraphOf(m)
    ensures x in RunOf(m, o, plan).gated <==> LacksApproval(m, o, x)
  {
    TaskTableComplete(m);
    var i :| 0 <= i < |m.Ids()| && m.Ids()[i] == x;
    GatedById(m, o, plan, i);
    assert m.tasks[i] in m.tasks;
    forall t | t in m.tasks && t.id == x ensures t == m.tasks[i] {
      var j :| 0 <= j < |m.tasks| && m.tasks[j] == t;
      assert m.Ids()[j] == m.Ids()[i];
    }
  }

  lemma Settles(m: MissionDefinition, o: Options, x: Id)
    requires Plannable(m) && x in GraphOf(m)
    ensures ThePlan(m).Planned? && ValidRun(RunFor(m, o)) && Acyclic(GraphOf(m))
    ensures SettledState(RunFor(m, o), x) == OnceReached(m, o, x)
  {
    PlannableRuns(m);
    ReportShows(m, false, o);
    var r := RunFor(m, o);
    GatedMeans(m, o, ThePlan(m).plan, x);
    SuccessMeaning(m, o, ThePlan(m).plan);
    MeaningIsVerdict(r, x);
    MeaningIsDagMeaning(r, x);
    MeaningByReachability(r.g, r.ok, x);
  }

  /** `r` is the run of the mission: its tasks settle as they must once reached. */
  ghost predicate Models(m: MissionDefinition, o: Options, r: Run) {
    && ValidRun(r) && r.g == GraphOf(m) && r.layers == Layers(m) && r.cancelled == o.cancelled
    && forall x {:trigger SettledState(r, x)} :: x in r.g ==> SettledState(r, x) == OnceReached(m, o, x)
  }

  lemma RunModels(m: MissionDefinition, o: Options)
    requires Plannable(m)
    ensures ThePlan(m).Planned? && Models(m, o, RunFor(m, o))
    ensures ReportsRun(m, RunFor(m, o), ReportFor(m, false, o))
  {
    PlannableRuns(m);
    ReportShows(m, false, o);
    forall x | x in GraphOf(m) ensures SettledState(RunFor(m, o), x) == OnceReached(m, o, x) {
      Settles(m, o, x);
    }
  }

  lemma HoldsIffPauses(m: MissionDefinition, o: Options, r: Run, k: nat)
    requires Models(m, o, r) && k < |r.layers|
    ensures Held(r, r.layers[k]) != [] <==> Pauses(m, o, r.layers[k])
  {
    assert StageAt(r.g, r.layers, k);
    forall x | x in r.layers[k]
      ensures x in r.g && (SettledState(r, x) == Waiting <==> LacksApproval(m, o, x) && !Doomed(m, o, x))
    {
    }
    WaitingIffHeld(r, r.layers[k]);
  }

  /** Every run processes as many layers as it should, and that is one number. */
  lemma ProcessesOne(m: MissionDefinition, o: Options, r: Run, n: nat)
    requires Models(m, o, r)
    ensures Processes(m, o, n) <==> n == LayersRun(r)
    ensures n <= |r.layers| ==> (PausedAfter(r, n) <==> PausedAt(m, o, n))
  {
    LoopStops(r);
    forall k: nat | k < |r.layers| ensures Held(r, r.layers[k]) != [] <==> Pauses(m, o, r.layers[k]) {
      HoldsIffPauses(m, o, r, k);
    }
    var stop := LayersRun(r);
    assert Processes(m, o, stop);
    if Processes(m, o, n) {
      NotFurther(m, o, n, stop);
      NotFurther(m, o, stop, n);
    }
  }

  // ----- the report of a mission that runs

  /** The task is in one of the first `n` layers. */
  ghost predicate Reached(m: MissionDefinition, n: nat, x: Id) {
    exists k :: 0 <= k < n && k < |Layers(m)| && x in Layers(m)[k]
  }

  /** The poll after the loop: the loop has polled once before each layer it processed, and
      once more if a cancellation stopped it. */
  ghost function LastPoll(m: MissionDefinition, o: Options, n: nat): nat
    requires n <= |Layers(m)|
  {
    if PausedAt(m, o, n) || n == |Layers(m)| then n else n + 1
  }

  /** The final state of task `x` when `n` layers were processed. */
  ghost function FinallyOf(m: MissionDefinition, o: Options, n: nat, x: Id): TaskState
    requires n <= |Layers(m)|
  {
    var s := if Reached(m, n, x) then OnceReached(m, o, x) else Pending;
    if o.cancelled(LastPoll(m, o, n)) && s !in {Completed, Failed, Skipped} then Cancelled else s
  }

  lemma FinalIs(m: MissionDefinition, o: Options, r: Run, n: nat, x: Id)
    requires Models(m, o, r) && Processes(m, o, n) && x in r.g
    ensures FinalProgress(r, x).state == FinallyOf(m, o, n, x)
  {
    ProcessesOne(m, o, r, n);
    LayersRunStops(r, 0);
    PlacedMembers(r.layers, n, x);
    assert Reached(m, n, x) <==> x in Placed(r.layers, n);
  }

  /** The final state of every task: a reached one is skipped when something below it would
      not succeed, else waits when it requires an approval that was not given, else is
      completed or failed as its own attempts come out; every other one is pending. If the
      poll after the loop says cancelled, what has not ended is cancelled. */
  lemma TaskOutcome(m: MissionDefinition, o: Options, n: nat, i: nat)
    requires Plannable(m) && Processes(m, o, n) && i < |m.tasks|
    ensures var report, t := ReportFor(m, false, o), m.tasks[i];
      var state := if !Reached(m, n, t.id) then Pending
        else if FailureBelow(GraphOf(m), SucceedingTasks(m, o), t.id) then Skipped
        else if t.requiresApproval && t.id !in o.approvals then Waiting
        else if WouldSucceed(o, t) then Completed
        else Failed;
      && |report.tasks| == |m.tasks|
      && report.tasks[i].state
        == if o.cancelled(LastPoll(m, o, n)) && state !in {Completed, Failed, Skipped} then Cancelled else state
  {
    PlannableRuns(m);
    RunModels(m, o);
    RecordOf(m, RunFor(m, o), ReportFor(m, false, o), i);
    FinalIs(m, o, RunFor(m, o), n, m.tasks[i].id);
    SucceedingById(m, o, m.tasks[i]);
    GatedMeans(m, o, ThePlan(m).plan, m.tasks[i].id);
    GatedById(m, o, ThePlan(m).plan, i);
  }

  /** How the mission ends: cancelled exactly when the poll after the loop says so, even if
      every task has ended; else waiting exactly when the loop paused; else failed exactly
      when a task failed; else completed. */
  lemma MissionOutcome(m: MissionDefinition, o: Options, n: nat)
    requires Plannable(m) && Processes(m, o, n)
    ensures var report := ReportFor(m, false, o);
      report.executionState
        == if o.cancelled(LastPoll(m, o, n)) then RunCancelled
           else if PausedAt(m, o, n) then RunWaiting
           else if exists i :: 0 <= i < |report.tasks| && report.tasks[i].state == Failed then RunFailed
           else RunCompleted
  {
    RunModels(m, o);
    RunOutcome(m, o, RunFor(m, o), n);
  }

  lemma RunOutcome(m: MissionDefinition, o: Options, r: Run, n: nat)
    requires Models(m, o, r) && Processes(m, o, n) && r.g.Keys == Elements(m.Ids())
    ensures FinalState(r)
      == if o.cancelled(LastPoll(m, o, n)) then RunCancelled
         else if PausedAt(m, o, n) then RunWaiting
         else if exists i :: 0 <= i < |FinalRecords(m, r)| && FinalRecords(m, r)[i].state == Failed then RunFailed
         else RunCompleted
  {
    ProcessesOne(m, o, r, n);
    LayersRunStops(r, 0);
    AnyFailed(m, r);
  }

  /** What the mission asks for, cancelled or not: if the loop paused, exactly the tasks of
      its last layer that had to wait, sorted, and otherwise nothing. */
  lemma ApprovalsOutcome(m: MissionDefinition, o: Options, n: nat)
    requires Plannable(m) && Processes(m, o, n)
    ensures var asked := ReportFor(m, false, o).pendingApprovals;
      && Sorted(NotAfter, asked) && NoRepeats(asked)
      && (asked != [] <==> PausedAt(m, o, n))
      && forall x :: x in asked <==>
        n > 0 && x in Layers(m)[n - 1] && LacksApproval(m, o, x) && !Doomed(m, o, x)
  {
    RunModels(m, o);
    var r := RunFor(m, o);
    RunAsks(m, o, r, n);
    SortBySorts(ApprovalsAsked(r));
    SortByFacts(NotAfter, ApprovalsAsked(r));
    assert ApprovalsAsked(r) != [] <==> SortBy(NotAfter, ApprovalsAsked(r)) != [];
  }

  lemma RunAsks(m: MissionDefinition, o: Options, r: Run, n: nat)
    requires Models(m, o, r) && Processes(m, o, n)
    ensures NoRepeats(ApprovalsAsked(r)) && (ApprovalsAsked(r) != [] <==> PausedAt(m, o, n))
    ensures forall x :: x in ApprovalsAsked(r) <==>
      n > 0 && x in Layers(m)[n - 1] && LacksApproval(m, o, x) && !Doomed(m, o, x)
  {
    AskedWhenPaused(m, o, r, n);
    if n > 0 {
      LayerHeld(m, o, r, n - 1);
    }
  }

  lemma AskedWhenPaused(m: MissionDefinition, o: Options, r: Run, n: nat)
    requires Models(m, o, r) && Processes(m, o, n)
    ensures ApprovalsAsked(r) == if n > 0 then Held(r, r.layers[n - 1]) else []
    ensures ApprovalsAsked(r) != [] <==> PausedAt(m, o, n)
  {
    ProcessesOne(m, o, r, n);
    LayersRunStops(r, 0);
  }

  lemma LayerHeld(m: MissionDefinition, o: Options, r: Run, k: nat)
    requires Models(m, o, r) && k < |r.layers|
    ensures NoRepeats(Held(r, r.layers[k]))
    ensures forall x :: x in Held(r, r.layers[k]) <==>
      x in Layers(m)[k] && LacksApproval(m, o, x) && !Doomed(m, o, x)
  {
    assert StageAt(r.g, r.layers, k);
    HeldOnce(r, r.layers[k]);
    HeldIs(m, o, r, r.layers[k]);
  }

  lemma HeldIs(m: MissionDefinition, o: Options, r: Run, layer: seq<Id>)
    requires Models(m, o, r) && forall x :: x in layer ==> x in r.g
    ensures forall x :: x in Held(r, layer) <==> x in layer && LacksApproval(m, o, x) && !Doomed(m, o, x)
  {
    forall x ensures x in Held(r, layer) <==> x in layer && LacksApproval(m, o, x) && !Doomed(m, o, x) {
      HeldMembers(r, layer, x);
    }
  }

  lemma {:induction false} HeldOnce(r: Run, s: seq<Id>)
    requires NoRepeats(s)
    ensures NoRepeats(Held(r, s))
  {
    if s != [] {
      var rest := s[..|s| - 1];
      HeldOnce(r, rest);
      forall x | x in Held(r, rest) ensures x in rest {
        HeldMembers(r, rest, x);
      }
      assert s[|s| - 1] !in rest && s[|s| - 1] !in Held(r, rest);
    }
  }

  // ----- every report

  /** Governance and planning: a report says blocked exactly when governance blocked the
      mission, and then the one event says why; a mission that was not blocked but cannot be
      planned is failed, and its one event carries the planner's error. Either way no task is
      touched. */
  lemma StoppedOutcome(m: MissionDefinition, blocked: bool, o: Options)
    ensures var report := ReportFor(m, blocked, o);
      && (report.executionState == RunBlocked <==> blocked)
      && (blocked ==> report.events == [MissionFailed(GovernanceBlocked)])
      && (!blocked && !Plannable(m) ==>
            && report.executionState == RunFailed
            && (exists code, detail :: PlanCorrect(m, PlanError(code, detail))
                  && report.events == [MissionFailed(PlanFailure(code, detail))]))
      && (blocked || !Plannable(m) ==>
            && report.pendingApprovals == [] && |report.tasks| == |m.tasks|
            && forall i :: 0 <= i < |m.tasks| ==> report.tasks[i].state == Pending && report.tasks[i].attempts == 0)
  {
    PlannableRuns(m);
    ReportShows(m, blocked, o);
    if !blocked && !Plannable(m) {
      var planned := ThePlan(m);
      assert PlanCorrect(m, PlanError(planned.code, planned.detail));
    }
  }

  /** The closing event is the one of the final state; a mission that is not waiting and not
      cancelled asks for nothing; one that runs says first how many tasks and layers it has. */
  lemma EventsOutcome(m: MissionDefinition, blocked: bool, o: Options)
    ensures var report := ReportFor(m, blocked, o);
      && report.events != []
      && var last := report.events[|report.events| - 1];
         && (report.executionState == RunCancelled ==> last == MissionCancelled)
         && (report.executionState == RunWaiting ==> last == MissionPaused(report.pendingApprovals))
         && (report.executionState == RunFailed && Plannable(m) ==> last == MissionFailed(TaskFailure))
         && (report.executionState == RunCompleted ==> last == MissionCompleted)
         && (report.executionState !in {RunWaiting, RunCancelled} ==> report.pendingApprovals == [])
    ensures !blocked && Plannable(m) ==>
      ReportFor(m, blocked, o).events[0] == MissionStarted(|m.tasks|, |Layers(m)|)
  {
    PlannableRuns(m);
    ReportShows(m, blocked, o);
    StoppedOutcome(m, blocked, o);
    if !blocked && Plannable(m) {
      TraceFrame(RunFor(m, o), |m.tasks|);
    }
  }

  lemma TraceFrame(r: Run, tasks: nat)
    ensures var t, asked := RunTrace(r, tasks), SortBy(NotAfter, ApprovalsAsked(r));
      && |t| >= 2 && t[0] == MissionStarted(tasks, |r.layers|)
      && t[|t| - 1]
        == (match FinalState(r)
            case RunCancelled => MissionCancelled
            case RunWaiting => MissionPaused(asked)
            case RunFailed => MissionFailed(TaskFailure)
            case _ => MissionCompleted)
      && FinalState(r) != RunBlocked
      && (FinalState(r) in {RunFailed, RunCompleted} ==> asked == [])
  {
    LayersRunStops(r, 0);
  }

  /** Each record keeps what the mission says of its task. */
  lemma RecordOutcome(m: MissionDefinition, blocked: bool, o: Options, i: nat)
    requires i < |m.tasks|
    ensures var report, t := ReportFor(m, blocked, o), m.tasks[i];
      && |report.tasks| == |m.tasks| && report.tasks[i].id == t.id
      && report.tasks[i].executor == t.executor && report.tasks[i].dependsOn == t.dependsOn
  {
    ReportShows(m, blocked, o);
    if Runs(m, blocked) {
      RecordOf(m, RunFor(m, o), ReportFor(m, blocked, o), i);
    }
  }

  // ----- approvals

  /** The gate, in every report: a task whose approval is missing is never started, completed
      or failed, and only such a task is recorded as waiting. */
  lemma GateOutcome(m: MissionDefinition, blocked: bool, o: Options, i: nat)
    requires i < |m.tasks|
    ensures var report, t := ReportFor(m, blocked, o), m.tasks[i];
      && |report.tasks| == |m.tasks|
      && (report.tasks[i].state == Waiting ==> t.requiresApproval && t.id !in o.approvals)
      && (t.requiresApproval && t.id !in o.approvals ==>
            && TaskStarted(t.id) !in report.events
            && report.tasks[i].state in {Pending, Skipped, Waiting, Cancelled})
  {
    PlannableRuns(m);
    StoppedOutcome(m, blocked, o);
    ReportTaskEvents(m, blocked, o, i);
    CountedOccurs(ReportFor(m, blocked, o).events, TaskStarted(m.tasks[i].id));
    if !blocked && Plannable(m) {
      RunModels(m, o);
      ProcessesOne(m, o, RunFor(m, o), LayersRun(RunFor(m, o)));
      TaskOutcome(m, o, LayersRun(RunFor(m, o)), i);
    }
  }

  /** Without cancellation a task that is reached while its approval is missing waits for it,
      unless it is skipped; and a mission in which that happens is reported as waiting. */
  lemma GateHolds(m: MissionDefinition, o: Options, n: nat, i: nat)
    requires Plannable(m) && Processes(m, o, n) && (forall k :: !o.cancelled(k)) && i < |m.tasks|
    requires Reached(m, n, m.tasks[i].id) && m.tasks[i].requiresApproval && m.tasks[i].id !in o.approvals
    ensures var report := ReportFor(m, false, o);
      && |report.tasks| == |m.tasks|
      && (report.tasks[i].state != Skipped ==>
            report.tasks[i].state == Waiting && report.executionState == RunWaiting
            && m.tasks[i].id in report.pendingApprovals)
  {
    TaskOutcome(m, o, n, i);
    if !Doomed(m, o, m.tasks[i].id) {
      PausesThere(m, o, n, m.tasks[i]);
      MissionOutcome(m, o, n);
      ApprovalsOutcome(m, o, n);
    }
  }

  /** The layer of a task that has to wait is the last one that is processed. */
  lemma PausesThere(m: MissionDefinition, o: Options, n: nat, t: TaskDefinition)
    requires Processes(m, o, n) && t in m.tasks && Reached(m, n, t.id)
    requires t.requiresApproval && t.id !in o.approvals && !Doomed(m, o, t.id)
    ensures LacksApproval(m, o, t.id) && PausedAt(m, o, n) && t.id in Layers(m)[n - 1]
  {
    assert LacksApproval(m, o, t.id);
    var k :| 0 <= k < n && t.id in Layers(m)[k];
    assert Pauses(m, o, Layers(m)[k]);
    assert k == n - 1;
  }

  // ----- attempts

  /** What state and number of attempts say of each other. A completed task succeeded at that
      attempt and at no earlier one, and the policy allows it. A failed task with an executor
      failed in every attempt the policy allows, and made them all. Nothing else was
      attempted. */
  ghost predicate AttemptsRight(o: Options, t: TaskDefinition, state: TaskState, n: nat) {
    && (state == Completed ==>
          && t.executor in o.registered && MayAttempt(t.retry, n) && o.succeeds(t.id, n)
          && forall a: nat :: MayAttempt(t.retry, a) && a < n ==> !o.succeeds(t.id, a))
    && (state == Failed && t.executor in o.registered ==>
          forall a: nat :: (MayAttempt(t.retry, a) <==> 1 <= a <= n) && (1 <= a <= n ==> !o.succeeds(t.id, a)))
    && (state == Failed && t.executor !in o.registered ==> n == 0)
    && (state !in {Completed, Failed} ==> n == 0)
  }

  lemma AttemptsOutcome(m: MissionDefinition, blocked: bool, o: Options, i: nat)
    requires i < |m.tasks|
    ensures var report := ReportFor(m, blocked, o);
      |report.tasks| == |m.tasks| && AttemptsRight(o, m.tasks[i], report.tasks[i].state, report.tasks[i].attempts)
  {
    PlannableRuns(m);
    StoppedOutcome(m, blocked, o);
    if Runs(m, blocked) {
      RunModels(m, o);
      RecordOf(m, RunFor(m, o), ReportFor(m, blocked, o), i);
      AttemptsOfTask(m, o, ThePlan(m).plan, i);
      SucceedingById(m, o, m.tasks[i]);
      EndsAsDispatched(m, o, RunFor(m, o), m.tasks[i]);
      DispatchRight(o, m.tasks[i], FinalProgress(RunFor(m, o), m.tasks[i].id));
    }
  }

  /** A task that ends completed or failed does so as its dispatch comes out. */
  lemma EndsAsDispatched(m: MissionDefinition, o: Options, r: Run, t: TaskDefinition)
    requires Models(m, o, r) && t.id in r.g && (t.id in SucceedingTasks(m, o) <==> WouldSucceed(o, t))
    requires var p := FinalProgress(r, t.id); p.state in {Completed, Failed} ==> p.attempts == Dispatch(o, t).attempts
    ensures var p := FinalProgress(r, t.id);
      if p.state in {Completed, Failed} then Dispatch(o, t) == AttemptOutcome(p.state == Completed, p.attempts)
      else p.attempts == 0
  {
    LayersRunStops(r, 0);
    DispatchSucceeds(o, t);
    assert SettledState(r, t.id) == OnceReached(m, o, t.id);
  }

  lemma DispatchRight(o: Options, t: TaskDefinition, p: Progress)
    requires if p.state in {Completed, Failed} then Dispatch(o, t) == AttemptOutcome(p.state == Completed, p.attempts)
      else p.attempts == 0
    ensures AttemptsRight(o, t, p.state, p.attempts)
  {
    var limit := EffectiveAttempts(t.retry);
    OkIffSomeAttemptSucceeds(o.succeeds, t.id, limit);
    forall a: nat ensures MayAttempt(t.retry, a) <==> 1 <= a <= limit {
      AllowedAttempts(t.retry, a);
    }
  }

  /** With approvals granted and no cancellation, a task with a registered executor, a finite
      policy and nothing below that would not succeed is completed if and only if the first
      attempt or a later one that is not beyond `maxAttempts` succeeds; else it is failed. */
  lemma FinitePolicyOutcome(m: MissionDefinition, o: Options, i: nat)
    requires Plannable(m) && i < |m.tasks|
    requires forall t :: t in m.tasks && t.requiresApproval ==> t.id in o.approvals
    requires forall k :: !o.cancelled(k)
    requires m.tasks[i].executor in o.registered && m.tasks[i].retry.Finite?
    requires !FailureBelow(GraphOf(m), SucceedingTasks(m, o), m.tasks[i].id)
    ensures var report, t := ReportFor(m, false, o), m.tasks[i];
      && |report.tasks| == |m.tasks|
      && (report.tasks[i].state == Completed <==>
            exists a: nat :: (a == 1 || (a >= 1 && a as real <= t.retry.maxAttempts)) && o.succeeds(t.id, a))
      && report.tasks[i].state in {Completed, Failed}
  {
    GrantedReport(m, o, i);
    var t := m.tasks[i];
    if a: nat :| (a == 1 || (a >= 1 && a as real <= t.retry.maxAttempts)) && o.succeeds(t.id, a) {
      assert MayAttempt(t.retry, a);
    }
  }

  // ----- figures

  /** The figures of every report count what they name: the records in each state, the
      attempts made, and the attempts after a task's first. */
  lemma FiguresOutcome(m: MissionDefinition, blocked: bool, o: Options)
    ensures var report, s := ReportFor(m, blocked, o), ReportFor(m, blocked, o).summary;
      && s.total == |report.tasks| == |m.tasks|
      && s.completed == |InState(report.tasks, Completed)| && s.failed == |InState(report.tasks, Failed)|
      && s.skipped == |InState(report.tasks, Skipped)| && s.cancelled == |InState(report.tasks, Cancelled)|
      && s.waiting == |InState(report.tasks, Waiting)| && s.pending == |InState(report.tasks, Pending)|
      && s.running == |InState(report.tasks, Running)|
      && report.totalAttempts == |AttemptsFrom(report.tasks, 1)|
      && report.totalRetries == |AttemptsFrom(report.tasks, 2)|
  {
    var records := ReportFor(m, blocked, o).tasks;
    OneRecordEach(m, blocked, o);
    forall state ensures Count(records, state) == |InState(records, state)| {
      CountIs(records, state);
    }
    AttemptsAre(records);
  }
}
