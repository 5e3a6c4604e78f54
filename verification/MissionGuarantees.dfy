/** What every report of `Runtime.ExecuteMission` guarantees, in the terms of the mission
    and the options the caller passed. */
module MissionGuarantees {
  import opened Sorting
  import opened MissionTypes
  import opened RetryManager
  import opened DependencyGraph
  import opened ExecutionPlanner
  import opened PlanProperties
  import opened DagMeaning
  import opened MissionRun
  import opened MissionReport
  import opened MissionRuntime
  import opened MissionStates
  import opened MissionTrace

  /** A mission the planner accepts: unique ids, known dependencies, no cycle. */
  ghost predicate Plannable(m: MissionDefinition) {
    WellFormed(m) && !HasCycle(GraphOf(m))
  }

  /** The records and approvals of the report are those of run `r`. */
  ghost predicate ReportsRun(m: MissionDefinition, r: Run, report: Report) {
    && report.executionState == FinalState(r) && report.tasks == FinalRecords(m, r)
    && report.pendingApprovals == SortBy(NotAfter, ApprovalsAsked(r))
    && r.g.Keys == Elements(m.Ids())
  }

  /** The report shows that nothing was started. */
  ghost predicate NothingRan(m: MissionDefinition, report: Report) {
    && report.executionState in {RunBlocked, RunFailed} && |report.tasks| == |m.tasks|
    && (forall i :: 0 <= i < |m.tasks| ==> report.tasks[i].state == Pending && report.tasks[i].attempts == 0)
    && exists reason :: report.events == [MissionFailed(reason)]
  }

  /** Governance and the planner let the mission run. */
  ghost predicate Runs(m: MissionDefinition, blocked: bool) {
    !blocked && ThePlan(m).Planned?
  }

  ghost function RunFor(m: MissionDefinition, o: Options): Run
    requires ThePlan(m).Planned?
  {
    RunOf(m, o, ThePlan(m).plan)
  }

  lemma PlannableRuns(m: MissionDefinition)
    ensures Runs(m, false) <==> Plannable(m)
  {
    FailsIffCycle(m, ThePlan(m));
  }

  lemma InitialRecords(m: MissionDefinition, i: nat)
    requires i < |m.tasks|
    ensures var t := Records(m, InitialProgress(m))[i]; t.state == Pending && t.attempts == 0
  {
    assert m.Ids()[i] in m.Ids();
  }

  lemma InitialNothingRan(m: MissionDefinition, state: ExecutionState, reason: FailureReason)
    requires state in {RunBlocked, RunFailed}
    ensures NothingRan(m, ReportOf(Ending(state, Records(m, InitialProgress(m)), [MissionFailed(reason)], [])))
  {
    forall i | 0 <= i < |m.tasks|
      ensures var t := Records(m, InitialProgress(m))[i]; t.state == Pending && t.attempts == 0
    {
      InitialRecords(m, i);
    }
  }

  /** Every report shows either that nothing ran, or the run of the mission's plan. */
  lemma ReportShows(m: MissionDefinition, blocked: bool, o: Options)
    ensures !Runs(m, blocked) ==> NothingRan(m, ReportFor(m, blocked, o))
    ensures Runs(m, blocked) ==> IsPlan(m, ThePlan(m).plan) && ReportsRun(m, RunFor(m, o), ReportFor(m, blocked, o))
    ensures Runs(m, blocked) ==> ReportFor(m, blocked, o).events == RunTrace(RunFor(m, o), |m.tasks|)
    ensures Runs(m, blocked) ==> ValidRun(RunFor(m, o)) && Acyclic(GraphOf(m))
  {
    if blocked {
      InitialNothingRan(m, RunBlocked, GovernanceBlocked);
    } else {
      match ThePlan(m)
      case Planned(plan) =>
        RunOfPlan(m, o, plan);
        RunDescribes(m, o, plan);
      case PlanError(code, detail) =>
        InitialNothingRan(m, RunFailed, PlanFailure(code, detail));
    }
  }

  lemma RecordOf(m: MissionDefinition, r: Run, report: Report, i: nat)
    requires ReportsRun(m, r, report) && i < |m.tasks|
    ensures |report.tasks| == |m.tasks| && m.tasks[i].id in r.g
    ensures var t, p := m.tasks[i], FinalProgress(r, m.tasks[i].id);
      report.tasks[i] == TaskRecord(t.id, t.executor, p.state, t.dependsOn, p.attempts)
  {
    assert m.Ids()[i] in Elements(m.Ids());
  }

  /** Every report has one record for each task, in the order of the mission. */
  lemma OneRecordEach(m: MissionDefinition, blocked: bool, o: Options)
    ensures |ReportFor(m, blocked, o).tasks| == |m.tasks|
  {
    ReportShows(m, blocked, o);
  }

  // ----- the meaning of a report

  /** A registered executor and some successful attempt within the retry policy. */
  ghost predicate WouldSucceed(o: Options, t: TaskDefinition) {
    && t.executor in o.registered
    && exists a: nat :: MayAttempt(t.retry, a) && o.succeeds(t.id, a)
  }

  ghost function SucceedingTasks(m: MissionDefinition, o: Options): set<Id> {
    set t | t in m.tasks && WouldSucceed(o, t) :: t.id
  }

  lemma DispatchSucceeds(o: Options, t: TaskDefinition)
    ensures Dispatch(o, t).ok <==> WouldSucceed(o, t)
  {
    OkIffSomeAttemptSucceeds(o.succeeds, t.id, EffectiveAttempts(t.retry));
    forall a: nat ensures 1 <= a <= EffectiveAttempts(t.retry) <==> MayAttempt(t.retry, a) {
      AllowedAttempts(t.retry, a);
    }
  }

  lemma SuccessMeaning(m: MissionDefinition, o: Options, plan: ExecutionPlan)
    requires NoRepeats(m.Ids())
    ensures RunOf(m, o, plan).ok == SucceedingTasks(m, o)
  {
    TaskTableComplete(m);
    TableIds(m);
    var table := TaskTable(m.tasks);
    forall x | x in table ensures table[x] in m.tasks && (Dispatch(o, table[x]).ok <==> WouldSucceed(o, table[x])) {
      var i :| 0 <= i < |m.Ids()| && m.Ids()[i] == x;
      assert table[m.tasks[i].id] == m.tasks[i];
      DispatchSucceeds(o, table[x]);
    }
    forall t | t in m.tasks ensures t.id in table && table[t.id] == t {
      var i :| 0 <= i < |m.tasks| && m.tasks[i] == t;
    }
  }

  /** Whatever was approved and cancelled: every record that ended holds its task's meaning.
      It is skipped when something the task transitively depends on would not succeed, and
      otherwise completed or failed as the task's own attempts come out. */
  lemma TerminalReport(m: MissionDefinition, blocked: bool, o: Options, i: nat)
    requires i < |m.tasks|
    ensures var report := ReportFor(m, blocked, o);
      && |report.tasks| == |m.tasks| && report.tasks[i].id == m.tasks[i].id
      && (Terminal(report.tasks[i].state) ==>
            report.tasks[i].state
              == Verdict(FailureBelow(GraphOf(m), SucceedingTasks(m, o), m.tasks[i].id), WouldSucceed(o, m.tasks[i])))
  {
    ReportShows(m, blocked, o);
    if Runs(m, blocked) {
      RecordOf(m, RunFor(m, o), ReportFor(m, blocked, o), i);
      if Terminal(ReportFor(m, blocked, o).tasks[i].state) {
        TerminalIsMeaning(RunFor(m, o), m.tasks[i].id);
        SuccessMeaning(m, o, ThePlan(m).plan);
        SucceedingById(m, o, m.tasks[i]);
      }
    }
  }

  /** With every needed approval given and no cancellation, each record of the report holds
      its task's meaning: skipped when something it transitively depends on would not
      succeed, else completed or failed as its own attempts come out; and the mission is
      completed exactly when every task would succeed. */
  lemma GrantedReport(m: MissionDefinition, o: Options, i: nat)
    requires Plannable(m) && i < |m.tasks|
    requires forall t :: t in m.tasks && t.requiresApproval ==> t.id in o.approvals
    requires forall k :: !o.cancelled(k)
    ensures var report := ReportFor(m, false, o);
      && |report.tasks| == |m.tasks| && report.tasks[i].id == m.tasks[i].id
      && report.tasks[i].state
        == Verdict(FailureBelow(GraphOf(m), SucceedingTasks(m, o), m.tasks[i].id), WouldSucceed(o, m.tasks[i]))
      && report.executionState
        == if forall t :: t in m.tasks ==> WouldSucceed(o, t) then RunCompleted else RunFailed
  {
    PlannableRuns(m);
    ReportShows(m, false, o);
    var r := RunFor(m, o);
    RecordOf(m, r, ReportFor(m, false, o), i);
    GrantedRun(m, o, r, i);
    TerminalReport(m, false, o, i);
  }

  lemma GrantedRun(m: MissionDefinition, o: Options, r: Run, i: nat)
    requires NoRepeats(m.Ids()) && i < |m.tasks| && ThePlan(m).Planned? && r == RunFor(m, o)
    requires ValidRun(r) && Acyclic(GraphOf(m)) && r.g.Keys == Elements(m.Ids())
    requires forall t :: t in m.tasks && t.requiresApproval ==> t.id in o.approvals
    requires forall k :: !o.cancelled(k)
    ensures m.tasks[i].id in r.g && Terminal(FinalProgress(r, m.tasks[i].id).state)
    ensures FinalState(r) == if forall t :: t in m.tasks ==> WouldSucceed(o, t) then RunCompleted else RunFailed
  {
    assert m.Ids()[i] in Elements(m.Ids());
    SuccessMeaning(m, o, ThePlan(m).plan);
    NothingGated(m, o, ThePlan(m).plan);
    GrantedRunIsMeaning(r, m.tasks[i].id);
    forall t | t in m.tasks ensures t.id in r.g && (t.id in r.ok <==> WouldSucceed(o, t)) {
      SucceedingById(m, o, t);
    }
    AllSucceed(m, o);
  }

  lemma SucceedingById(m: MissionDefinition, o: Options, t: TaskDefinition)
    requires NoRepeats(m.Ids()) && t in m.tasks
    ensures t.id in m.Ids() && (t.id in SucceedingTasks(m, o) <==> WouldSucceed(o, t))
  {
    var i :| 0 <= i < |m.tasks| && m.tasks[i] == t;
    assert m.Ids()[i] == t.id;
    forall u | u in m.tasks && u.id == t.id ensures u == t {
      var j :| 0 <= j < |m.tasks| && m.tasks[j] == u;
      assert m.Ids()[j] == u.id;
    }
  }

  lemma AllSucceed(m: MissionDefinition, o: Options)
    requires NoRepeats(m.Ids())
    ensures Elements(m.Ids()) <= SucceedingTasks(m, o) <==> forall t :: t in m.tasks ==> WouldSucceed(o, t)
  {
    forall t | t in m.tasks ensures t.id in m.Ids() && (t.id in SucceedingTasks(m, o) <==> WouldSucceed(o, t)) {
      SucceedingById(m, o, t);
    }
    forall x | x in m.Ids() ensures exists t :: t in m.tasks && t.id == x {
      var i :| 0 <= i < |m.Ids()| && m.Ids()[i] == x;
      assert m.tasks[i].id == x;
    }
  }

  lemma NothingGated(m: MissionDefinition, o: Options, plan: ExecutionPlan)
    requires NoRepeats(m.Ids())
    requires forall t :: t in m.tasks && t.requiresApproval ==> t.id in o.approvals
    ensures RunOf(m, o, plan).gated == {}
  {
    TaskTableComplete(m);
    var table := TaskTable(m.tasks);
    forall x | x in table ensures !NeedsApproval(o, table[x]) {
      var i :| 0 <= i < |m.Ids()| && m.Ids()[i] == x;
      assert table[m.tasks[i].id] == m.tasks[i];
    }
  }

  /** Two executions of one mission that differ only in that the second has more approvals:
      whatever the first completed, failed or skipped, the second did too, in as many
      attempts; what the first left waiting still waits if its approval is still missing. */
  lemma ReportsMonotone(m: MissionDefinition, blocked: bool, o1: Options, o2: Options, i: nat)
    requires o2 == o1.(approvals := o2.approvals) && o1.approvals <= o2.approvals
    requires i < |m.tasks|
    ensures var r1, r2 := ReportFor(m, blocked, o1), ReportFor(m, blocked, o2);
      && |r1.tasks| == |r2.tasks| == |m.tasks|
      && (Terminal(r1.tasks[i].state) ==> r2.tasks[i] == r1.tasks[i])
      && (r1.tasks[i].state == Waiting && m.tasks[i].id !in o2.approvals ==> r2.tasks[i].state == Waiting)
  {
    ReportShows(m, blocked, o1);
    ReportShows(m, blocked, o2);
    if Runs(m, blocked) {
      MoreApprovalsGateLess(m, o1, o2, ThePlan(m).plan);
      GatedById(m, o2, ThePlan(m).plan, i);
      GatedById(m, o1, ThePlan(m).plan, i);
      RecordsMonotone(m, RunFor(m, o1), ReportFor(m, blocked, o1), RunFor(m, o2), ReportFor(m, blocked, o2), i);
    }
  }

  lemma RecordsMonotone(m: MissionDefinition, run1: Run, r1: Report, run2: Run, r2: Report, i: nat)
    requires ValidRun(run1) && ReportsRun(m, run1, r1) && ValidRun(run2) && ReportsRun(m, run2, r2)
    requires run2 == run1.(gated := run2.gated) && run2.gated <= run1.gated
    requires i < |m.tasks|
    ensures |r1.tasks| == |r2.tasks| == |m.tasks|
    ensures Terminal(r1.tasks[i].state) ==> r2.tasks[i] == r1.tasks[i]
    ensures r1.tasks[i].state == Waiting ==> m.tasks[i].id in run1.gated
    ensures r1.tasks[i].state == Waiting && m.tasks[i].id in run2.gated ==> r2.tasks[i].state == Waiting
  {
    RecordOf(m, run1, r1, i);
    RecordOf(m, run2, r2, i);
    ApprovalsMonotone(run1, run2, m.tasks[i].id);
    MeaningIsVerdict(run1, m.tasks[i].id);
  }

  lemma MoreApprovalsGateLess(m: MissionDefinition, o1: Options, o2: Options, plan: ExecutionPlan)
    requires o2 == o1.(approvals := o2.approvals) && o1.approvals <= o2.approvals
    ensures RunOf(m, o2, plan) == RunOf(m, o1, plan).(gated := RunOf(m, o2, plan).gated)
    ensures RunOf(m, o2, plan).gated <= RunOf(m, o1, plan).gated
  {
    var table := TaskTable(m.tasks);
    assert forall x :: x in table ==> Dispatch(o1, table[x]) == Dispatch(o2, table[x]);
    var a, b := RunOf(m, o1, plan), RunOf(m, o2, plan);
    assert a.ok == b.ok && a.attempts == b.attempts;
  }

  // ----- rounds of approval

  /** With these options the mission is reported as waiting. */
  ghost predicate Waits(m: MissionDefinition, o: Options) {
    ReportFor(m, false, o).executionState == RunWaiting
  }

  /** The later round was granted everything that the report of the earlier one asks for,
      and differs from it at most in more approvals and in cancellation. */
  ghost predicate NextRound(m: MissionDefinition, o1: Options, o2: Options) {
    && o2 == o1.(approvals := o2.approvals, cancelled := o2.cancelled)
    && o1.approvals + Elements(ReportFor(m, false, o1).pendingApprovals) <= o2.approvals
  }

  lemma WaitingPaused(r: Run)
    requires ValidRun(r) && FinalState(r) == RunWaiting
    ensures PausedAfter(r, LayersRun(r)) && LayersRun(r) <= |r.layers|
  {
    LoopStops(r);
  }

  lemma RoundLater(m: MissionDefinition, o1: Options, o2: Options)
    requires Plannable(m) && NextRound(m, o1, o2)
    ensures Waits(m, o1) && Waits(m, o2) ==> Height(m, o1) < Height(m, o2)
  {
    PlannableRuns(m);
    if Waits(m, o1) && Waits(m, o2) {
      ReportShows(m, false, o1);
      ReportShows(m, false, o2);
      var r1, r2 := RunFor(m, o1), RunFor(m, o2);
      WaitingPaused(r1);
      WaitingPaused(r2);
      SortByFacts(NotAfter, ApprovalsAsked(r1));
      RoundGatesLess(m, o1, o2, ThePlan(m).plan);
      NextPauseLater(r1, r2);
    }
  }

  lemma RoundGatesLess(m: MissionDefinition, o1: Options, o2: Options, plan: ExecutionPlan)
    requires o2 == o1.(approvals := o2.approvals, cancelled := o2.cancelled) && o1.approvals <= o2.approvals
    requires NoRepeats(m.Ids())
    ensures var r1, r2 := RunOf(m, o1, plan), RunOf(m, o2, plan);
      && r2 == r1.(gated := r2.gated, cancelled := r2.cancelled)
      && r2.gated <= r1.gated - o2.approvals
  {
    TableIds(m);
    var table := TaskTable(m.tasks);
    assert forall x :: x in table ==> Dispatch(o1, table[x]) == Dispatch(o2, table[x]);
    var a, b := RunOf(m, o1, plan), RunOf(m, o2, plan);
    assert a.ok == b.ok && a.attempts == b.attempts;
  }

  /** How many layers the run of this round processes. */
  ghost function Height(m: MissionDefinition, o: Options): nat {
    if ThePlan(m).Planned? then LayersRun(RunFor(m, o)) else 0
  }

  /** Where a round pauses: at least one layer was processed. */
  lemma RoundPauses(m: MissionDefinition, o: Options)
    requires Plannable(m) && Waits(m, o)
    ensures ThePlan(m).Planned? && 0 < Height(m, o) <= |ThePlan(m).plan.layers|
  {
    PlannableRuns(m);
    ReportShows(m, false, o);
    WaitingPaused(RunFor(m, o));
  }

  /** Every round pauses, and each was granted what the one before asked for. */
  ghost predicate Rounds(m: MissionDefinition, rounds: seq<Options>) {
    && (forall k {:trigger Waits(m, rounds[k])} :: 0 <= k < |rounds| ==> Waits(m, rounds[k]))
    && (forall k {:trigger NextRound(m, rounds[k - 1], rounds[k])} ::
          0 < k < |rounds| ==> NextRound(m, rounds[k - 1], rounds[k]))
  }

  lemma RoundClimbs(m: MissionDefinition, rounds: seq<Options>, k: nat)
    requires Plannable(m) && Rounds(m, rounds) && 0 < k < |rounds|
    ensures Height(m, rounds[k - 1]) < Height(m, rounds[k])
  {
    var o1, o2 := rounds[k - 1], rounds[k];
    assert Waits(m, rounds[k - 1]);
    assert Waits(m, rounds[k]);
    assert NextRound(m, rounds[k - 1], rounds[k]);
    RoundLater(m, o1, o2);
  }

  /** What climbs from above zero with every step is high after many. */
  lemma {:induction false} Climbs(heights: seq<nat>)
    requires forall k :: 0 < k < |heights| ==> heights[k - 1] < heights[k]
    requires heights != [] && heights[0] > 0
    ensures |heights| <= heights[|heights| - 1]
  {
    var n := |heights| - 1;
    if n > 0 {
      assert heights[..n][n - 1] == heights[n - 1];
      Climbs(heights[..n]);
      assert heights[n - 1] < heights[n];
    }
  }

  lemma RoundEnds(m: MissionDefinition, rounds: seq<Options>)
    requires Plannable(m) && Rounds(m, rounds) && rounds != []
    ensures ThePlan(m).Planned? && 0 < Height(m, rounds[0])
    ensures Height(m, rounds[|rounds| - 1]) <= |ThePlan(m).plan.layers|
  {
    assert Waits(m, rounds[0]);
    assert Waits(m, rounds[|rounds| - 1]);
    RoundPauses(m, rounds[0]);
    RoundPauses(m, rounds[|rounds| - 1]);
  }

  /** A mission pauses in at most as many rounds as it has layers, when each round is granted
      what the one before asked for. */
  lemma RoundsBounded(m: MissionDefinition, rounds: seq<Options>)
    requires Plannable(m) && Rounds(m, rounds)
    ensures ThePlan(m).Planned? && |rounds| <= |ThePlan(m).plan.layers|
  {
    if rounds == [] {
      PlannableRuns(m);
    } else {
      var heights: seq<nat> := seq(|rounds|, k requires 0 <= k < |rounds| => Height(m, rounds[k]));
      forall k | 0 < k < |heights| ensures heights[k - 1] < heights[k] {
        RoundClimbs(m, rounds, k);
      }
      RoundEnds(m, rounds);
      Climbs(heights);
    }
  }

  lemma GatedById(m: MissionDefinition, o: Options, plan: ExecutionPlan, i: nat)
    requires NoRepeats(m.Ids()) && i < |m.tasks|
    ensures m.tasks[i].id in RunOf(m, o, plan).gated <==> m.tasks[i].requiresApproval && m.tasks[i].id !in o.approvals
  {
    TaskTableComplete(m);
  }

  // ----- completed and waiting reports

  lemma CompletedRecords(m: MissionDefinition, r: Run, report: Report)
    requires ValidRun(r) && ReportsRun(m, r, report) && report.executionState == RunCompleted
    ensures |report.tasks| == |m.tasks|
    ensures (forall i :: 0 <= i < |m.tasks| ==> report.tasks[i].state == Completed)
      <==> (forall k :: 0 <= k < |r.layers| ==> !r.cancelled(k))
  {
    CompletedExactly(r);
    forall i | 0 <= i < |m.tasks|
      ensures m.tasks[i].id in r.g && report.tasks[i].state == FinalProgress(r, m.tasks[i].id).state
    {
      RecordOf(m, r, report, i);
    }
    forall x | x in r.g ensures exists i :: 0 <= i < |m.tasks| && m.tasks[i].id == x {
      var i :| 0 <= i < |m.Ids()| && m.Ids()[i] == x;
      assert m.tasks[i].id == x;
    }
  }

  /** A mission reported as completed has completed every task exactly when no poll before
      one of its layers was answered with a cancellation. */
  lemma CompletedReportExactly(m: MissionDefinition, blocked: bool, o: Options)
    ensures var report := ReportFor(m, blocked, o);
      report.executionState == RunCompleted ==>
        && |report.tasks| == |m.tasks| && ThePlan(m).Planned?
        && ((forall i :: 0 <= i < |m.tasks| ==> report.tasks[i].state == Completed)
            <==> (forall k :: 0 <= k < |ThePlan(m).plan.layers| ==> !o.cancelled(k)))
  {
    ReportShows(m, blocked, o);
    if ReportFor(m, blocked, o).executionState == RunCompleted {
      CompletedRecords(m, RunFor(m, o), ReportFor(m, blocked, o));
    }
  }

  /** A mission reported as completed has completed every task, for every cancellation
      predicate that does not go back from true to false. */
  lemma CompletedReport(m: MissionDefinition, blocked: bool, o: Options, i: nat)
    requires Steady(o.cancelled) && i < |m.tasks|
    ensures var report := ReportFor(m, blocked, o);
      |report.tasks| == |m.tasks| && (report.executionState == RunCompleted ==> report.tasks[i].state == Completed)
  {
    ReportShows(m, blocked, o);
    if ReportFor(m, blocked, o).executionState == RunCompleted {
      RecordOf(m, RunFor(m, o), ReportFor(m, blocked, o), i);
      SteadyCancellationCompletes(RunFor(m, o), m.tasks[i].id);
    }
  }

  lemma WaitingList(r: Run)
    requires ValidRun(r) && FinalState(r) == RunWaiting
    ensures var list := SortBy(NotAfter, ApprovalsAsked(r));
      && list != [] && Sorted(NotAfter, list)
      && forall x :: x in list <==> x in r.g && FinalProgress(r, x).state == Waiting
  {
    WaitingMission(r);
    SortBySorts(ApprovalsAsked(r));
    SortByFacts(NotAfter, ApprovalsAsked(r));
  }

  /** `pendingApprovals` is the sorted, non-empty list of exactly the waiting tasks. Each of
      them lacks its approval, and its dependencies are completed. */
  ghost predicate ListsWaiting(m: MissionDefinition, o: Options, report: Report) {
    && report.pendingApprovals != [] && Sorted(NotAfter, report.pendingApprovals)
    && (forall x :: x in report.pendingApprovals ==> x in m.Ids())
    && |report.tasks| == |m.tasks|
    && forall i :: 0 <= i < |m.tasks| ==>
      && (report.tasks[i].state == Waiting <==> m.tasks[i].id in report.pendingApprovals)
      && (report.tasks[i].state == Waiting ==>
            m.tasks[i].requiresApproval && m.tasks[i].id !in o.approvals && DependenciesDone(m, report, i))
  }

  /** Every waiting report lists its waiting tasks, rightly. */
  lemma WaitingReport(m: MissionDefinition, blocked: bool, o: Options)
    ensures ReportFor(m, blocked, o).executionState == RunWaiting ==> ListsWaiting(m, o, ReportFor(m, blocked, o))
  {
    ReportShows(m, blocked, o);
    if ReportFor(m, blocked, o).executionState == RunWaiting {
      RunMirrors(m, o, ThePlan(m).plan);
      WaitingRecords(m, o, RunFor(m, o), ReportFor(m, blocked, o));
    }
  }

  /** The gates and dependencies of the run are those of the mission's tasks. */
  ghost predicate Mirrors(m: MissionDefinition, o: Options, r: Run) {
    forall i {:trigger m.tasks[i]} :: 0 <= i < |m.tasks| ==>
      && m.tasks[i].id in r.g && r.g[m.tasks[i].id] == Elements(m.tasks[i].dependsOn)
      && (m.tasks[i].id in r.gated <==> m.tasks[i].requiresApproval && m.tasks[i].id !in o.approvals)
  }

  lemma RunMirrors(m: MissionDefinition, o: Options, plan: ExecutionPlan)
    requires NoRepeats(m.Ids())
    ensures Mirrors(m, o, RunOf(m, o, plan))
  {
    forall i | 0 <= i < |m.tasks|
      ensures m.tasks[i].id in GraphOf(m) && GraphOf(m)[m.tasks[i].id] == Elements(m.tasks[i].dependsOn)
      ensures m.tasks[i].id in RunOf(m, o, plan).gated <==> m.tasks[i].requiresApproval && m.tasks[i].id !in o.approvals
    {
      GraphAt(m, i);
      GatedById(m, o, plan, i);
    }
  }

  lemma WaitingRecords(m: MissionDefinition, o: Options, r: Run, report: Report)
    requires Mirrors(m, o, r) && ValidRun(r) && ReportsRun(m, r, report) && report.executionState == RunWaiting
    ensures ListsWaiting(m, o, report)
  {
    WaitingList(r);
    assert |report.tasks| == |m.tasks|;
    forall x | x in report.pendingApprovals ensures x in m.Ids() {
      assert x in Elements(m.Ids());
    }
    forall i | 0 <= i < |m.tasks|
      ensures report.tasks[i].state == Waiting <==> m.tasks[i].id in report.pendingApprovals
      ensures report.tasks[i].state == Waiting ==>
        m.tasks[i].requiresApproval && m.tasks[i].id !in o.approvals && DependenciesDone(m, report, i)
    {
      RecordOf(m, r, report, i);
      if report.tasks[i].state == Waiting {
        WaitingTask(m, o, r, report, i);
      }
    }
  }

  /** Every dependency of the `i`-th task is recorded as completed. */
  ghost predicate DependenciesDone(m: MissionDefinition, report: Report, i: nat) {
    i < |m.tasks| == |report.tasks| &&
    forall j :: 0 <= j < |m.tasks| && m.tasks[j].id in m.tasks[i].dependsOn ==> report.tasks[j].state == Completed
  }

  lemma WaitingTask(m: MissionDefinition, o: Options, r: Run, report: Report, i: nat)
    requires Mirrors(m, o, r) && ValidRun(r) && ReportsRun(m, r, report) && report.executionState == RunWaiting
    requires i < |m.tasks| == |report.tasks| && report.tasks[i].state == Waiting
    ensures m.tasks[i].requiresApproval && m.tasks[i].id !in o.approvals && DependenciesDone(m, report, i)
  {
    RecordOf(m, r, report, i);
    WaitingMission(r);
    forall j | 0 <= j < |m.tasks| && m.tasks[j].id in m.tasks[i].dependsOn ensures report.tasks[j].state == Completed {
      RecordOf(m, r, report, j);
      assert m.tasks[j].id in r.g[m.tasks[i].id];
    }
  }

  // ----- reports of every kind

  /** Some task that the `i`-th transitively depends on is recorded as failed. */
  ghost predicate FailedBelow(m: MissionDefinition, report: Report, i: nat) {
    i < |m.tasks| == |report.tasks| &&
    exists p, j {:trigger LeadsTo(GraphOf(m), m.tasks[i].id, p), m.tasks[j]} ::
      LeadsTo(GraphOf(m), m.tasks[i].id, p) && 0 <= j < |m.tasks|
      && m.tasks[j].id == p[|p| - 1] && report.tasks[j].state == Failed
  }

  /** In every report a task is skipped exactly when it was reached and some task that it
      transitively depends on is recorded as failed. */
  lemma SkippedReport(m: MissionDefinition, blocked: bool, o: Options, i: nat)
    requires i < |m.tasks|
    ensures var report := ReportFor(m, blocked, o);
      && |report.tasks| == |m.tasks|
      && (report.tasks[i].state == Skipped <==>
            report.tasks[i].state !in {Pending, Cancelled} && FailedBelow(m, report, i))
  {
    ReportShows(m, blocked, o);
    var report := ReportFor(m, blocked, o);
    if Runs(m, blocked) {
      RecordOf(m, RunFor(m, o), report, i);
      if report.tasks[i].state !in {Pending, Cancelled} {
        SkippedRecord(m, RunFor(m, o), report, i);
      }
    }
  }

  lemma SkippedRecord(m: MissionDefinition, r: Run, report: Report, i: nat)
    requires ValidRun(r) && Acyclic(r.g) && r.g == GraphOf(m) && ReportsRun(m, r, report)
    requires i < |m.tasks| == |report.tasks| && report.tasks[i].state !in {Pending, Cancelled}
    ensures report.tasks[i].state == Skipped <==> FailedBelow(m, report, i)
  {
    var x := m.tasks[i].id;
    RecordOf(m, r, report, i);
    LoopStops(r);
    SkippedExactly(r, x);
    forall p | LeadsTo(r.g, x, p)
      ensures exists j :: 0 <= j < |m.tasks| && m.tasks[j].id == p[|p| - 1]
      ensures forall j :: 0 <= j < |m.tasks| && m.tasks[j].id == p[|p| - 1] ==>
        report.tasks[j].state == FinalProgress(r, p[|p| - 1]).state
    {
    }
  }

  /** In every report each task starts as often as it ends: once if it is recorded as
      completed or failed, with that very end event, and otherwise never. */
  lemma ReportTaskEvents(m: MissionDefinition, blocked: bool, o: Options, i: nat)
    requires i < |m.tasks|
    ensures var report := ReportFor(m, blocked, o);
      && |report.tasks| == |m.tasks|
      && var x, state, times := m.tasks[i].id, report.tasks[i].state, multiset(report.events);
         && times[TaskCompleted(x)] == (if state == Completed then 1 else 0)
         && times[TaskFailed(x)] == (if state == Failed then 1 else 0)
         && times[TaskStarted(x)] == times[TaskCompleted(x)] + times[TaskFailed(x)]
  {
    ReportShows(m, blocked, o);
    if Runs(m, blocked) {
      RecordOf(m, RunFor(m, o), ReportFor(m, blocked, o), i);
      TaskEventsExact(RunFor(m, o), |m.tasks|, m.tasks[i].id);
    }
  }

  lemma DispatchAttempts(o: Options, t: TaskDefinition)
    ensures Dispatch(o, t).attempts >= 1 <==> t.executor in o.registered && !t.retry.NotANumber?
  {
    AtLeastOneAttempt(t.retry);
    OkIffSomeAttemptSucceeds(o.succeeds, t.id, EffectiveAttempts(t.retry));
  }

  /** In every report a task that is recorded as completed or failed was attempted at least
      once if and only if its executor is registered and its retry policy is not NaN. */
  lemma AttemptedExactly(m: MissionDefinition, blocked: bool, o: Options, i: nat)
    requires i < |m.tasks|
    ensures var report := ReportFor(m, blocked, o);
      && |report.tasks| == |m.tasks|
      && (report.tasks[i].state in {Completed, Failed} ==>
            (report.tasks[i].attempts >= 1 <==> m.tasks[i].executor in o.registered && !m.tasks[i].retry.NotANumber?))
  {
    ReportShows(m, blocked, o);
    if Runs(m, blocked) {
      RecordOf(m, RunFor(m, o), ReportFor(m, blocked, o), i);
      AttemptsOfTask(m, o, ThePlan(m).plan, i);
      DispatchAttempts(o, m.tasks[i]);
    }
  }

  lemma AttemptsOfTask(m: MissionDefinition, o: Options, plan: ExecutionPlan, i: nat)
    requires NoRepeats(m.Ids()) && i < |m.tasks|
    ensures var p := FinalProgress(RunOf(m, o, plan), m.tasks[i].id);
      p.state in {Completed, Failed} ==> p.attempts == Dispatch(o, m.tasks[i]).attempts
  {
    TaskTableComplete(m);
  }

  // ----- missions that behave unexpectedly

  /** Cancelled once and then no more: whatever plannable mission this happens to, it is
      reported as completed, and all its tasks are still pending. */
  lemma FlickeringReport(m: MissionDefinition, o: Options, i: nat)
    requires Plannable(m) && i < |m.tasks| && o.cancelled(0) && !o.cancelled(1)
    ensures var report := ReportFor(m, false, o);
      report.executionState == RunCompleted && |report.tasks| == |m.tasks| && report.tasks[i].state == Pending
  {
    PlannableRuns(m);
    ReportShows(m, false, o);
    RecordOf(m, RunFor(m, o), ReportFor(m, false, o), i);
    assert InSomeLayer(ThePlan(m).plan.layers, m.tasks[i].id);
    FlickeringCancellation(RunFor(m, o), m.tasks[i].id);
  }

  lemma OneTaskPlannable(t: TaskDefinition) returns (m: MissionDefinition)
    requires t.dependsOn == []
    ensures m == MissionDefinition([t]) && Plannable(m) && GraphOf(m) == map[t.id := {}]
  {
    m := MissionDefinition([t]);
    GraphAt(m, 0);
    assert m.Ids() == [t.id];
    var g := GraphOf(m);
    assert g.Keys == {t.id} && g[t.id] == {};
    assert g == map[t.id := {}];
    NoEdgesNoCycle(g);
  }

  /** One such mission. */
  lemma FlickeringMission(t: TaskDefinition, o: Options)
    requires t.dependsOn == [] && o.cancelled(0) && !o.cancelled(1)
    ensures var report := ReportFor(MissionDefinition([t]), false, o);
      report.executionState == RunCompleted && |report.tasks| == 1 && report.tasks[0].state == Pending
  {
    var m := OneTaskPlannable(t);
    FlickeringReport(m, o, 0);
  }

  lemma NothingBelowLeaf(g: Graph, ok: set<Id>, x: Id)
    requires x in g && forall d :: d !in g[x]
    ensures !FailureBelow(g, ok, x)
  {
    if p :| LeadsTo(g, x, p) && p[|p| - 1] !in ok {
      WalkHasEdge(g, p);
    }
  }

  /** With a NaN retry policy a task fails without being attempted, even though every
      attempt would succeed. */
  lemma NeverAttemptedMission(t: TaskDefinition, o: Options)
    requires t.dependsOn == [] && !t.requiresApproval && t.retry.NotANumber?
    requires t.executor in o.registered && (forall a :: o.succeeds(t.id, a)) && forall k :: !o.cancelled(k)
    ensures var report := ReportFor(MissionDefinition([t]), false, o);
      && report.executionState == RunFailed
      && |report.tasks| == 1 && report.tasks[0].state == Failed && report.tasks[0].attempts == 0
  {
    var m := OneTaskPlannable(t);
    GrantedReport(m, o, 0);
    AttemptedExactly(m, false, o, 0);
    assert t in m.tasks && !WouldSucceed(o, t);
    NothingBelowLeaf(GraphOf(m), SucceedingTasks(m, o), t.id);
  }

  // ----- the trace of a report

  /** Starting `x` here is right: its approval is not missing, all its dependencies have
      been reported as completed before, and its own end is reported later. */
  ghost predicate StartsRightly(m: MissionDefinition, o: Options, events: seq<Event>, i: nat, x: Id) {
    && i < |events| && x in GraphOf(m)
    && (forall d :: d in GraphOf(m)[x] ==> TaskCompleted(d) in events[..i])
    && (TaskCompleted(x) in events[i + 1..] || TaskFailed(x) in events[i + 1..])
    && forall j :: 0 <= j < |m.tasks| && m.tasks[j].id == x && m.tasks[j].requiresApproval ==> x in o.approvals
  }

  lemma RunsRightly(m: MissionDefinition, o: Options, plan: ExecutionPlan, i: nat)
    requires IsPlan(m, plan) && i < |RunTrace(RunOf(m, o, plan), |m.tasks|)|
    ensures var t := RunTrace(RunOf(m, o, plan), |m.tasks|);
      && (IsClosing(t[i]) <==> i == |t| - 1)
      && (t[i].TaskStarted? ==> StartsRightly(m, o, t, i, t[i].id))
  {
    RunOfPlan(m, o, plan);
    TraceSafety(RunOf(m, o, plan), |m.tasks|, i);
    forall j | 0 <= j < |m.tasks|
      ensures m.tasks[j].id in RunOf(m, o, plan).gated <==> m.tasks[j].requiresApproval && m.tasks[j].id !in o.approvals
    {
      GatedById(m, o, plan, j);
    }
  }

  /** The event at position `i` is a closing event just when it is the last one, and starts
      a task only rightly. */
  ghost predicate EventRight(m: MissionDefinition, o: Options, events: seq<Event>, i: nat) {
    i < |events| ==>
      && (IsClosing(events[i]) <==> i == |events| - 1)
      && (events[i].TaskStarted? ==> StartsRightly(m, o, events, i, events[i].id))
  }

  /** Every report closes with exactly one closing event, its last, and only starts tasks
      rightly; a mission that governance or the planner stopped starts none. */
  lemma ReportTrace(m: MissionDefinition, blocked: bool, o: Options, i: nat)
    ensures EventRight(m, o, ReportFor(m, blocked, o).events, i)
    ensures !Runs(m, blocked) ==> forall e :: e in ReportFor(m, blocked, o).events ==> !e.TaskStarted?
  {
    ReportShows(m, blocked, o);
    if Runs(m, blocked) && i < |ReportFor(m, blocked, o).events| {
      RunsRightly(m, o, ThePlan(m).plan, i);
    }
  }

  // ----- conservation

  lemma AttemptsWithinLimit(m: MissionDefinition, o: Options, plan: ExecutionPlan, i: nat)
    requires NoRepeats(m.Ids()) && i < |m.tasks|
    ensures var r, x := RunOf(m, o, plan), m.tasks[i].id;
      x in r.attempts && r.attempts[x] <= EffectiveAttempts(m.tasks[i].retry)
  {
    TaskTableComplete(m);
    OkIffSomeAttemptSucceeds(o.succeeds, m.tasks[i].id, EffectiveAttempts(m.tasks[i].retry));
  }

  lemma PlannedRecords(m: MissionDefinition, o: Options, plan: ExecutionPlan, i: nat)
    requires IsPlan(m, plan) && i < |m.tasks|
    ensures var t := FinalRecords(m, RunOf(m, o, plan))[i];
      t.state !in {Ready, Running} && t.attempts <= EffectiveAttempts(m.tasks[i].retry)
  {
    RunOfPlan(m, o, plan);
    GraphAt(m, i);
    NeverReadyOrRunning(RunOf(m, o, plan), m.tasks[i].id);
    AttemptsWithinLimit(m, o, plan, i);
  }

  lemma ReportRecord(m: MissionDefinition, blocked: bool, o: Options, i: nat)
    requires i < |m.tasks|
    ensures var report := ReportFor(m, blocked, o);
      && |report.tasks| == |m.tasks| && report.tasks[i].state !in {Ready, Running}
      && report.tasks[i].attempts <= EffectiveAttempts(m.tasks[i].retry)
  {
    ReportShows(m, blocked, o);
    if Runs(m, blocked) {
      PlannedRecords(m, o, ThePlan(m).plan, i);
    }
  }

  /** In every report the seven counters add up to the number of tasks, none is running,
      and `totalRetries` is the sum over tasks of the attempts after the first, which the
      retry policies bound. */
  lemma ReportConservation(m: MissionDefinition, blocked: bool, o: Options)
    ensures var report, s := ReportFor(m, blocked, o), ReportFor(m, blocked, o).summary;
      && s.total == |m.tasks| && s.running == 0
      && s.completed + s.failed + s.skipped + s.cancelled + s.waiting + s.pending + s.running == s.total
      && report.totalRetries == SumRetries(report.tasks) <= RetryAllowance(m.tasks)
  {
    var records := ReportFor(m, blocked, o).tasks;
    OneRecordEach(m, blocked, o);
    forall i | 0 <= i < |m.tasks|
      ensures records[i].state !in {Ready, Running}
      ensures records[i].attempts <= EffectiveAttempts(m.tasks[i].retry)
    {
      ReportRecord(m, blocked, o, i);
    }
    RecordsConserve(m.tasks, records);
  }

  lemma RecordsConserve(tasks: seq<TaskDefinition>, records: seq<TaskRecord>)
    requires |records| == |tasks|
    requires forall i :: 0 <= i < |tasks| ==>
      records[i].state !in {Ready, Running} && records[i].attempts <= EffectiveAttempts(tasks[i].retry)
    ensures var s := Summarize(records);
      && s.running == 0
      && s.completed + s.failed + s.skipped + s.cancelled + s.waiting + s.pending + s.running == s.total
    ensures TotalAttempts(records) - MissionReport.RanTasks(records) == SumRetries(records) <= RetryAllowance(tasks)
  {
    ReportConserves(records);
    NoneCounted(records, Ready);
    NoneCounted(records, Running);
    RetriesWithinAllowance(tasks, records);
  }

  // ----- process-wide counters

  /** Executions since the last reset that did not return because governance threw. */
  function Thrown(calls: seq<Call>): nat {
    if calls == [] || calls[|calls| - 1].Reset? then 0
    else Thrown(calls[..|calls| - 1]) + if calls[|calls| - 1].result.Threw? then 1 else 0
  }

  /** Executions are conserved: each one is counted under exactly one ending, except those
      that governance broke off. */
  lemma {:induction false} ExecutionsConserved(calls: seq<Call>)
    ensures var c := Replay(calls);
      c.executions == c.completed + c.failed + c.blocked + c.cancelled + c.waiting + Thrown(calls)
  {
    if calls != [] {
      ExecutionsConserved(calls[..|calls| - 1]);
    }
  }

  /** The counters of a runtime, whatever it has been called to do. */
  lemma RuntimeConserves(runtime: Runtime)
    requires runtime.Valid()
    ensures runtime.executions == runtime.completed + runtime.failed + runtime.blocked + runtime.cancelled
      + runtime.waiting + Thrown(runtime.log)
  {
    ExecutionsConserved(runtime.log);
  }
}
