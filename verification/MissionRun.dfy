/** The closed form of one mission run: which layers run, what state every task ends in,
    and which events are published, all as functions of the plan and its environment. */
module MissionRun {
  import opened Sorting
  import opened DependencyGraph
  import opened ExecutionPlanner
  import opened PlanProperties
  import opened DagMeaning

  datatype Progress = Progress(state: TaskState, attempts: nat)

  datatype FailureReason = GovernanceBlocked | PlanFailure(code: PlanErrorCode, detail: seq<Id>) | TaskFailure

  datatype Event =
    | MissionStarted(tasks: nat, layers: nat)
    | TaskStarted(id: Id)
    | TaskCompleted(id: Id)
    | TaskFailed(id: Id)
    | MissionPaused(pendingApprovals: seq<Id>)
    | MissionFailed(reason: FailureReason)
    | MissionCancelled
    | MissionCompleted

  datatype ExecutionState = RunBlocked | RunFailed | RunCompleted | RunCancelled | RunWaiting

  /** One planned run: the dependency graph and its layers, the tasks whose executor would
      succeed and in how many attempts, the meaning of every task, the tasks that need an
      approval that was not given, the answer to the n-th cancellation poll, and the
      locale's comparator. */
  datatype Run = Run(
    g: Graph,
    layers: seq<seq<Id>>,
    ok: set<Id>,
    attempts: map<Id, nat>,
    meaning: map<Id, TaskState>,
    gated: set<Id>,
    cancelled: nat -> bool,
    collate: (Id, Id) -> bool)

  ghost predicate DependencyBlocks(r: Run, x: Id)
    requires x in r.g
  {
    exists d :: d in r.g[x] && d in r.meaning && r.meaning[d] in {Failed, Skipped}
  }

  /** The meaning satisfies its equation at `x`. */
  ghost predicate MeaningHolds(r: Run, x: Id) {
    x in r.g && x in r.meaning && r.meaning[x] == Verdict(DependencyBlocks(r, x), x in r.ok)
  }

  ghost predicate ValidRun(r: Run) {
    && Closed(r.g) && Staged(r.g, r.layers)
    && r.meaning.Keys == r.g.Keys && (forall x {:trigger MeaningHolds(r, x)} :: x in r.g ==> MeaningHolds(r, x))
  }

  /** In a valid run of an acyclic graph, `meaning` is the recursive meaning. */
  lemma MeaningIsDagMeaning(r: Run, x: Id)
    requires ValidRun(r) && Acyclic(r.g) && x in r.g
    ensures r.meaning[x] == Meaning(r.g, r.ok, x)
  {
    AcyclicSettles(r.g);
    forall y | y in r.g ensures SolvedAt(r.g, r.ok, r.meaning, y) {
      assert MeaningHolds(r, y);
    }
    MeaningUnique(r.g, r.ok, r.meaning, |r.g.Keys|, x);
  }

  /** States that neither a later layer nor a cancellation changes. */
  predicate Terminal(s: TaskState) {
    s in {Completed, Failed, Skipped}
  }

  // ----- one task

  /** The state a task takes when its layer is reached. */
  ghost function SettledState(r: Run, x: Id): TaskState {
    if x !in r.meaning then Pending
    else if r.meaning[x] != Skipped && x in r.gated then Waiting
    else r.meaning[x]
  }

  ghost function SettledProgress(r: Run, x: Id): Progress {
    var state := SettledState(r, x);
    Progress(state, if state in {Completed, Failed} && x in r.attempts then r.attempts[x] else 0)
  }

  // ----- one layer

  /** The tasks of `s` that are dispatched, in order. */
  ghost function Runnable(r: Run, s: seq<Id>): seq<Id> {
    if s == [] then []
    else
      var x := s[|s| - 1];
      Runnable(r, s[..|s| - 1]) + if SettledState(r, x) in {Completed, Failed} then [x] else []
  }

  /** The tasks of `s` that wait for an approval, in order. */
  ghost function Held(r: Run, s: seq<Id>): seq<Id> {
    if s == [] then []
    else
      var x := s[|s| - 1];
      Held(r, s[..|s| - 1]) + if SettledState(r, x) == Waiting then [x] else []
  }

  ghost function Started(s: seq<Id>): seq<Event> {
    seq(|s|, i requires 0 <= i < |s| => TaskStarted(s[i]))
  }

  ghost function EndEvent(r: Run, x: Id): Event {
    if SettledState(r, x) == Completed then TaskCompleted(x) else TaskFailed(x)
  }

  ghost function Ended(r: Run, s: seq<Id>): seq<Event> {
    seq(|s|, i requires 0 <= i < |s| => EndEvent(r, s[i]))
  }

  ghost function LayerTrace(r: Run, layer: seq<Id>): seq<Event> {
    Started(Runnable(r, layer)) + Ended(r, SortBy(r.collate, Runnable(r, layer)))
  }

  // ----- the layer loop

  /** How many layers the loop processes when it has reached layer `n`. */
  ghost function LayersRunFrom(r: Run, n: nat): (stop: nat)
    requires n <= |r.layers|
    ensures n <= stop <= |r.layers|
    decreases |r.layers| - n
  {
    if n == |r.layers| || r.cancelled(n) then n
    else if Held(r, r.layers[n]) != [] then n + 1
    else LayersRunFrom(r, n + 1)
  }

  ghost function LayersRun(r: Run): nat {
    LayersRunFrom(r, 0)
  }

  /** The loop's last processed layer holds a task that waits. */
  ghost predicate PausedAfter(r: Run, n: nat)
    requires n <= |r.layers|
  {
    n > 0 && Held(r, r.layers[n - 1]) != []
  }

  /** What the loop guarantees where it stops. */
  ghost predicate StopsAt(r: Run, n: nat) {
    && n <= |r.layers|
    && (forall k :: 0 <= k < n ==> !r.cancelled(k))
    && (forall k :: 0 <= k < n - 1 ==> Held(r, r.layers[k]) == [])
    && (PausedAfter(r, n) || n == |r.layers| || r.cancelled(n))
  }

  lemma {:induction false} LayersRunStops(r: Run, n: nat)
    requires n <= |r.layers| && (forall k :: 0 <= k < n ==> !r.cancelled(k) && Held(r, r.layers[k]) == [])
    ensures StopsAt(r, LayersRunFrom(r, n))
    decreases |r.layers| - n
  {
    if n < |r.layers| && !r.cancelled(n) && Held(r, r.layers[n]) == [] {
      LayersRunStops(r, n + 1);
    }
  }

  ghost function Trace(r: Run, n: nat): seq<Event>
    requires n <= |r.layers|
  {
    if n == 0 then [] else Trace(r, n - 1) + LayerTrace(r, r.layers[n - 1])
  }

  /** Task progress on entering layer `n`. */
  ghost function ProgressAt(r: Run, n: nat, x: Id): Progress
    requires n <= |r.layers|
  {
    if x in Placed(r.layers, n) then SettledProgress(r, x) else Progress(Pending, 0)
  }

  // ----- the end of the run

  /** The poll that decides the final state: the one after the last poll of the loop. */
  ghost function FinalPoll(r: Run): nat {
    LayersRunStops(r, 0);
    var n := LayersRun(r);
    if PausedAfter(r, n) || n == |r.layers| then n else n + 1
  }

  ghost function FinalProgress(r: Run, x: Id): Progress {
    LayersRunStops(r, 0);
    var p := ProgressAt(r, LayersRun(r), x);
    if r.cancelled(FinalPoll(r)) && !Terminal(p.state) then p.(state := Cancelled) else p
  }

  ghost function FinalState(r: Run): ExecutionState {
    LayersRunStops(r, 0);
    if r.cancelled(FinalPoll(r)) then RunCancelled
    else if PausedAfter(r, LayersRun(r)) then RunWaiting
    else if exists x :: x in r.g && FinalProgress(r, x).state == Failed then RunFailed
    else RunCompleted
  }

  /** The approvals asked for, in the order the gates were met. */
  ghost function ApprovalsAsked(r: Run): seq<Id> {
    LayersRunStops(r, 0);
    var n := LayersRun(r);
    if PausedAfter(r, n) then Held(r, r.layers[n - 1]) else []
  }

  ghost function ClosingEvent(r: Run): Event {
    match FinalState(r)
    case RunCancelled => MissionCancelled
    case RunWaiting => MissionPaused(SortBy(NotAfter, ApprovalsAsked(r)))
    case RunFailed => MissionFailed(TaskFailure)
    case _ => MissionCompleted
  }

  ghost function RunTrace(r: Run, tasks: nat): seq<Event> {
    LayersRunStops(r, 0);
    [MissionStarted(tasks, |r.layers|)] + Trace(r, LayersRun(r)) + [ClosingEvent(r)]
  }
}
