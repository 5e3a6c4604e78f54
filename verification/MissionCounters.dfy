/** What the process-wide counters count: the calls since the last reset, by their endings. */
module MissionCounters {
  import opened Sorting
  import opened MissionTypes
  import opened MissionRun
  import opened MissionRuntime
  import opened MissionGuarantees
  import opened MissionOutcomes

  /** Neither the call at position `i` nor a later one is a reset. */
  ghost predicate SinceReset(calls: seq<Call>, i: int) {
    0 <= i < |calls| && forall j :: i <= j < |calls| ==> calls[j].Execute?
  }

  ghost function Executions(calls: seq<Call>): set<int> {
    set i | 0 <= i < |calls| && SinceReset(calls, i)
  }

  /** The calls since the last reset whose report has this ending. */
  ghost function Endings(calls: seq<Call>, state: ExecutionState): set<int> {
    set i | 0 <= i < |calls| && SinceReset(calls, i) && Ends(calls[i].result, state)
  }

  lemma OneMoreCall(calls: seq<Call>, state: ExecutionState)
    requires calls != [] && calls[|calls| - 1].Execute?
    ensures var n := |calls| - 1;
      && |Executions(calls)| == |Executions(calls[..n])| + 1
      && |Endings(calls, state)| == |Endings(calls[..n], state)| + if Ends(calls[n].result, state) then 1 else 0
  {
    var n := |calls| - 1;
    var rest := calls[..n];
    forall i | 0 <= i < n ensures SinceReset(calls, i) <==> SinceReset(rest, i) {
      if SinceReset(rest, i) {
        forall j | i <= j < |calls| ensures calls[j].Execute? {
          assert j < n ==> calls[j] == rest[j];
        }
      }
      if SinceReset(calls, i) {
        forall j | i <= j < n ensures rest[j].Execute? {
          assert calls[j] == rest[j];
        }
      }
    }
    assert SinceReset(calls, n);
    GrowsByOne(Executions(rest), Executions(calls), n, true);
    GrowsByOne(Endings(rest, state), Endings(calls, state), n, Ends(calls[n].result, state));
  }

  lemma NoneSinceReset(calls: seq<Call>, state: ExecutionState)
    requires calls == [] || calls[|calls| - 1].Reset?
    ensures Executions(calls) == {} == Endings(calls, state)
  {
    forall i | 0 <= i < |calls| ensures !SinceReset(calls, i) {
      assert !calls[|calls| - 1].Execute?;
    }
  }

  /** The counter for endings in `state`. */
  ghost function CounterOf(c: MetricsSnapshot, state: ExecutionState): nat {
    match state
    case RunBlocked => c.blocked
    case RunFailed => c.failed
    case RunCompleted => c.completed
    case RunCancelled => c.cancelled
    case RunWaiting => c.waiting
  }

  /** Every counter is the number of calls since the last reset that ended in its way. */
  lemma {:induction false} CountersCount(calls: seq<Call>, state: ExecutionState)
    ensures Replay(calls).executions == |Executions(calls)|
    ensures CounterOf(Replay(calls), state) == |Endings(calls, state)|
  {
    if calls == [] || calls[|calls| - 1].Reset? {
      NoneSinceReset(calls, state);
    } else {
      CountersCount(calls[..|calls| - 1], state);
      OneMoreCall(calls, state);
    }
  }

  /** The counters of every runtime object. */
  lemma RuntimeCounts(runtime: Runtime)
    requires runtime.Valid()
    ensures runtime.executions == |Executions(runtime.log)|
    ensures runtime.completed == |Endings(runtime.log, RunCompleted)|
    ensures runtime.failed == |Endings(runtime.log, RunFailed)|
    ensures runtime.blocked == |Endings(runtime.log, RunBlocked)|
    ensures runtime.cancelled == |Endings(runtime.log, RunCancelled)|
    ensures runtime.waiting == |Endings(runtime.log, RunWaiting)|
  {
    CountersCount(runtime.log, RunCompleted);
    CountersCount(runtime.log, RunFailed);
    CountersCount(runtime.log, RunBlocked);
    CountersCount(runtime.log, RunCancelled);
    CountersCount(runtime.log, RunWaiting);
  }

  /** A call that governance blocks moves the blocked counter, one for a mission that cannot
      be planned the failed one, and neither moves any other counter of endings. */
  lemma StoppedCounts(before: MetricsSnapshot, m: MissionDefinition, blocked: bool, o: Options)
    requires blocked || !Plannable(m)
    ensures Counted(before, Returned(ReportFor(m, blocked, o)))
      == if blocked then before.(executions := before.executions + 1, blocked := before.blocked + 1)
         else before.(executions := before.executions + 1, failed := before.failed + 1)
  {
    StoppedOutcome(m, blocked, o);
  }
}
