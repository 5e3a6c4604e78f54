/** Reports: the task records of a run and the figures drawn from them. */
module MissionReport {
  import opened Sorting
  import opened MissionTypes
  import opened RetryManager
  import opened DagMeaning
  import opened MissionRun

  datatype TaskRecord = TaskRecord(id: Id, executor: Id, state: TaskState, dependsOn: seq<Id>, attempts: nat)

  datatype Summary = Summary(
    total: nat, completed: nat, failed: nat, skipped: nat, cancelled: nat, waiting: nat, pending: nat, running: nat)

  datatype Report = Report(
    executionState: ExecutionState,
    tasks: seq<TaskRecord>,
    summary: Summary,
    pendingApprovals: seq<Id>,
    totalAttempts: nat,
    totalRetries: int,
    events: seq<Event>)

  function Count(records: seq<TaskRecord>, state: TaskState): nat {
    if records == [] then 0
    else Count(records[..|records| - 1], state) + if records[|records| - 1].state == state then 1 else 0
  }

  /** `ready` is not among the counted states. */
  function Summarize(records: seq<TaskRecord>): Summary {
    Summary(|records|, Count(records, Completed), Count(records, Failed), Count(records, Skipped),
            Count(records, Cancelled), Count(records, Waiting), Count(records, Pending), Count(records, Running))
  }

  function TotalAttempts(records: seq<TaskRecord>): nat {
    if records == [] then 0
    else TotalAttempts(records[..|records| - 1]) + records[|records| - 1].attempts
  }

  function RanTasks(records: seq<TaskRecord>): nat {
    if records == [] then 0
    else RanTasks(records[..|records| - 1]) + if records[|records| - 1].attempts > 0 then 1 else 0
  }

  function BuildReport(state: ExecutionState, records: seq<TaskRecord>, events: seq<Event>, pendingApprovals: seq<Id>): Report {
    Report(state, records, Summarize(records), SortBy(NotAfter, pendingApprovals),
           TotalAttempts(records), TotalAttempts(records) - RanTasks(records), events)
  }

  function Records(m: MissionDefinition, progress: map<Id, Progress>): (records: seq<TaskRecord>)
    requires forall x :: x in m.Ids() ==> x in progress
  {
    seq(|m.tasks|, i requires 0 <= i < |m.tasks| =>
      var t := m.tasks[i];
      assert m.Ids()[i] in m.Ids();
      TaskRecord(t.id, t.executor, progress[t.id].state, t.dependsOn, progress[t.id].attempts))
  }

  // ----- what the figures count

  /** The positions of the records in `state`. */
  ghost function InState(records: seq<TaskRecord>, state: TaskState): set<int> {
    set i | 0 <= i < |records| && records[i].state == state
  }

  lemma LastInState(records: seq<TaskRecord>, state: TaskState)
    requires records != []
    ensures var n := |records| - 1;
      |InState(records, state)| == |InState(records[..n], state)| + if records[n].state == state then 1 else 0
  {
    var n := |records| - 1;
    GrowsByOne(InState(records[..n], state), InState(records, state), n, records[n].state == state);
  }

  lemma {:induction false} CountIs(records: seq<TaskRecord>, state: TaskState)
    ensures Count(records, state) == |InState(records, state)|
  {
    if records == [] {
      assert InState(records, state) == {};
    } else {
      CountIs(records[..|records| - 1], state);
      LastInState(records, state);
    }
  }

  /** The attempts with a number from `first` on: position of the record, number of the attempt. */
  ghost function AttemptsFrom(records: seq<TaskRecord>, first: nat): set<(int, int)> {
    set i, a | 0 <= i < |records| && first <= a <= records[i].attempts :: (i, a)
  }

  ghost function Row(i: int, first: nat, last: nat): set<(int, int)> {
    set a | first <= a <= last :: (i, a)
  }

  lemma {:induction false} RowSize(i: int, first: nat, last: nat)
    ensures |Row(i, first, last)| == if first <= last then last - first + 1 else 0
    decreases last
  {
    if last < first {
      assert Row(i, first, last) == {};
    } else if last == first {
      assert Row(i, first, last) == {(i, first)};
    } else {
      RowSize(i, first, last - 1);
      assert Row(i, first, last) == Row(i, first, last - 1) + {(i, last)};
    }
  }

  /** Every attempt is counted once, and every attempt after a task's first once more. */
  lemma {:induction false} AttemptsAre(records: seq<TaskRecord>)
    ensures TotalAttempts(records) == |AttemptsFrom(records, 1)|
    ensures TotalAttempts(records) - RanTasks(records) == |AttemptsFrom(records, 2)|
  {
    if records == [] {
      assert AttemptsFrom(records, 1) == {} == AttemptsFrom(records, 2);
    } else {
      var n := |records| - 1;
      AttemptsAre(records[..n]);
      LastAttempts(records, 1);
      LastAttempts(records, 2);
    }
  }

  lemma LastAttempts(records: seq<TaskRecord>, first: nat)
    requires records != []
    ensures var n := |records| - 1;
      |AttemptsFrom(records, first)| == |AttemptsFrom(records[..n], first)|
        + if first <= records[n].attempts then records[n].attempts - first + 1 else 0
  {
    var n := |records| - 1;
    var rest, row := AttemptsFrom(records[..n], first), Row(n, first, records[n].attempts);
    assert AttemptsFrom(records, first) == rest + row;
    assert rest !! row;
    RowSize(n, first, records[n].attempts);
  }

  // ----- conservation

  /** Retries of one task: every attempt after the first. */
  function Retries(record: TaskRecord): nat {
    if record.attempts > 0 then record.attempts - 1 else 0
  }

  function SumRetries(records: seq<TaskRecord>): nat {
    if records == [] then 0 else SumRetries(records[..|records| - 1]) + Retries(records[|records| - 1])
  }

  /** The seven counters leave out exactly the ready tasks, and `totalRetries` is the sum
      over tasks of the attempts after the first. */
  lemma {:induction false} ReportConserves(records: seq<TaskRecord>)
    ensures var s := Summarize(records);
      s.completed + s.failed + s.skipped + s.cancelled + s.waiting + s.pending + s.running
        == s.total - Count(records, Ready)
    ensures TotalAttempts(records) - RanTasks(records) == SumRetries(records)
  {
    if records != [] {
      ReportConserves(records[..|records| - 1]);
    }
  }

  lemma {:induction false} NoneCounted(records: seq<TaskRecord>, state: TaskState)
    ensures Count(records, state) == 0 <==> forall i :: 0 <= i < |records| ==> records[i].state != state
  {
    if records != [] {
      var rest := records[..|records| - 1];
      NoneCounted(rest, state);
      if forall i :: 0 <= i < |rest| ==> rest[i].state != state {
        assert forall i :: 0 <= i < |records| - 1 ==> records[i] == rest[i];
      } else {
        var i :| 0 <= i < |rest| && rest[i].state == state;
        assert records[i] == rest[i];
      }
    }
  }

  /** What the retry policies allow beyond the first attempt, over all tasks. */
  function RetryAllowance(tasks: seq<TaskDefinition>): nat {
    if tasks == [] then 0
    else
      var limit := EffectiveAttempts(tasks[|tasks| - 1].retry);
      RetryAllowance(tasks[..|tasks| - 1]) + if limit > 0 then limit - 1 else 0
  }

  lemma {:induction false} RetriesWithinAllowance(tasks: seq<TaskDefinition>, records: seq<TaskRecord>)
    requires |records| == |tasks|
    requires forall i :: 0 <= i < |tasks| ==> records[i].attempts <= EffectiveAttempts(tasks[i].retry)
    ensures SumRetries(records) <= RetryAllowance(tasks)
  {
    if tasks != [] {
      RetriesWithinAllowance(tasks[..|tasks| - 1], records[..|tasks| - 1]);
    }
  }
}
