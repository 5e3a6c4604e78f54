# Missions, batches, agents and audit chains, verified

A Dafny model of four parts of the repository, with proofs of what they promise:

- **Mission execution.** The planner layers an arbitrary task graph or says why it cannot
  (`ExecutionPlanner`, `PlanProperties`, over the graph theory of `DependencyGraph`). The
  runtime walks the layers with approval gates, retries and cancellation and writes an
  event trace and a report (`MissionRuntime`, `RetryManager`, `MissionReport`).
  `DagMeaning` says what a run means without layers, order or mutable state; `MissionRun`
  is the closed form of a run that every method of the runtime is proved to compute, so
  that a report is a function of its inputs (`MissionRuntime.ReportFor`);
  `MissionStates` and `MissionTrace` are about that form, and `MissionGuarantees` says the
  same of every report `executeMission` returns, in the caller's terms. `MissionOutcomes`
  and `MissionOrder` say all of a report in these terms: states, attempts, approvals, ending,
  figures, and the events in their order; `MissionCounters` what the process-wide counters
  count.
- **Batch scheduling.** `BatchModel` is the scheduler as a step system: submit, timer
  fires, flush, change of policy, passage of time. `BatchCoordination` holds the objects
  (queue, groups, timers, event bus, coordinator), whose methods are proved to take those
  steps; `BatchScheduler` keeps the history of steps of one scheduler. `BatchTimers`,
  `BatchHistory`, `BatchOrder`, `BatchOrigins`, `BatchStream`, `BatchMetrics`,
  `BatchUtilization` and `BatchGuarantees` prove what holds over all runs, and so of every
  scheduler object.
- **Agent walks.** `AgentRunner` walks an agent's graph under its budgets;
  `AgentProperties` says what the walk keeps, `AgentGuarantees` what the recorded steps and
  the ending of every run mean for the graph, the budgets and the environment.
- **Audit chains.** `AuditChain` selects, sorts (`AuditOrder`) and scans a log and says what
  an accepted log pins down, `AuditFields` when that is every hashed field, and
  `AuditAppend` when appending keeps a log acceptable.

`Sorting` has the UTF-16 identifiers, their order and the stable sort; `JoinedText` has
texts joined with a vertical bar, shared by batch keys and audit payloads.

How the pieces are modelled:

- A task's executor is a fixed outcome for each (task, attempt). Governance is a parameter:
  it decides (blocked or not) or throws. The n-th answer of the cancellation callback is
  `cancelled(n)`; every property says what it needs of it.
- The locale's comparison (`localeCompare`) is an arbitrary comparator; nothing depends on
  it except the order in which one layer's outcomes are applied and its end events come.
- Mission loops that assign to task records assign to a map from task id to progress.
- Batches: the clock stands still within a step, and a live timer may fire at any step,
  however late. Only the bounds on waiting speak of lateness: they hold with the number of
  milliseconds by which timers are late at most. Histories (`enqueued`,
  `batches`, `bypassed`, a group's `waitMs`) are ghost. Every event reaches the metrics.
- Agents: what a node returns and costs, whether the deadline has passed and whether a
  condition holds come from an arbitrary environment. Timeouts and exceptions of a node are
  one outcome, `Threw`.
- Audit: the hash is any function whose values never collide, are never empty and contain
  no bar, as hexadecimal digests do not.

Where code and comments differ, the code is modelled:

- `src/lib/missions/mission-types.ts:133` says cancellation is checked between layers and
  tasks; the runtime polls only before each layer and once at the end
  (`src/lib/missions/mission-runtime.ts:185`, `:262`). With a callback that goes back from
  true to false a mission can be reported as completed with pending tasks;
  `MissionGuarantees.FlickeringMission` is such a mission and
  `MissionGuarantees.CompletedReportExactly` says exactly when it does not happen.
- `src/lib/aiops/batch/batch-types.ts:67` says that equal keys mean compatible requests.
  That holds exactly for parts without a bar: `BatchTypes.KeyIdentifiesExactly`.
- A retry policy of NaN makes no attempt at all, in spite of "at least one attempt"
  (`src/lib/missions/retry-manager.ts:8`). `MissionGuarantees.NeverAttemptedMission` is a
  mission that fails without an attempt, and `MissionGuarantees.AttemptedExactly` says
  exactly when that does not happen.
- Appending picks as its predecessor the first of the latest stored events
  (`src/lib/lawrence-core/audit/audit-service.ts:12`), while verification sorts by timestamp
  (`src/lib/security/audit-integrity-service.ts:23`). The timestamps come from a clock that
  advances with every reading but starts at zero in every process
  (`src/lib/lawrence-core/utils/ids.ts:6`, `:15-18`). Within one process all is well:
  `AuditAppend.OneProcessAccepted`. After a restart over a durable log, or with several
  processes, untampered logs are rejected: `AuditAppend.RestartBreaks`,
  `AuditAppend.ThirdCopyBreaks`. `AuditAppend.EmitAcceptedExactly` and
  `AuditAppend.EmittedLogAcceptedExactly` say exactly when.
- Verifying a window starts from no predecessor
  (`src/lib/security/audit-integrity-service.ts:28`), so a window of an accepted log is
  rejected exactly when it leaves out the first event and is not empty:
  `AuditChain.WindowAcceptedExactly`.
- Hashing joins the fields of an audit event with bars and writes a missing subject like an
  empty one (`src/lib/lawrence-core/audit/audit-hash-service.ts:18-26`), so other fields can
  have the same hash: `AuditFields.Double`. The last hash of a log pins down its fields
  exactly when every event names its subject and has no bar in tenant, action and subject:
  `AuditFields.LogPinnedExactly`.

## Model

| member | source | states |
|---|---|---|
| ExecutionPlanner.PlanMission | src/lib/missions/execution-planner.ts:30-73 | For every mission: a plan whose layer `k` lists, sorted, exactly the tasks whose longest dependency chain has `k` dependencies, or the first duplicate id, or the first missing dependency, or the sorted list of exactly the tasks that reach a cycle |
| ExecutionPlanner.CheckDuplicates | src/lib/missions/execution-planner.ts:31-36 | Reports the first id that repeats an earlier one, or establishes that ids are unique |
| ExecutionPlanner.ResolveDependencies | src/lib/missions/execution-planner.ts:38-47 | Reports the first dependency, in task order, that names no task, or builds the dependency graph and establishes that it is closed |
| ExecutionPlanner.LayerTasks | src/lib/missions/execution-planner.ts:50-72 | The layering loop ends with the rank layers, or with the tasks that reach a cycle |
| ExecutionPlanner.GraphAt | src/lib/missions/execution-planner.ts:38-47 | With unique ids the dependency graph has exactly the tasks as nodes, and leads from each task to exactly what it lists as dependencies |
| Sorting.NotAfterMeaning | src/lib/missions/execution-planner.ts:57 | The planner's order: one id is a prefix of the other, or has the smaller code unit where they first differ |
| DependencyGraph.StuckIffReachesCycle | src/lib/missions/execution-planner.ts:55-63 | When a round places nothing, the tasks left are exactly those from which dependencies lead into a cycle |
| DependencyGraph.CycleIffReached | src/lib/missions/execution-planner.ts:59-63 | Some task reaches a cycle exactly when the graph has one |
| DependencyGraph.RankIsLongestChain | src/lib/missions/execution-planner.ts:56-58 | The round that places a task is the length of its longest dependency chain |
| PlanProperties.FailsIffCycle | src/lib/missions/execution-planner.ts:31-72 | Each failure is raised exactly in its case: duplicates; unique ids and an unknown dependency; unique ids, known dependencies and a cycle; otherwise a plan |
| PlanProperties.PlanIgnoresListing | src/lib/missions/execution-planner.ts:38-72 | Reordering tasks, and reordering or repeating dependencies, changes neither the plan nor the cycle report |
| PlanProperties.LayersDisjoint | src/lib/missions/execution-planner.ts:64-69 | No task is in two layers |
| PlanProperties.DependenciesEarlier | src/lib/missions/execution-planner.ts:56-58 | Every dependency lies in a strictly earlier layer |
| PlanProperties.FewestLayers | src/lib/missions/execution-planner.ts:49-70 | Any levelling that puts dependencies strictly lower puts a task of layer `k` at level `k` or higher: no valid layering is shorter |
| PlanProperties.OrderIsTopological | src/lib/missions/execution-planner.ts:64-72 | `order` lists every task once, each after all its dependencies |
| PlanProperties.OrderEntry | src/lib/missions/execution-planner.ts:64-72 | The `i`-th task of layer `k` stands in `order` where the sizes of the earlier layers and `i` add up to, and `order` has no further entries |
| PlanProperties.DependenciesInOrder | src/lib/missions/execution-planner.ts:64-72 | Whatever a task lists in `dependsOn` stands in `order` before the task |
| PlanProperties.PlanExists | src/lib/missions/execution-planner.ts:30-73 | The planner's contract can be met on every mission, however malformed |
| PlanProperties.PlanDeterminate | src/lib/missions/execution-planner.ts:27-30 | Two results that meet the planner's contract for one mission are the same, errors included |
| RetryManager.RunWithRetry | src/lib/missions/retry-manager.ts:23-41 | Stops at the first successful attempt or after the last allowed one; the failure hook has seen exactly the failed attempts, in order |
| RetryManager.OkIffSomeAttemptSucceeds | src/lib/missions/retry-manager.ts:30-40 | A task succeeds exactly when some attempt within its limit does |
| RetryManager.AtLeastOneAttempt | src/lib/missions/retry-manager.ts:9-12 | The limit is at least one attempt if and only if the policy is not NaN |
| RetryManager.LimitOfPolicy | src/lib/missions/retry-manager.ts:6-12 | A finite policy of at least 1 is rounded down; a smaller or missing one gives one attempt, NaN none |
| RetryManager.AllowedAttempts | src/lib/missions/retry-manager.ts:6-12 | The attempts within the limit are exactly the first and those not beyond `maxAttempts` |
| DagMeaning.MeaningEquation | src/lib/missions/mission-runtime.ts:190-253 | The recursive meaning: skipped if a dependency's meaning is failed or skipped, else completed or failed as its own executor comes out |
| DagMeaning.MeaningUnique | src/lib/missions/mission-runtime.ts:190-253 | On an acyclic graph no other assignment satisfies these equations |
| DagMeaning.MeaningByReachability | src/lib/missions/mission-runtime.ts:190-194 | A task is skipped exactly when something it transitively depends on failed, equivalently when something below it would not succeed |
| MissionRuntime.EarlierTasksSettled | src/lib/missions/mission-runtime.ts:184-198 | Loop-head invariant: tasks of earlier layers are completed, failed or skipped as their meaning says, all others are pending with no attempts |
| MissionRuntime.DecideMeaning | src/lib/missions/mission-runtime.ts:190-207 | Classifying a task of the current layer gives what its meaning and its approval demand; the branch for a waiting or pending dependency is never taken |
| MissionRuntime.ClassifyLayer | src/lib/missions/mission-runtime.ts:187-207 | Classifies a layer in place: new states, the tasks to run in order, and the approvals to ask for |
| MissionRuntime.RunTasks | src/lib/missions/mission-runtime.ts:211-253 | Starting, dispatching with retries and applying outcomes settles exactly the dispatched tasks and publishes their starts, then their ends in the locale's order |
| MissionRuntime.RunLayer | src/lib/missions/mission-runtime.ts:184-258 | One processed layer leaves the progress, events and approvals of the run's closed form, and pauses exactly when a task of the layer waits |
| MissionRuntime.RunLayers | src/lib/missions/mission-runtime.ts:183-259 | The loop stops after the right layer for every combination of gates and cancellation answers, with progress, trace, approvals and number of polls as the closed form says |
| MissionRun.LayersRunStops | src/lib/missions/mission-runtime.ts:184-259 | Where the closed form stops: no earlier poll cancelled, no earlier layer held a task, and there is a gate, a cancellation or no layer left |
| MissionRuntime.CancelRemaining | src/lib/missions/mission-runtime.ts:263-265 | Cancellation marks exactly the tasks that have not completed, failed or been skipped |
| MissionRuntime.Resolve | src/lib/missions/mission-runtime.ts:262-286 | The final state, the final records and the closing event are those of the closed form |
| MissionRuntime.Runtime.ExecuteMission | src/lib/missions/mission-runtime.ts:107-287 | Throws exactly when governance throws; otherwise returns the report that is a function of the mission, the decision and the options, events included; every call counts one execution and, if it returns, one ending, under the counter of the reported kind and no other; the counters are those of the calls so far |
| MissionGuarantees.ReportShows | src/lib/missions/mission-runtime.ts:161-286 | Every report shows either that nothing ran, because governance or the planner stopped the mission, or the closed-form run of the mission's plan |
| MissionOutcomes.StoppedOutcome | src/lib/missions/mission-runtime.ts:161-178 | A report says blocked if and only if governance blocked the mission, and its one event then says so; a mission that was not blocked and cannot be planned is failed, and its one event carries the planner's code and detail; either way no task is touched |
| MissionOutcomes.ProcessesOne | src/lib/missions/mission-runtime.ts:184-259 | Every run processes exactly one number of layers: up to the first in which a task must wait for its approval, the first cancelled poll, or the last |
| MissionOutcomes.TaskOutcome | src/lib/missions/mission-runtime.ts:184-265 | The final state of every task of every plannable mission: pending if not reached; else skipped if something below would not succeed; else waiting if it requires an approval that was not given; else as its attempts come out; and cancelled instead of pending or waiting if the poll after the loop says so |
| MissionOutcomes.MissionOutcome | src/lib/missions/mission-runtime.ts:262-286 | The mission is cancelled exactly when the poll after the loop says so, even if every task has ended; else waiting exactly when the loop paused; else failed exactly when a record is; else completed |
| MissionOutcomes.ApprovalsOutcome | src/lib/missions/mission-runtime.ts:200-204 | `pendingApprovals` of every such report, cancelled or not: sorted, without repetition, exactly the tasks that had to wait in the last processed layer; non-empty exactly when the loop paused |
| MissionOutcomes.EventsOutcome | src/lib/missions/mission-runtime.ts:161-286 | The last event of every report is the one of its final state, with the approvals asked for or the reason; the first of a mission that runs says how many tasks and layers it has; only waiting and cancelled reports ask for approvals |
| MissionOutcomes.RecordOutcome | src/lib/missions/mission-runtime.ts:143-149 | Each record has the id, the executor and the dependencies of its task |
| MissionOutcomes.GateOutcome | src/lib/missions/mission-runtime.ts:199-204 | In every report a task that requires an approval and does not have it is never started, completed or failed; and only such tasks are recorded as waiting |
| MissionOutcomes.GateHolds | src/lib/missions/mission-runtime.ts:199-204 | Without cancellation a reached task that lacks its approval and is not skipped is recorded as waiting, is asked for, and makes the mission wait |
| MissionOutcomes.AttemptsOutcome | src/lib/missions/mission-runtime.ts:216-243 | In every report: a completed task succeeded at its recorded attempt, which its policy allows, and at none before; a failed one with an executor made every attempt its policy allows and failed in all; nothing else was attempted |
| MissionOutcomes.FinitePolicyOutcome | src/lib/missions/retry-manager.ts:9-12 | With approvals granted, no cancellation and nothing failing below, a registered task with a finite policy is completed if and only if the first attempt or a later one not beyond `maxAttempts` succeeds, else failed |
| MissionOutcomes.FiguresOutcome | src/lib/missions/mission-runtime.ts:53-99 | In every report each counter is the number of records in its state, `totalAttempts` the number of attempts made, `totalRetries` that of attempts after a task's first |
| MissionRuntime.Runtime.ResetMetrics | src/lib/missions/mission-runtime.ts:42-49 | All six counters are zero, and the reset is part of the history of calls |
| MissionStates.TerminalIsMeaning | src/lib/missions/mission-runtime.ts:184-286 | Whatever was approved and cancelled, a task that ended completed, failed or skipped ended in its recursive meaning |
| MissionStates.GrantedRunIsMeaning | src/lib/missions/mission-runtime.ts:184-286 | With nothing gated and no cancellation every task ends in its recursive meaning, and the run is completed exactly when all tasks succeed, else failed |
| MissionStates.NeverReadyOrRunning | src/lib/missions/mission-runtime.ts:205-253 | No final record is ready or running, and none is cancelled unless the mission is |
| MissionStates.CompletedExactly | src/lib/missions/mission-runtime.ts:185-285 | A mission reported as completed has completed every task if and only if no poll before a layer was answered with a cancellation |
| MissionStates.SteadyCancellationCompletes | src/lib/missions/mission-runtime.ts:185-285 | With a callback that never goes back to false, completed means every task completed |
| MissionStates.FlickeringCancellation | src/lib/missions/mission-runtime.ts:185-285 | Every run with at least one layer, cancelled at its first poll and not at its second, is reported as completed with all tasks pending |
| MissionStates.WaitingMission | src/lib/missions/mission-runtime.ts:200-204 | A waiting mission asks for at least one approval, exactly those of its waiting tasks, each gated and with all dependencies completed |
| MissionStates.SkippedExactly | src/lib/missions/mission-runtime.ts:190-194 | Any task that the run reached ends skipped exactly when some task it transitively depends on ended failed |
| MissionStates.SkippedByMeaning | src/lib/missions/mission-runtime.ts:190-194 | The same with the recursive meanings of the tasks below |
| MissionStates.ApprovalsMonotone | src/lib/missions/mission-runtime.ts:190-207 | Between two runs that differ in approvals only, for every cancellation callback: more approvals keep every completed, failed and skipped task as it was, and keep waiting what is still not approved |
| MissionStates.NextPauseLater | src/lib/missions/mission-runtime.ts:200-204 | Granting what a paused run asked for makes the next pause come at a strictly later layer |
| MissionTrace.TraceSafety | src/lib/missions/mission-runtime.ts:180-286 | Exactly the first event says started and exactly the last is a closing event; each task start follows the completion of all its dependencies, precedes its own end, and needs no missing approval |
| MissionTrace.TaskEventsExact | src/lib/missions/mission-runtime.ts:211-253 | A dispatched task starts once and ends once, completed or failed as its record says; no other task starts or ends |
| MissionGuarantees.TerminalReport | src/lib/missions/mission-runtime.ts:107-287 | In every report a completed, failed or skipped record holds the task's meaning: skipped when something below would not succeed, else as the task's own attempts come out |
| MissionGuarantees.GrantedReport | src/lib/missions/mission-runtime.ts:107-287 | For every plannable mission with approvals granted and no cancellation: every record holds its meaning, and the mission is completed exactly when every task would succeed |
| MissionGuarantees.ReportsMonotone | src/lib/missions/mission-runtime.ts:190-207 | Monotonicity in the approvals, of the records of two reports, for every mission and cancellation callback |
| MissionGuarantees.RoundsBounded | src/lib/missions/mission-runtime.ts:200-204 | When each round of approval grants what the one before asked for, a mission waits in at most as many rounds as its plan has layers |
| MissionGuarantees.CompletedReportExactly | src/lib/missions/mission-runtime.ts:185-286 | A completed report has completed records only, if and only if no poll before a layer of its plan was answered with a cancellation |
| MissionGuarantees.CompletedReport | src/lib/missions/mission-runtime.ts:284-286 | A completed report has completed records only, for a steady callback |
| MissionGuarantees.WaitingReport | src/lib/missions/mission-runtime.ts:271-275 | A waiting report's `pendingApprovals` is the sorted non-empty list of exactly its waiting tasks, all of them tasks of the mission, each lacking its approval and with its dependencies recorded as completed |
| MissionGuarantees.SkippedReport | src/lib/missions/mission-runtime.ts:190-194 | In every report a task is skipped exactly when it was reached and a task it transitively depends on is recorded as failed |
| MissionGuarantees.AttemptedExactly | src/lib/missions/mission-runtime.ts:216-243 | In every report a completed or failed task has at least one attempt if and only if its executor is registered and its policy is not NaN |
| MissionGuarantees.NeverAttemptedMission | src/lib/missions/retry-manager.ts:9-12 | A mission whose NaN policy makes it fail without an attempt, though every attempt would succeed |
| MissionGuarantees.FlickeringReport | src/lib/missions/mission-runtime.ts:185-286 | Every plannable mission cancelled at the first poll and not at the second is reported as completed with all tasks pending |
| MissionGuarantees.FlickeringMission | src/lib/missions/mission-runtime.ts:185-286 | Such a mission and its report |
| MissionGuarantees.ReportTrace | src/lib/missions/mission-runtime.ts:161-286 | Every report has one closing event, its last; each start follows the completion of all dependencies, has its approval, and is followed by an end of its task; a mission that governance or the planner stopped starts none |
| MissionGuarantees.ReportTaskEvents | src/lib/missions/mission-runtime.ts:211-253 | In every report a task starts as often as it ends: once if recorded as completed or failed, with that very event, and otherwise never |
| MissionOrder.ReportOrder | src/lib/missions/mission-runtime.ts:184-253 | The order of all task events of every report, for every consistent comparator: layer after layer; within a layer all starts before all ends, starts in the planner's order, ends in the comparator's, and in the planner's where it does not tell ids apart |
| MissionOrder.OnlyTaskEvents | src/lib/missions/mission-runtime.ts:180-286 | All events of a report but the first and the last are about tasks of the plan |
| Sorting.SortByStable | src/lib/missions/mission-runtime.ts:242 | Sorting by any total and transitive comparator gives a sorted list that keeps the order of what the comparator does not tell apart |
| MissionGuarantees.ReportConservation | src/lib/missions/mission-runtime.ts:53-99 | The seven counters add up to the number of tasks, although ready is not counted; `totalRetries` is the sum of attempts after the first, within what the policies allow |
| MissionReport.ReportConserves | src/lib/missions/mission-runtime.ts:53-96 | For any records: the counters leave out exactly the ready ones, and total attempts less tasks run is the retries |
| MissionReport.CountIs | src/lib/missions/mission-runtime.ts:53-66 | Each counter is the number of positions with a record in that state |
| MissionReport.AttemptsAre | src/lib/missions/mission-runtime.ts:85-96 | Total attempts are the pairs of a record and the number of one of its attempts; retries those with a number above 1 |
| MissionReport.RetriesWithinAllowance | src/lib/missions/retry-manager.ts:9-12 | Attempts within their limits give retries within the sum of limits less one |
| MissionGuarantees.ExecutionsConserved | src/lib/missions/mission-runtime.ts:38-49 | Over any sequence of calls and resets, executions are completed plus failed plus blocked plus cancelled plus waiting, plus those governance broke off |
| MissionGuarantees.RuntimeConserves | src/lib/missions/mission-runtime.ts:38-49 | The same of the counters of any runtime, for the calls it has had |
| MissionCounters.CountersCount | src/lib/missions/mission-runtime.ts:38-49 | After any calls and resets each counter is the number of calls since the last reset that ended in its way, and `executions` the number of all of them |
| MissionCounters.RuntimeCounts | src/lib/missions/mission-runtime.ts:38-49 | The same of every runtime object and the calls it has had |
| MissionCounters.StoppedCounts | src/lib/missions/mission-runtime.ts:161-175 | A blocked call moves the blocked counter and a call that cannot be planned the failed one; neither moves another counter of endings |
| BatchTypes.KeyIdentifiesExactly | src/lib/aiops/batch/batch-types.ts:62-76 | Having the same key means having the same provider, model, workload type and schema if and only if the first three contain no bar |
| BatchTypes.BarCollides | src/lib/aiops/batch/batch-types.ts:69-76 | For every request with a bar there is an incompatible request with the same key |
| BatchTypes.SameKeyCompatible | src/lib/aiops/batch/batch-types.ts:62-76 | Equal keys mean compatible requests as soon as one of the two is free of bars |
| JoinedText.JoinInjective | src/lib/aiops/batch/batch-types.ts:70-75 | Equally many parts with the same join are the same parts when those of one list are free of bars |
| JoinedText.JoinIdentifiesExactly | src/lib/aiops/batch/batch-types.ts:70-75 | Two or more parts can be read back from their join if and only if none has a bar |
| BatchTypes.BatchPolicyStore.Configure | src/lib/aiops/batch/batch-types.ts:57-59 | Replaces the policy as a whole |
| BatchCoordination.BatchQueue.Open | src/lib/aiops/batch/batch-queue.ts:37-41 | A fresh empty group under its key, last in order if the key is new, all other groups unchanged |
| BatchCoordination.BatchQueue.Delete | src/lib/aiops/batch/batch-queue.ts:43-45 | The key's group leaves the map and the order, nothing else changes |
| BatchCoordination.BatchQueue.Pending | src/lib/aiops/batch/batch-queue.ts:53-57 | Counts the entries of all open groups, each of which the order lists exactly once |
| BatchCoordination.BatchCoordinator.Accept | src/lib/aiops/batch/batch-scheduler.ts:87-106 | Disabled, bypassed, ineligible and held requests each take exactly their step of the model; a request is held if and only if the policy admits it, which is said in terms of its mode, bypass and lists |
| BatchScheduler.BatchScheduler.ResolveCompletion | src/lib/aiops/batch/batch-scheduler.ts:87-106 | The scheduler is where its history of steps leads a fresh one, this submission included; the request is held if and only if batching is enabled and not bypassed and each list of the policy that is not empty has its workload type, provider or model |
| BatchScheduler.BatchScheduler.Flush | src/lib/aiops/batch/batch-scheduler.ts:108-111 | The flush is one more step of the scheduler's history, and resumes what is held, group after group in the queue's order |
| BatchScheduler.BatchScheduler.Pending | src/lib/aiops/batch/batch-scheduler.ts:113-116 | What is pending is what the history admitted less what has been resumed |
| BatchScheduler.ResumedExactlyOnce | src/lib/aiops/batch/batch-scheduler.ts:100-105 | Of every scheduler object: each request has, as often as it was admitted, been resumed or is in the queue's one group of its key |
| BatchScheduler.QueueInOpeningOrder | src/lib/aiops/batch/batch-queue.ts:37-41 | Of every scheduler object: of two groups in the queue the one listed first was opened first, by an earlier admitted request |
| BatchScheduler.ClockAndPolicy | src/lib/aiops/batch/batch-scheduler.ts:54-64 | Of every scheduler object: its clock shows the start and what has passed since, its policy is the one configured last |
| BatchScheduler.GroupsTimed | src/lib/aiops/batch/batch-coordinator.ts:51-61 | Of every scheduler object: each group holds a request and has its own timer running, and no timer runs without its group |
| BatchScheduler.CountersTrue | src/lib/aiops/batch/batch-metrics.ts:40-69 | Of every scheduler object: the collector's counters are those of the requests resumed and the groups open |
| BatchCoordination.BatchCoordinator.Enqueue | src/lib/aiops/batch/batch-coordinator.ts:42-56 | Opens or extends the key's group, announces it, and dispatches, arms a timer or neither, as the model's step |
| BatchCoordination.BatchCoordinator.Dispatch | src/lib/aiops/batch/batch-coordinator.ts:58-68 | Clears the timer, removes the group, announces the batch and resumes every entry in order; a key without a group changes nothing |
| BatchCoordination.BatchCoordinator.Release | src/lib/aiops/batch/batch-coordinator.ts:67 | The resumed requests are the released batches, entry by entry |
| BatchCoordination.BatchCoordinator.TimerFires | src/lib/aiops/batch/batch-coordinator.ts:54 | A fired timer is spent and dispatches its own key |
| BatchCoordination.BatchCoordinator.Flush | src/lib/aiops/batch/batch-coordinator.ts:72-74 | Dispatches every group open at the call, in opening order |
| BatchTimers.StepTimed | src/lib/aiops/batch/batch-coordinator.ts:42-74 | Every step, however late a timer fires, keeps the timer protocol: every open group is non-empty and owns its live timer, and no timer is without its group |
| BatchTimers.OneTimerPerGroup | src/lib/aiops/batch/batch-coordinator.ts:51-61 | Open groups and live timers correspond one to one |
| BatchTimers.FireTimed | src/lib/aiops/batch/batch-coordinator.ts:54-61 | A firing timer dispatches the very group it was armed for: never a later batch of the same key |
| BatchTimers.FiresOnTime | src/lib/aiops/batch/batch-coordinator.ts:54 | A due timer that is at most `slack` late releases its group at the end of the wait in force at its opening, or at most `slack` after |
| BatchTimers.RunInTime | src/lib/aiops/batch/batch-coordinator.ts:51-68 | Over every run whose timers are at most `slack` late, each released batch kept its wait bound plus `slack`, whatever the policy became |
| BatchTimers.FlushEmpties | src/lib/aiops/batch/batch-coordinator.ts:70-74 | After a flush no group is open and no timer lives |
| BatchOrder.RunInOrder | src/lib/aiops/batch/batch-queue.ts:37-45 | Every run keeps the open groups listed in the order of the positions in the log at which they were opened |
| BatchOrder.GroupsInOpeningOrder | src/lib/aiops/batch/batch-queue.ts:37-62 | From a fresh scheduler, after every run: two open groups are listed in the order in which the first requests they hold were enqueued |
| BatchOrder.FlushReleasesInOrder | src/lib/aiops/batch/batch-coordinator.ts:70-74 | Of two batches of one flush, after every run, the one whose group was opened first comes first in the batches, and all its requests before those of the other in the releases |
| BatchOrder.FlushGathers | src/lib/aiops/batch/batch-coordinator.ts:70-74 | A flush resumes exactly what is held, group after group in the queue's order |
| BatchOrigins.StepEvolves | src/lib/aiops/batch/batch-coordinator.ts:42-68 | Whatever the step: what is open after it was open before or is opened by it, and so were the batches it releases, which are released at its time |
| BatchOrigins.GroupOrigin | src/lib/aiops/batch/batch-coordinator.ts:42-55 | After every run an open group was opened by the submission of its first request, at the clock it records and with the wait of the policy then in force |
| BatchOrigins.BatchOrigin | src/lib/aiops/batch/batch-coordinator.ts:42-68 | The same of every released batch, and one step released it, at whose time it records its release |
| BatchHistory.RunOrdered | src/lib/aiops/batch/batch-coordinator.ts:42-68 | Over every run, policy changes included: per key, enqueued is released batch by batch followed by held |
| BatchHistory.ReleasedExactlyOnce | src/lib/aiops/batch/batch-coordinator.ts:42-79 | Each request occurs in the releases and in its key's group together as often as it was enqueued, and in no other group |
| BatchHistory.BatchesKeyed | src/lib/aiops/batch/batch-scheduler.ts:98-105 | A released batch holds requests of its own key only |
| BatchHistory.RunSized | src/lib/aiops/batch/batch-coordinator.ts:51-52 | Steps that keep the size bound keep the sizes: a batch dispatched for its size has exactly the bound, other batches and open groups have fewer |
| BatchGuarantees.SizesKept | src/lib/aiops/batch/batch-coordinator.ts:51-52 | From a fresh scheduler, while `maxBatchSize` (at least 1) stays the same, a batch dispatched for its size has exactly so many entries, and every other batch and every open group has fewer |
| BatchGuarantees.RunLog | src/lib/aiops/batch/batch-scheduler.ts:88-104 | The enqueued log of a run is exactly the submitted requests that the policy of the moment admitted |
| BatchGuarantees.RunClock | src/lib/aiops/batch/batch-coordinator.ts:37-60 | Over every run the clock that groups are stamped with advances by the time that passes, and by nothing else |
| BatchGuarantees.RunPolicy | src/lib/aiops/batch/batch-types.ts:46-60 | After every run the policy in force is the one configured last, or that of the start |
| BatchGuarantees.AdmittedExactlyOnce | src/lib/aiops/batch/batch-coordinator.ts:42-79 | From a fresh scheduler, every request is, exactly as often as it was admitted, released or held in the one open group of its key: never twice and never lost |
| BatchGuarantees.AdmittedInOrder | src/lib/aiops/batch/batch-coordinator.ts:42-68 | From a fresh scheduler, per key, first in is first out |
| BatchGuarantees.PendingExactly | src/lib/aiops/batch/batch-coordinator.ts:72-79 | `pending()` is admitted minus released, and zero after a flush |
| BatchGuarantees.WaitBounded | src/lib/aiops/batch/batch-coordinator.ts:51-61 | From a fresh scheduler whose timers are at most `slack` late, nothing is released or still held later than its group's opening plus the wait then in force plus `slack` |
| BatchGuarantees.BatchesIsolate | src/lib/aiops/batch/batch-types.ts:62-76 | Requests of one released batch agree on all four parts of the key, when one of them is free of bars |
| BatchMetrics.BatchMetricsCollector.OnEvent | src/lib/aiops/batch/batch-metrics.ts:40-69 | Each event moves its own counters and no others |
| BatchMetrics.BatchMetricsCollector.Snapshot | src/lib/aiops/batch/batch-metrics.ts:71-84 | Shows the five counters, and means that times their numbers of samples give back the sums collected, or zero without samples |
| BatchMetrics.BatchMetricsCollector.Reset | src/lib/aiops/batch/batch-metrics.ts:86-97 | All ten counters are zero |
| BatchMetrics.RunAgrees | src/lib/aiops/batch/batch-metrics.ts:40-69 | After every run: created is finished batches plus open groups, dispatched and expired count the batches by reason, batched and waited are their true sums |
| BatchMetrics.RequestsConserved | src/lib/aiops/batch/batch-metrics.ts:40-84 | Batched plus pending plus bypassed is the number of requests seen while batching was enabled |
| BatchMetrics.SnapshotMeans | src/lib/aiops/batch/batch-metrics.ts:71-84 | Average size times finished batches is the requests truly released; average latency times finished batches is the milliseconds they truly waited; the scheduling delay is the latency |
| BatchUtilization.UtilizationFull | src/lib/aiops/batch/batch-metrics.ts:52-55 | Over every run the mean utilization, once sampled, is at least 1, and exactly 1 while `maxBatchSize` (at least 1) stays the same |
| BatchUtilization.SharesCollected | src/lib/aiops/batch/batch-metrics.ts:44-56 | The collected utilization is the sum of what the sampled batches add, each of which times the batch's capacity is its size |
| BatchMetrics.RunTold | src/lib/aiops/batch/batch-scheduler.ts:64-83 | The queued events name every held request in order, the completed events every released batch by lead and size in order |
| BatchStream.EventsFit | src/lib/aiops/batch/batch-scheduler.ts:64-83 | After every run every event fits the stream: a batch is created right before its first request is queued, each queued request has the next position in its batch, a batch completes right after the event that says why it was released, with the same first request and as many requests as were queued for it |
| BatchStream.BatchesAnnounced | src/lib/aiops/batch/batch-scheduler.ts:71-83 | After every run one dispatched or expired event for each released batch, in order, with its first request, its size, how long it waited and the right reason |
| BatchStream.PassesThrough | src/lib/aiops/batch/batch-scheduler.ts:87-96 | A request that is not admitted changes nothing, except that while batching is enabled it is counted and one event names the reason |
| AgentRunner.RunAgent | src/lib/aiops/agents/agent-runner.ts:94-158 | The loop ends on every graph with the run of its recursive specification: recorded steps, and output or failure |
| AgentRunner.FirstEnabledMeaning | src/lib/aiops/agents/agent-runner.ts:251-264 | The chosen edge is an enabled outgoing one and no edge listed earlier is; none is chosen only if none is enabled |
| AgentGuarantees.StartNodeMeaning | src/lib/aiops/agents/agent-runner.ts:106 | A walk starts at the first listed input node, or at the first node when there is none |
| AgentGuarantees.NextNodeMeaning | src/lib/aiops/agents/agent-runner.ts:251-264 | The walk goes to the last listed node that the first open edge out of the current node names, or nowhere when no edge is open or no node has that id |
| AgentProperties.RunSound | src/lib/aiops/agents/agent-runner.ts:106-158 | What the loop keeps, for every run: no node twice, steps and calls within budgets and number of nodes, costs over the budget only at the end, each step the node the walk leads to, each input the initial one overridden by earlier outputs in order, completed only at the walk's end, failed only for the first reason there is |
| AgentGuarantees.WalkStep | src/lib/aiops/agents/agent-runner.ts:106-151 | Step `i` of every run executes the start node, or the last listed node that the first edge open after the step before names; its input is what the step before left; it gave the recorded output, in time, within the steps, and on a node not executed before |
| AgentGuarantees.StepsJoined | src/lib/aiops/agents/agent-runner.ts:257-262 | Any two consecutive steps are joined by an edge from the one to the other that is open on the blackboard between them, and no edge listed before it is |
| AgentGuarantees.WalkBudgets | src/lib/aiops/agents/agent-runner.ts:112-148 | Every run has at most `maxSteps` steps and `maxFunctionCalls` function steps, and the sum of the costs exceeds `maxCostUsd` only after the last step, exactly when the run fails for its cost |
| AgentGuarantees.WalkCompletes | src/lib/aiops/agents/agent-runner.ts:150-158 | A completed run gives the blackboard after its last step and stops at an output node or where the walk goes nowhere; without any step only in an empty graph |
| AgentGuarantees.WalkFails | src/lib/aiops/agents/agent-runner.ts:108-134 | A run that fails, but not for its cost, stops before the node the walk goes on to, for the first reason there is: executed already, steps, time, calls, or a failed execution |
| AgentProperties.BudgetsOnlyCut | src/lib/aiops/agents/agent-runner.ts:112-148 | Higher budgets change nothing in a run no budget stopped, and only extend one that a budget stopped |
| AuditChain.VerifyAuditChain | src/lib/security/audit-integrity-service.ts:13-46 | Selects the window, sorts by timestamp and accepts exactly the logs in which every event is linked and sealed; a rejection names the earliest violating event and the right reason; no event later than a non-empty `to` or earlier than a non-empty `from` is counted or blamed, and every other one is counted |
| AuditChain.CheckedAreWithin | src/lib/security/audit-integrity-service.ts:19-23 | What is verified are the rows within the window, each once |
| AuditChain.WindowAcceptedExactly | src/lib/security/audit-integrity-service.ts:19-28 | A window of an accepted log is accepted if and only if it takes in the log's first event, or nothing |
| AuditOrder.ScanStable | src/lib/security/audit-integrity-service.ts:23 | The scan order keeps, for each timestamp, the stored order of its events |
| AuditOrder.ScanChronological | src/lib/security/audit-integrity-service.ts:23 | In the scan order timestamps never go back |
| AuditOrder.StableSortUnique | src/lib/security/audit-integrity-service.ts:23 | Two sorted logs with the same events for each timestamp, in order, are the same: the scan order is the only stable sort |
| AuditOrder.ScanSelected | src/lib/security/audit-integrity-service.ts:19-23 | Selecting a window and then sorting is sorting and then selecting |
| AuditChain.LastHashDeterminesLog | src/lib/security/audit-integrity-service.ts:30-46 | Two accepted non-empty logs with the same last hash are equally long and equal, event by event, in everything the hash covers |
| AuditChain.HashesDistinct | src/lib/security/audit-integrity-service.ts:30-46 | No hash occurs twice in an accepted log |
| AuditChain.AcceptanceIgnoresTheRest | src/lib/lawrence-core/audit/audit-hash-service.ts:17-43 | Fields the hash does not cover never matter to acceptance |
| AuditFields.SameBodyFields | src/lib/lawrence-core/audit/audit-hash-service.ts:18-26 | Equal hashed content means equal fields, missing and empty subjects counted as the same, as soon as tenant, action and subject of one event contain no bar; metadata is JSON text and may |
| AuditFields.OtherFields | src/lib/lawrence-core/audit/audit-hash-service.ts:18-26 | A bar in tenant, action or subject allows an event with other fields and the same hashed content |
| AuditFields.FieldsIdentifiedExactly | src/lib/lawrence-core/audit/audit-hash-service.ts:18-26 | The hashed content stands for one combination of stored fields if and only if tenant, action and subject contain no bar and the subject's type and id are present and non-empty |
| AuditFields.TextFieldsIdentifiedExactly | src/lib/lawrence-core/audit/audit-hash-service.ts:18-26 | With missing and empty subjects counted as the same it does so if and only if there is no such bar |
| AuditFields.Double | src/lib/lawrence-core/audit/audit-hash-service.ts:21-22 | Every event that fails the condition has a double with other stored fields and the same hashed content |
| AuditFields.TextsIdentifiedExactly | src/lib/lawrence-core/audit/audit-hash-service.ts:18-26 | Over arbitrary texts in all six fields it does so if and only if none of the six contains a bar |
| AuditFields.LogPinnedExactly | src/lib/security/audit-integrity-service.ts:30-46 | The last hash of an accepted log pins down every stored field that is hashed, and every hash, if and only if each event names its subject and has no bar in tenant, action and subject |
| AuditFields.LogTextPinnedExactly | src/lib/security/audit-integrity-service.ts:30-46 | With missing and empty subjects counted as the same it does so if and only if there is no such bar |
| AuditAppend.LatestIsLast | src/lib/lawrence-core/audit/audit-service.ts:8-14 | In a sorted log the tail lookup finds the last event exactly when that event does not share its timestamp with the one before |
| AuditAppend.LatestScanned | src/lib/lawrence-core/audit/audit-service.ts:8-14 | The tail lookup finds the same event in the stored rows and in the sorted log |
| AuditAppend.EmitAcceptedExactly | src/lib/lawrence-core/audit/audit-service.ts:16-42 | For all stored rows: appending leaves an accepted log if and only if the log was accepted, its last timestamp is its own alone, and the draft is not stamped earlier |
| AuditAppend.EarlierNeverAccepted | src/lib/lawrence-core/audit/audit-service.ts:22-24 | An event that is scanned before the tail it names breaks the chain |
| AuditAppend.EmittedLogAcceptedExactly | src/lib/lawrence-core/audit/audit-service.ts:16-42 | Any number of appends to an empty log leave an accepted log if and only if their timestamps never go back and no two but the last two are equal |
| AuditAppend.OneProcessAccepted | src/lib/lawrence-core/audit/audit-service.ts:16-42 | Appends with rising timestamps, as one process makes them, always leave an accepted log |
| AuditAppend.RestartBreaks | src/lib/lawrence-core/utils/ids.ts:15-18 | A clock that starts again: the third of three appends is stamped like the first, and the log is no longer accepted |
| AuditAppend.ThirdCopyBreaks | src/lib/lawrence-core/utils/ids.ts:15-18 | Clocks that agree, as those of several processes do: of three appends with one timestamp, the third makes the log unacceptable |

## Left out

- User interface, routes, database, persistence, telemetry, notifications and the tenant checks around the four cores.
- The evaluation of governance.
- MissionRuntime.Runtime.ExecuteMission: the report is without its governance block, durations, timestamps and execution ids, and its task records without outputs and error texts; executor hooks, which would escape the call if they threw, are taken not to throw.
- RetryManager.RunWithRetry: does not model an infinite `maxAttempts`, whose loop need not end, nor the value of a success and the last error, which are those of the attempt it names.
- Task records as shared objects: the runtime's records are values in a map keyed by task id, so aliasing is not captured.
- Overlapping calls of `executeMission`, and the interleaving of executors within a layer: each executor's outcome is fixed and outcomes are applied after all have ended, as the code does.
- MissionGuarantees.CompletedReport: needs a steady cancellation callback; the exact condition is in MissionGuarantees.CompletedReportExactly.
- MissionGuarantees.WaitingReport: speaks of waiting reports only; in cancelled ones waiting tasks become cancelled but stay in the list, and MissionOutcomes.ApprovalsOutcome says what the list is there.
- MissionOrder.ReportOrder: supposes that the locale's comparator is total and transitive, as `localeCompare` is; what a sort makes of any other is not said.
- BatchTypes.KeyIdentifiesExactly: takes the schema fingerprint as an opaque text without bars; the digest of a key, which events also carry, is not modelled.
- `maxBatchSize` that is not an integer, negative waits, and a clock that runs backwards.
- BatchGuarantees.WaitBounded: no bound is claimed for timers that can be late without limit.
- BatchHistory.RunSized: supposes that the size bound does not change; a lowered bound can leave larger groups open.
- Bus subscribers that call back into the scheduler, timer services that fire synchronously, and subscribers other than the metrics.
- The condition texts of agent edges (`src/lib/aiops/agents/agent-runner.ts:267-289`): a condition holds or not, as the environment says.
- What the kinds of agent nodes do (`src/lib/aiops/agents/agent-runner.ts:190-249`), wall-clock time, and the timestamps of recorded steps; an agent's cost is a real number.
- AuditChain.LastHashDeterminesLog: supposes a hash without collisions (`AuditEvents.DigestExists`: there are such functions); identifiers of events and acting users are not hashed and not pinned down.
- AuditFields.FieldsIdentifiedExactly: takes timestamps to be free of bars, and of JSON texts uses only that string literals are closed and that bars and backslashes occur nowhere else.
- AuditChain.VerifyAuditChain: timestamps are compared as UTF-16 texts, which for ISO timestamps is also the locale's order; the stored integrity check and the finding are not modelled.
- AuditAppend.EmitAcceptedExactly: takes rows to be listed in the order of their insertion and the ids of events to be fresh; an append with a stored id replaces that row, and concurrent appends are not modelled.
- The JSON text of audit metadata stands for the metadata.
