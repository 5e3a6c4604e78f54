/** Mission definitions as the planner and the runtime receive them. */
module MissionTypes {
  import opened Sorting

  /** The optional retry policy: a missing `maxAttempts`, the number NaN, or a finite number. */
  datatype RetryPolicy = Unset | NotANumber | Finite(maxAttempts: real)

  /** A missing `dependsOn` list is the empty one. */
  datatype TaskDefinition = TaskDefinition(
    id: Id, executor: Id, dependsOn: seq<Id>, requiresApproval: bool, retry: RetryPolicy)

  datatype MissionDefinition = MissionDefinition(tasks: seq<TaskDefinition>)
  {
    function Ids(): (ids: seq<Id>)
      ensures |ids| == |tasks|
      ensures forall i :: 0 <= i < |tasks| ==> ids[i] == tasks[i].id
    {
      seq(|tasks|, i requires 0 <= i < |tasks| => tasks[i].id)
    }
  }
}
