/** What every run of a fresh batch scheduler guarantees, in terms of the steps taken. */
module BatchGuarantees {
  import opened Sorting
  import opened JoinedText
  import opened BatchTypes
  import opened BatchModel
  import opened BatchTimers
  import opened BatchHistory
  import opened BatchMetrics

  /** The submitted requests that the policy in force at their submission held back. */
  ghost function Admitted(s: State, steps: seq<Step>): seq<Request>
    requires AllowedRun(s, steps)
    decreases |steps|
  {
    if steps == [] then []
    else
      (if steps[0].Submit? && Admits(s.policy, steps[0].request) then [steps[0].request] else [])
        + Admitted(Next(s, steps[0]), steps[1..])
  }

  lemma StepLog(s: State, step: Step)
    requires Allowed(s, step)
    ensures Next(s, step).enqueued
      == s.enqueued + if step.Submit? && Admits(s.policy, step.request) then [step.request] else []
  {
    FlushKeepsLog(s, s.queue.order);
  }

  lemma {:induction false} RunLog(s: State, steps: seq<Step>)
    requires AllowedRun(s, steps)
    ensures Run(s, steps).enqueued == s.enqueued + Admitted(s, steps)
    decreases |steps|
  {
    if steps != [] {
      var first := if steps[0].Submit? && Admits(s.policy, steps[0].request) then [steps[0].request] else [];
      StepLog(s, steps[0]);
      RunLog(Next(s, steps[0]), steps[1..]);
      ConcatAssociative(s.enqueued, first, Admitted(Next(s, steps[0]), steps[1..]));
    }
  }

  /** The milliseconds that pass during the steps. */
  ghost function Elapsed(steps: seq<Step>): nat {
    if steps == [] then 0 else (if steps[0].Tick? then steps[0].ms else 0) + Elapsed(steps[1..])
  }

  lemma {:induction false} FlushKeepsClock(s: State, keys: seq<Text>)
    ensures FlushKeys(s, keys).now == s.now && FlushKeys(s, keys).policy == s.policy
    decreases |keys|
  {
    if keys != [] {
      FlushKeepsClock(Dispatch(s, keys[0], ByTimeout), keys[1..]);
    }
  }

  /** Over every run the clock advances by the time that passes, and by nothing else. */
  lemma {:induction false} RunClock(s: State, steps: seq<Step>)
    requires AllowedRun(s, steps)
    ensures Run(s, steps).now == s.now + Elapsed(steps)
    decreases |steps|
  {
    if steps != [] {
      FlushKeepsClock(s, s.queue.order);
      RunClock(Next(s, steps[0]), steps[1..]);
    }
  }

  /** The policy in force after a run is the one configured last, or that of the start when
      none was: nothing but a configuration changes it. */
  lemma {:induction false} RunPolicy(s: State, steps: seq<Step>, n: nat)
    requires AllowedRun(s, steps) && n <= |steps|
    requires forall i :: n <= i < |steps| ==> !steps[i].Configure?
    ensures n == 0 ==> Run(s, steps).policy == s.policy
    ensures n > 0 && steps[n - 1].Configure? ==> Run(s, steps).policy == steps[n - 1].policy
    decreases |steps|
  {
    if steps != [] {
      FlushKeepsClock(s, s.queue.order);
      assert forall i :: 0 <= i < |steps| - 1 ==> steps[1..][i] == steps[i + 1];
      RunPolicy(Next(s, steps[0]), steps[1..], if n == 0 then 0 else n - 1);
    }
  }

  lemma InvariantsHold(p: BatchPolicy, now: nat, steps: seq<Step>)
    requires AllowedRun(Initial(p, now), steps)
    ensures var s := Run(Initial(p, now), steps);
      Timed(s) && Ordered(s) && Agrees(s) && Told(s) && Conserved(s)
  {
    InitialTimed(p, now);
    InitialOrdered(p, now);
    RunTimed(Initial(p, now), steps);
    RunOrdered(Initial(p, now), steps);
    RunAgrees(Initial(p, now), steps);
    RunTold(Initial(p, now), steps);
    RunConserved(Initial(p, now), steps);
  }

  /** Exactly once, for every run: each request that was admitted is, as often as it was
      admitted, either in the released sequence or in the one open group of its key. */
  lemma AdmittedExactlyOnce(p: BatchPolicy, now: nat, steps: seq<Step>, r: Request)
    requires AllowedRun(Initial(p, now), steps)
    ensures var s := Run(Initial(p, now), steps);
      && multiset(Admitted(Initial(p, now), steps))[r]
        == multiset(Releases(s.batches))[r] + multiset(HeldFor(s.queue, BatchKey(r)))[r]
      && forall k :: k in s.queue.groups && k != BatchKey(r) ==> r !in s.queue.groups[k].entries
  {
    InvariantsHold(p, now, steps);
    RunLog(Initial(p, now), steps);
    ReleasedExactlyOnce(Run(Initial(p, now), steps), r);
  }

  /** Per key, for every run: the admitted requests are the released ones followed by the
      ones still held. */
  lemma AdmittedInOrder(p: BatchPolicy, now: nat, steps: seq<Step>, k: Text)
    requires AllowedRun(Initial(p, now), steps)
    ensures var s := Run(Initial(p, now), steps);
      EnqueuedFor(Admitted(Initial(p, now), steps), k) == ReleasedFor(s.batches, k) + HeldFor(s.queue, k)
  {
    InvariantsHold(p, now, steps);
    RunLog(Initial(p, now), steps);
    var log := Admitted(Initial(p, now), steps);
    assert [] + log == log;
    assert InOrder(Run(Initial(p, now), steps), k);
  }

  lemma InitialSized(p: BatchPolicy, now: nat)
    ensures Sized(Initial(p, now), SizeBound(p))
  {
  }

  /** Under the policy a batch is full with `bound` requests: `maxBatchSize`, but at least one. */
  ghost predicate FullWith(p: BatchPolicy, bound: nat) {
    bound >= 1 && (bound == p.maxBatchSize || (bound == 1 && p.maxBatchSize < 1))
  }

  /** Sizes, for every run in which that number is never changed: a batch dispatched for its
      size has exactly so many entries, every other batch and every open group has fewer. */
  lemma SizesKept(p: BatchPolicy, now: nat, steps: seq<Step>, bound: nat)
    requires AllowedRun(Initial(p, now), steps) && FullWith(p, bound)
    requires forall i :: 0 <= i < |steps| && steps[i].Configure? ==> FullWith(steps[i].policy, bound)
    ensures var s := Run(Initial(p, now), steps);
      && (forall k :: k in s.queue.groups ==> |s.queue.groups[k].entries| < bound)
      && forall i :: 0 <= i < |s.batches| ==>
        if s.batches[i].reason == BySize then |s.batches[i].entries| == bound else |s.batches[i].entries| < bound
  {
    InitialSized(p, now);
    RunSized(Initial(p, now), steps, bound);
  }

  lemma {:induction false} ReleasesCount(batches: seq<Batch>)
    ensures SumSizes(batches) == |Releases(batches)|
  {
    if batches != [] {
      ReleasesCount(batches[..|batches| - 1]);
    }
  }

  /** `pending()` is admitted minus released, and nothing is pending after a flush. */
  lemma PendingExactly(p: BatchPolicy, now: nat, steps: seq<Step>)
    requires AllowedRun(Initial(p, now), steps)
    ensures var s := Run(Initial(p, now), steps);
      && Pending(s.queue) == |Admitted(Initial(p, now), steps)| - |Releases(s.batches)|
      && Pending(Next(s, Flush).queue) == 0
  {
    var s := Run(Initial(p, now), steps);
    InvariantsHold(p, now, steps);
    RunLog(Initial(p, now), steps);
    ReleasesCount(s.batches);
    FlushEmpties(s);
  }

  /** Bounded wait, for every run whose timers fire at most `slack` milliseconds late: no
      batch was released, and no group is still open, later than `slack` after the group's
      opening plus the wait then in force. */
  lemma WaitBounded(p: BatchPolicy, now: nat, steps: seq<Step>, slack: nat)
    requires AllowedRun(Initial(p, now), steps) && TimelyRun(Initial(p, now), steps, slack)
    ensures var s := Run(Initial(p, now), steps);
      && BatchesInTime(s.batches, slack)
      && forall k :: k in s.queue.groups ==> s.now <= s.queue.groups[k].createdAt + s.queue.groups[k].waitMs + slack
  {
    InvariantsHold(p, now, steps);
    InitialTimed(p, now);
    RunInTime(Initial(p, now), steps, slack);
    var s := Run(Initial(p, now), steps);
    forall k | k in s.queue.groups ensures s.now <= s.queue.groups[k].createdAt + s.queue.groups[k].waitMs + slack {
      HeldInTime(s, k, slack);
    }
  }

  /** Isolation, for every run: two requests of one released batch agree on provider, model,
      workload type and schema when one of them has no bar in them. */
  lemma BatchesIsolate(p: BatchPolicy, now: nat, steps: seq<Step>, i: nat, a: Request, b: Request)
    requires AllowedRun(Initial(p, now), steps)
    requires i < |Run(Initial(p, now), steps).batches|
    requires a in Run(Initial(p, now), steps).batches[i].entries && b in Run(Initial(p, now), steps).batches[i].entries
    requires BarFree(a) && NoBar(a.schema)
    ensures Compatible(a, b)
  {
    InvariantsHold(p, now, steps);
    BatchesCompatible(Run(Initial(p, now), steps), i, a, b);
  }
}
