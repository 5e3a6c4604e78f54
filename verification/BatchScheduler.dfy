/** The batch scheduler: what callers and the environment do to it is a run of the model, and
    what the runs guarantee holds of the object. */
module BatchScheduler {
  import opened BatchTypes
  import opened BatchModel
  import opened BatchTimers
  import opened BatchHistory
  import opened BatchOrder
  import opened BatchGuarantees
  import opened BatchCoordination

  lemma {:induction false} RunOneMore(s: State, steps: seq<Step>, step: Step)
    requires AllowedRun(s, steps) && Allowed(Run(s, steps), step)
    ensures AllowedRun(s, steps + [step]) && Run(s, steps + [step]) == Next(Run(s, steps), step)
    decreases |steps|
  {
    if steps == [] {
      assert [] + [step] == [step];
    } else {
      RunOneMore(Next(s, steps[0]), steps[1..], step);
      assert (steps + [step])[1..] == steps[1..] + [step];
    }
  }

  /** Taking `steps` from a fresh scheduler leads to `t`. */
  ghost predicate LeadsTo(policy: BatchPolicy, start: nat, steps: seq<Step>, t: State) {
    AllowedRun(Initial(policy, start), steps) && Run(Initial(policy, start), steps) == t
  }

  lemma OneStepOn(policy: BatchPolicy, start: nat, steps: seq<Step>, s: State, step: Step, t: State)
    requires LeadsTo(policy, start, steps, s) && Allowed(s, step) && t == Next(s, step)
    ensures LeadsTo(policy, start, steps + [step], t)
  {
    RunOneMore(Initial(policy, start), steps, step);
  }

  lemma SubmitOn(policy: BatchPolicy, start: nat, steps: seq<Step>, s: State, r: Request, t: State)
    requires LeadsTo(policy, start, steps, s) && t == Resolve(s, r)
    ensures LeadsTo(policy, start, steps + [Submit(r)], t)
  {
    OneStepOn(policy, start, steps, s, Submit(r), t);
  }

  lemma FireOn(policy: BatchPolicy, start: nat, steps: seq<Step>, s: State, id: nat, t: State)
    requires LeadsTo(policy, start, steps, s) && id in s.timers.live && t == Fire(s, id)
    ensures LeadsTo(policy, start, steps + [Step.TimerFires(id)], t)
  {
    OneStepOn(policy, start, steps, s, Step.TimerFires(id), t);
  }

  lemma FlushOn(policy: BatchPolicy, start: nat, steps: seq<Step>, s: State, t: State)
    requires LeadsTo(policy, start, steps, s) && t == FlushKeys(s, s.queue.order)
    ensures LeadsTo(policy, start, steps + [Step.Flush], t)
  {
    OneStepOn(policy, start, steps, s, Step.Flush, t);
  }

  lemma FlushResumes(policy: BatchPolicy, start: nat, steps: seq<Step>, s: State)
    requires LeadsTo(policy, start, steps, s)
    ensures Releases(FlushKeys(s, s.queue.order).batches) == Releases(s.batches) + Gathered(s.queue.groups, s.queue.order)
  {
    InvariantsHold(policy, start, steps);
    FlushGathers(s);
  }

  class BatchScheduler {
    const coordinator: BatchCoordinator

    // history: how the scheduler was set up, and every step it has taken since
    ghost const policy: BatchPolicy
    ghost const start: nat
    ghost var steps: seq<Step>

    constructor (policy: BatchPolicy, start: nat)
      ensures Valid() && steps == [] && this.policy == policy && this.start == start
      ensures fresh(coordinator) && fresh(coordinator.store) && fresh(coordinator.queue)
      ensures fresh(coordinator.timers) && fresh(coordinator.bus) && fresh(coordinator.bus.metrics)
    {
      coordinator := new BatchCoordinator(policy, start);
      this.policy, this.start, steps := policy, start, [];
    }

    /** The coordinator is where the run of the steps leads. */
    ghost predicate Recorded()
      reads this, coordinator, coordinator.store, coordinator.queue, coordinator.timers, coordinator.bus
    {
      LeadsTo(policy, start, steps, coordinator.State())
    }

    ghost predicate Valid()
      reads this, coordinator, coordinator.store, coordinator.queue, coordinator.queue.groups.Values
      reads coordinator.timers, coordinator.bus, coordinator.bus.metrics
    {
      coordinator.Valid() && Recorded()
    }

    /** Adds the step that has just been taken to the history. */
    ghost method Record(step: Step)
      requires coordinator.Valid() && LeadsTo(policy, start, steps + [step], coordinator.State())
      modifies this`steps
      ensures Valid() && steps == old(steps) + [step]
    {
      steps := steps + [step];
    }

    /** Holds the request until its batch is released, or lets it pass at once. */
    method ResolveCompletion(request: Request) returns (held: bool)
      requires Valid()
      modifies this`steps, coordinator, coordinator.queue, coordinator.queue.groups.Values
      modifies coordinator.timers, coordinator.bus, coordinator.bus.metrics
      ensures Valid() && steps == old(steps) + [Submit(request)]
      ensures held <==> Admits(old(coordinator.store.policy), request)
    {
      ghost var s := coordinator.State();
      held := coordinator.Accept(request);
      SubmitOn(policy, start, steps, s, request, coordinator.State());
      Record(Submit(request));
    }

    method TimerFires(id: nat)
      requires Valid() && id in coordinator.timers.live
      modifies this`steps, coordinator, coordinator.queue, coordinator.timers, coordinator.bus, coordinator.bus.metrics
      ensures Valid() && steps == old(steps) + [Step.TimerFires(id)]
    {
      ghost var s := coordinator.State();
      coordinator.TimerFires(id);
      FireOn(policy, start, steps, s, id, coordinator.State());
      Record(Step.TimerFires(id));
    }

    method Flush()
      requires Valid()
      modifies this`steps, coordinator, coordinator.queue, coordinator.timers, coordinator.bus, coordinator.bus.metrics
      ensures Valid() && steps == old(steps) + [Step.Flush]
      ensures coordinator.resumed
        == old(coordinator.resumed) + Gathered(old(coordinator.queue.contents).groups, old(coordinator.queue.order))
    {
      ghost var s := coordinator.State();
      FlushResumes(policy, start, steps, s);
      coordinator.Flush();
      FlushOn(policy, start, steps, s, coordinator.State());
      Record(Step.Flush);
    }

    method Configure(next: BatchPolicy)
      requires Valid()
      modifies this`steps, coordinator.store
      ensures Valid() && steps == old(steps) + [Step.Configure(next)]
    {
      ghost var s := coordinator.State();
      coordinator.Configure(next);
      OneStepOn(policy, start, steps, s, Step.Configure(next), coordinator.State());
      Record(Step.Configure(next));
    }

    method Wait(ms: nat)
      requires Valid()
      modifies this`steps, coordinator.timers
      ensures Valid() && steps == old(steps) + [Tick(ms)]
    {
      ghost var s := coordinator.State();
      coordinator.Wait(ms);
      OneStepOn(policy, start, steps, s, Tick(ms), coordinator.State());
      Record(Tick(ms));
    }

    /** What is held is what was admitted and has not been resumed. */
    method Pending() returns (n: nat)
      requires Valid()
      ensures AllowedRun(Initial(policy, start), steps)
      ensures n == |Admitted(Initial(policy, start), steps)| - |coordinator.resumed|
    {
      PendingExactly(policy, start, steps);
      n := coordinator.Pending();
    }
  }

  // ----- what holds of every scheduler object

  /** Every request that was admitted has, as often as it was admitted, been resumed or is in
      the queue's one group of its key. */
  lemma ResumedExactlyOnce(b: BatchScheduler, r: Request)
    requires b.Valid()
    ensures AllowedRun(Initial(b.policy, b.start), b.steps)
    ensures multiset(Admitted(Initial(b.policy, b.start), b.steps))[r]
      == multiset(b.coordinator.resumed)[r]
       + if BatchKey(r) in b.coordinator.queue.groups then multiset(b.coordinator.queue.groups[BatchKey(r)].entries)[r] else 0
  {
    AdmittedExactlyOnce(b.policy, b.start, b.steps, r);
  }

  /** Of two groups in the queue the one listed first was opened first: the first request it
      holds comes earlier in the log of admitted requests, at the position given. */
  lemma QueueInOpeningOrder(b: BatchScheduler, i: nat, j: nat) returns (x: nat, y: nat)
    requires b.Valid() && i < |b.coordinator.queue.order| && j < |b.coordinator.queue.order|
    ensures var q := b.coordinator.queue;
      && q.order[i] in q.groups && OpenedWith(b.coordinator.State(), q.order[i], q.groups[q.order[i]].entries, x)
      && q.order[j] in q.groups && OpenedWith(b.coordinator.State(), q.order[j], q.groups[q.order[j]].entries, y)
      && (i < j <==> x < y)
    ensures AllowedRun(Initial(b.policy, b.start), b.steps)
    ensures b.coordinator.enqueued == Admitted(Initial(b.policy, b.start), b.steps)
  {
    x, y := GroupsInOpeningOrder(b.policy, b.start, b.steps, i, j);
    RunLog(Initial(b.policy, b.start), b.steps);
    assert [] + Admitted(Initial(b.policy, b.start), b.steps) == Admitted(Initial(b.policy, b.start), b.steps);
  }

  /** The clock shows the start and what has passed since; the policy is the one configured
      last, at the step before `n`, or the first one when there was none. */
  lemma ClockAndPolicy(b: BatchScheduler, n: nat)
    requires b.Valid() && n <= |b.steps| && forall i :: n <= i < |b.steps| ==> !b.steps[i].Configure?
    ensures b.coordinator.timers.now == b.start + Elapsed(b.steps)
    ensures n == 0 ==> b.coordinator.store.policy == b.policy
    ensures n > 0 && b.steps[n - 1].Configure? ==> b.coordinator.store.policy == b.steps[n - 1].policy
  {
    RunClock(Initial(b.policy, b.start), b.steps);
    RunPolicy(Initial(b.policy, b.start), b.steps, n);
  }

  /** Every group in the queue holds a request and has its own timer running, and no timer
      runs without its group. */
  lemma GroupsTimed(b: BatchScheduler)
    requires b.Valid()
    ensures forall k :: k in b.coordinator.queue.groups ==>
      var g := b.coordinator.queue.groups[k];
      && g.entries != [] && g.timer.Some?
      && g.timer.value in b.coordinator.timers.live && b.coordinator.timers.live[g.timer.value].key == k
    ensures forall t :: t in b.coordinator.timers.live ==> b.coordinator.timers.live[t].key in b.coordinator.queue.groups
  {
    InvariantsHold(b.policy, b.start, b.steps);
    var s := b.coordinator.State();
    forall k | k in b.coordinator.queue.groups ensures GroupTimed(s, k) {
    }
  }

  /** The collector's counters are those of the requests resumed and of the groups open. */
  lemma CountersTrue(b: BatchScheduler)
    requires b.Valid()
    ensures var c := b.coordinator.bus.metrics.Counters();
      && c.created == c.dispatched + c.expired + |b.coordinator.queue.groups|
      && c.batched == |b.coordinator.resumed|
  {
    InvariantsHold(b.policy, b.start, b.steps);
    var q := b.coordinator.queue;
    assert |q.groups| == |q.groups.Keys| == |q.contents.groups.Keys| == |q.contents.groups|;
    ReleasesCount(b.coordinator.batches);
  }
}
