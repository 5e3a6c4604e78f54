/** What the collector's utilization says: how full the batches dispatched for their size were. */
module BatchUtilization {
  import opened Wrappers
  import opened JoinedText
  import opened BatchTypes
  import opened BatchModel
  import opened BatchHistory
  import opened BatchMetrics
  import opened BatchGuarantees

  /** Sampled batches filled their capacity on average; `exact` says to the last place. */
  ghost predicate Utilized(s: State, exact: bool) {
    var t := Collect(s.events);
    && t.utilizationTotal >= t.utilizationSamples as real
    && (exact ==> t.utilizationTotal == t.utilizationSamples as real)
  }

  lemma ProductGrows(a: real, b: real, n: real)
    requires n > 0.0 && a < b
    ensures a * n < b * n
  {
  }

  /** A factor is compared with 1 as the product is with the other factor. */
  lemma FactorFromProduct(a: real, n: real)
    requires n > 0.0
    ensures a >= 1.0 <==> a * n >= n
    ensures a == 1.0 <==> a * n == n
  {
    if a < 1.0 { ProductGrows(a, 1.0, n); }
    if a > 1.0 { ProductGrows(1.0, a, n); }
  }

  lemma AtCapacity(size: nat, capacity: nat)
    requires size >= capacity > 0
    ensures Share(size, capacity) >= 1.0
    ensures size == capacity ==> Share(size, capacity) == 1.0
  {
    var share, n := Share(size, capacity), capacity as real;
    FactorFromProduct(share, n);
    if size == capacity {
      assert share * n == n;
    }
  }

  lemma PushUtilized(s: State, key: Text, r: Request, exact: bool)
    requires Utilized(s, exact)
    ensures Utilized(Push(s, key, r), exact)
  {
    if key in s.queue.groups {
      CollectOne(s.events, BatchQueued(r, |s.queue.groups[key].entries| + 1));
    } else {
      CollectTwo(s.events, BatchCreated(r), BatchQueued(r, 1));
    }
  }

  /** A batch announced for its size has at least the size it was dispatched for. */
  lemma DispatchUtilized(s: State, key: Text, reason: DispatchReason, exact: bool)
    requires Utilized(s, exact)
    requires reason == BySize && key in s.queue.groups ==>
      var size := |s.queue.groups[key].entries|;
      size >= SizeBound(s.policy) && (exact ==> size == SizeBound(s.policy))
    ensures Utilized(Dispatch(s, key, reason), exact)
  {
    if key in s.queue.groups && s.queue.groups[key].entries != [] {
      var g := s.queue.groups[key];
      var a := Announcement(g, reason, s.now, s.policy.maxBatchSize);
      CollectTwo(s.events, a[0], a[1]);
      assert a == [a[0], a[1]];
      if reason == BySize && s.policy.maxBatchSize > 0 {
        AtCapacity(|g.entries|, s.policy.maxBatchSize);
      }
    }
  }

  lemma EnqueueUtilized(s: State, key: Text, r: Request, exact: bool)
    requires Utilized(s, exact)
    requires exact && key in s.queue.groups ==> |s.queue.groups[key].entries| < SizeBound(s.policy)
    ensures Utilized(Enqueue(s, key, r), exact)
  {
    var s1 := Push(s, key, r);
    PushUtilized(s, key, r, exact);
    if |s1.queue.groups[key].entries| >= SizeBound(s1.policy) {
      DispatchUtilized(s1, key, BySize, exact);
    }
  }

  lemma ResolveUtilized(s: State, r: Request, exact: bool)
    requires Utilized(s, exact)
    requires exact && BatchKey(r) in s.queue.groups ==> |s.queue.groups[BatchKey(r)].entries| < SizeBound(s.policy)
    ensures Utilized(Resolve(s, r), exact)
  {
    if s.policy.mode != BatchMode.Enabled {
    } else if s.policy.bypass {
      CollectOne(s.events, BatchBypassed(r, PolicyBypass));
    } else if !BatchEligible(s.policy, r) {
      CollectOne(s.events, BatchBypassed(r, Ineligible));
    } else {
      EnqueueUtilized(s, BatchKey(r), r, exact);
    }
  }

  lemma {:induction false} FlushUtilized(s: State, keys: seq<Text>, exact: bool)
    requires Utilized(s, exact)
    ensures Utilized(FlushKeys(s, keys), exact)
    decreases |keys|
  {
    if keys != [] {
      DispatchUtilized(s, keys[0], ByTimeout, exact);
      FlushUtilized(Dispatch(s, keys[0], ByTimeout), keys[1..], exact);
    }
  }

  lemma StepUtilized(s: State, step: Step, exact: bool)
    requires Utilized(s, exact) && Allowed(s, step)
    requires exact ==> Sized(s, SizeBound(s.policy))
    ensures Utilized(Next(s, step), exact)
  {
    match step
    case Submit(r) => ResolveUtilized(s, r, exact);
    case TimerFires(id) =>
      DispatchUtilized(s.(timers := Clear(s.timers, Some(id))), s.timers.live[id].key, ByTimeout, exact);
    case Flush => FlushUtilized(s, s.queue.order, exact);
    case Configure(p) =>
    case Tick(ms) =>
  }

  /** Over every run the sampled batches fill their capacity on average, because a lowered
      bound only ever finds groups that are too large; exactly so while the bound stays. */
  lemma {:induction false} RunUtilized(s: State, steps: seq<Step>, exact: bool, bound: nat)
    requires Utilized(s, exact) && AllowedRun(s, steps)
    requires exact ==> Sized(s, bound)
    requires exact ==> forall i :: 0 <= i < |steps| && steps[i].Configure? ==> SizeBound(steps[i].policy) == bound
    ensures Utilized(Run(s, steps), exact)
    decreases |steps|
  {
    if steps != [] {
      StepUtilized(s, steps[0], exact);
      if exact {
        StepSized(s, steps[0], bound);
      }
      assert forall i :: 0 <= i < |steps| - 1 ==> steps[1..][i] == steps[i + 1];
      RunUtilized(Next(s, steps[0]), steps[1..], exact, bound);
    }
  }

  /** The events that are sampled: batches dispatched for their size under a positive capacity. */
  ghost function Sampled(events: seq<BatchEvent>): seq<BatchEvent> {
    if events == [] then []
    else
      var e := events[|events| - 1];
      Sampled(events[..|events| - 1]) + if e.BatchDispatched? && e.capacity > 0 then [e] else []
  }

  /** What the samples add up to: each adds the share of its capacity that its batch fills,
      which times the capacity is the size of the batch. */
  ghost predicate SharesUp(samples: seq<BatchEvent>, sums: seq<real>) {
    && |sums| == |samples| + 1 && sums[0] == 0.0
    && forall i :: 0 <= i < |samples| ==> AddsShare(samples[i], sums[i], sums[i + 1])
  }

  ghost predicate AddsShare(e: BatchEvent, before: real, after: real) {
    e.BatchDispatched? && (after - before) * e.capacity as real == e.batchSize as real
  }

  lemma ShareAdded(e: BatchEvent, before: real)
    requires e.BatchDispatched? && e.capacity > 0
    ensures AddsShare(e, before, before + Share(e.batchSize, e.capacity))
  {
    var share := Share(e.batchSize, e.capacity);
    assert before + share - before == share;
    assert share * e.capacity as real == e.batchSize as real;
  }

  lemma OneMoreShare(samples: seq<BatchEvent>, sums: seq<real>, e: BatchEvent, next: real)
    requires SharesUp(samples, sums) && AddsShare(e, sums[|samples|], next)
    ensures SharesUp(samples + [e], sums + [next])
  {
  }

  /** The collected utilization is the sum of the shares of the sampled batches. */
  lemma {:induction false} SharesCollected(events: seq<BatchEvent>) returns (sums: seq<real>)
    ensures SharesUp(Sampled(events), sums)
    ensures |Sampled(events)| == Collect(events).utilizationSamples
    ensures sums[|Sampled(events)|] == Collect(events).utilizationTotal
  {
    if events == [] {
      sums := [0.0];
    } else {
      var rest, e := events[..|events| - 1], events[|events| - 1];
      var before := SharesCollected(rest);
      if e.BatchDispatched? && e.capacity > 0 {
        var last := before[|Sampled(rest)|];
        sums := before + [last + Share(e.batchSize, e.capacity)];
        ShareAdded(e, last);
        OneMoreShare(Sampled(rest), before, e, last + Share(e.batchSize, e.capacity));
      } else {
        sums := before;
        assert Sampled(events) == Sampled(rest);
      }
    }
  }

  lemma MeanUtilization(shot: BatchMetricsSnapshot, t: Totals, exact: bool)
    requires Shows(shot, t) && t.utilizationSamples > 0 && t.utilizationTotal >= t.utilizationSamples as real
    requires exact ==> t.utilizationTotal == t.utilizationSamples as real
    ensures shot.providerBatchUtilization >= 1.0
    ensures exact ==> shot.providerBatchUtilization == 1.0
  {
    var mean, n := shot.providerBatchUtilization, t.utilizationSamples as real;
    FactorFromProduct(mean, n);
  }

  /** From a fresh scheduler, over every run: once it is sampled, the mean utilization is at
      least 1, and it is exactly 1 when the number of requests that fill a batch is never
      changed. */
  lemma UtilizationFull(p: BatchPolicy, now: nat, steps: seq<Step>, shot: BatchMetricsSnapshot, bound: nat)
    requires AllowedRun(Initial(p, now), steps) && Shows(shot, Collect(Run(Initial(p, now), steps).events))
    requires Collect(Run(Initial(p, now), steps).events).utilizationSamples > 0
    ensures shot.providerBatchUtilization >= 1.0
    ensures FullWith(p, bound) && (forall i :: 0 <= i < |steps| && steps[i].Configure? ==> FullWith(steps[i].policy, bound)) ==>
      shot.providerBatchUtilization == 1.0
  {
    var t := Collect(Run(Initial(p, now), steps).events);
    RunUtilized(Initial(p, now), steps, false, bound);
    MeanUtilization(shot, t, false);
    if FullWith(p, bound) && forall i :: 0 <= i < |steps| && steps[i].Configure? ==> FullWith(steps[i].policy, bound) {
      InitialSized(p, now);
      RunUtilized(Initial(p, now), steps, true, bound);
      MeanUtilization(shot, t, true);
    }
  }
}
