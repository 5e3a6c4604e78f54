/** The passive metrics collector, and what its counters say about the true history. */
module BatchMetrics {
  import opened Wrappers
  import opened Sorting
  import opened JoinedText
  import opened BatchTypes
  import opened BatchModel
  import opened BatchTimers

  datatype Totals = Totals(
    created: nat, dispatched: nat, expired: nat, batched: nat, bypassed: nat,
    sizeTotal: nat, dispatchCount: nat, waitMsTotal: int, utilizationTotal: real, utilizationSamples: nat)

  const ZERO := Totals(0, 0, 0, 0, 0, 0, 0, 0, 0.0, 0)

  /** How much of its capacity a batch fills. */
  function Share(size: nat, capacity: int): real
    requires capacity > 0
  {
    size as real / capacity as real
  }

  function Observe(t: Totals, e: BatchEvent): Totals {
    match e
    case BatchCreated(_) => t.(created := t.created + 1)
    case BatchDispatched(_, size, capacity, waitMs) =>
      t.(dispatched := t.dispatched + 1, dispatchCount := t.dispatchCount + 1,
         sizeTotal := t.sizeTotal + size, batched := t.batched + size, waitMsTotal := t.waitMsTotal + waitMs,
         utilizationTotal := t.utilizationTotal + if capacity > 0 then Share(size, capacity) else 0.0,
         utilizationSamples := t.utilizationSamples + if capacity > 0 then 1 else 0)
    case BatchExpired(_, size, waitMs) =>
      t.(expired := t.expired + 1, dispatchCount := t.dispatchCount + 1,
         sizeTotal := t.sizeTotal + size, batched := t.batched + size, waitMsTotal := t.waitMsTotal + waitMs)
    case BatchBypassed(_, _) => t.(bypassed := t.bypassed + 1)
    case BatchQueued(_, _) => t
    case BatchCompleted(_, _) => t
  }

  function Collect(events: seq<BatchEvent>): Totals {
    if events == [] then ZERO
    else Observe(Collect(events[..|events| - 1]), events[|events| - 1])
  }

  lemma CollectOne(events: seq<BatchEvent>, e: BatchEvent)
    ensures Collect(events + [e]) == Observe(Collect(events), e)
  {
    assert (events + [e])[..|events|] == events;
  }

  lemma CollectTwo(events: seq<BatchEvent>, e: BatchEvent, f: BatchEvent)
    ensures Collect(events + [e, f]) == Observe(Observe(Collect(events), e), f)
  {
    CollectOne(events, e);
    CollectLast(events + [e], f, events + [e, f]);
  }

  lemma CollectLast(events: seq<BatchEvent>, e: BatchEvent, all: seq<BatchEvent>)
    requires all == events + [e]
    ensures Collect(all) == Observe(Collect(events), e)
  {
    CollectOne(events, e);
  }

  // ----- the true history

  function CountReason(batches: seq<Batch>, reason: DispatchReason): nat {
    if batches == [] then 0
    else CountReason(batches[..|batches| - 1], reason) + if batches[|batches| - 1].reason == reason then 1 else 0
  }

  function SumSizes(batches: seq<Batch>): nat {
    if batches == [] then 0 else SumSizes(batches[..|batches| - 1]) + |batches[|batches| - 1].entries|
  }

  function SumWaits(batches: seq<Batch>): int {
    if batches == [] then 0
    else
      var b := batches[|batches| - 1];
      SumWaits(batches[..|batches| - 1]) + b.releasedAt - b.createdAt
  }

  /** The counters agree with what really happened. */
  ghost predicate Agrees(s: State) {
    var t := Collect(s.events);
    && t.created == |s.batches| + |s.queue.groups|
    && t.dispatched == CountReason(s.batches, BySize) && t.expired == CountReason(s.batches, ByTimeout)
    && t.dispatched + t.expired == t.dispatchCount == |s.batches|
    && t.batched == t.sizeTotal == SumSizes(s.batches)
    && t.waitMsTotal == SumWaits(s.batches)
    && t.bypassed == s.bypassed
  }

  lemma PushAgrees(s: State, key: Text, r: Request)
    requires Agrees(s)
    ensures Agrees(Push(s, key, r))
  {
    var s' := Push(s, key, r);
    if key in s.queue.groups {
      CollectOne(s.events, BatchQueued(r, |s.queue.groups[key].entries| + 1));
      assert s'.queue.groups.Keys == s.queue.groups.Keys;
    } else {
      CollectTwo(s.events, BatchCreated(r), BatchQueued(r, 1));
      assert s'.queue.groups.Keys == s.queue.groups.Keys + {key};
    }
    assert |s'.queue.groups| == |s'.queue.groups.Keys| && |s.queue.groups| == |s.queue.groups.Keys|;
  }

  lemma DispatchAgrees(s: State, key: Text, reason: DispatchReason)
    requires Agrees(s)
    ensures Agrees(Dispatch(s, key, reason))
  {
    if key in s.queue.groups && s.queue.groups[key].entries != [] {
      var g := s.queue.groups[key];
      var s' := Dispatch(s, key, reason);
      var a := Announcement(g, reason, s.now, s.policy.maxBatchSize);
      CollectTwo(s.events, a[0], a[1]);
      assert a == [a[0], a[1]];
      assert s'.batches[..|s.batches|] == s.batches;
      assert s'.queue.groups.Keys == s.queue.groups.Keys - {key};
      assert |s'.queue.groups| == |s'.queue.groups.Keys| && |s.queue.groups| == |s.queue.groups.Keys|;
    }
  }

  lemma SameEventsAgree(s: State, s': State)
    requires Agrees(s) && s'.events == s.events && s'.batches == s.batches && s'.bypassed == s.bypassed
    requires s'.queue.groups.Keys == s.queue.groups.Keys
    ensures Agrees(s')
  {
    assert |s'.queue.groups| == |s'.queue.groups.Keys| && |s.queue.groups| == |s.queue.groups.Keys|;
  }

  lemma EnqueueAgrees(s: State, key: Text, r: Request)
    requires Agrees(s)
    ensures Agrees(Enqueue(s, key, r))
  {
    var s1 := Push(s, key, r);
    PushAgrees(s, key, r);
    DispatchAgrees(s1, key, BySize);
  }

  lemma ResolveAgrees(s: State, r: Request)
    requires Agrees(s)
    ensures Agrees(Resolve(s, r))
  {
    if Admits(s.policy, r) {
      EnqueueAgrees(s, BatchKey(r), r);
    } else {
      CollectOne(s.events, BatchBypassed(r, PolicyBypass));
      CollectOne(s.events, BatchBypassed(r, Ineligible));
    }
  }

  lemma {:induction false} FlushAgrees(s: State, keys: seq<Text>)
    requires Agrees(s)
    ensures Agrees(FlushKeys(s, keys))
    decreases |keys|
  {
    if keys != [] {
      DispatchAgrees(s, keys[0], ByTimeout);
      FlushAgrees(Dispatch(s, keys[0], ByTimeout), keys[1..]);
    }
  }

  lemma StepAgrees(s: State, step: Step)
    requires Agrees(s) && Allowed(s, step)
    ensures Agrees(Next(s, step))
  {
    match step
    case Submit(r) => ResolveAgrees(s, r);
    case TimerFires(id) =>
      var s1 := s.(timers := Clear(s.timers, Some(id)));
      SameEventsAgree(s, s1);
      DispatchAgrees(s1, s.timers.live[id].key, ByTimeout);
    case Flush => FlushAgrees(s, s.queue.order);
    case Configure(p) => SameEventsAgree(s, Next(s, step));
    case Tick(ms) => SameEventsAgree(s, Next(s, step));
  }

  /** The collector's counters agree with the true history after every run. */
  lemma {:induction false} RunAgrees(s: State, steps: seq<Step>)
    requires Agrees(s) && AllowedRun(s, steps)
    ensures Agrees(Run(s, steps))
    decreases |steps|
  {
    if steps != [] {
      StepAgrees(s, steps[0]);
      RunAgrees(Next(s, steps[0]), steps[1..]);
    }
  }

  // ----- the events tell the history

  /** The requests the events report as queued. */
  function QueuedIn(events: seq<BatchEvent>): seq<Request> {
    if events == [] then []
    else
      var e := events[|events| - 1];
      QueuedIn(events[..|events| - 1]) + if e.BatchQueued? then [e.lead] else []
  }

  /** The leads and sizes of the batches the events report as completed. */
  function CompletedIn(events: seq<BatchEvent>): seq<(Request, nat)> {
    if events == [] then []
    else
      var e := events[|events| - 1];
      CompletedIn(events[..|events| - 1]) + if e.BatchCompleted? then [(e.lead, e.batchSize)] else []
  }

  function Summaries(batches: seq<Batch>): seq<(Request, nat)> {
    if batches == [] then []
    else
      var b := batches[|batches| - 1];
      Summaries(batches[..|batches| - 1]) + if b.entries == [] then [] else [(b.entries[0], |b.entries|)]
  }

  /** The published events name every held request, in order, and every released batch by
      its first request and its size, in order. */
  ghost predicate Told(s: State) {
    QueuedIn(s.events) == s.enqueued && CompletedIn(s.events) == Summaries(s.batches)
  }

  lemma TellOne(events: seq<BatchEvent>, e: BatchEvent)
    ensures QueuedIn(events + [e]) == QueuedIn(events) + if e.BatchQueued? then [e.lead] else []
    ensures CompletedIn(events + [e]) == CompletedIn(events) + if e.BatchCompleted? then [(e.lead, e.batchSize)] else []
  {
    assert (events + [e])[..|events|] == events;
  }

  lemma TellTwo(events: seq<BatchEvent>, e: BatchEvent, f: BatchEvent)
    requires !e.BatchQueued? && !e.BatchCompleted?
    ensures QueuedIn(events + [e, f]) == QueuedIn(events) + if f.BatchQueued? then [f.lead] else []
    ensures CompletedIn(events + [e, f]) == CompletedIn(events) + if f.BatchCompleted? then [(f.lead, f.batchSize)] else []
  {
    TellOne(events, e);
    TellOne(events + [e], f);
    assert events + [e, f] == (events + [e]) + [f];
    assert QueuedIn(events) + [] == QueuedIn(events) && CompletedIn(events) + [] == CompletedIn(events);
  }

  lemma PushTold(s: State, key: Text, r: Request)
    requires Told(s)
    ensures Told(Push(s, key, r))
  {
    if key in s.queue.groups {
      TellOne(s.events, BatchQueued(r, |s.queue.groups[key].entries| + 1));
    } else {
      TellTwo(s.events, BatchCreated(r), BatchQueued(r, 1));
    }
  }

  lemma DispatchTold(s: State, key: Text, reason: DispatchReason)
    requires Told(s)
    ensures Told(Dispatch(s, key, reason))
  {
    if key in s.queue.groups && s.queue.groups[key].entries != [] {
      var a := Announcement(s.queue.groups[key], reason, s.now, s.policy.maxBatchSize);
      TellTwo(s.events, a[0], a[1]);
      assert a == [a[0], a[1]];
      assert Dispatch(s, key, reason).batches[..|s.batches|] == s.batches;
    }
  }

  lemma EnqueueTold(s: State, key: Text, r: Request)
    requires Told(s)
    ensures Told(Enqueue(s, key, r))
  {
    var s1 := Push(s, key, r);
    PushTold(s, key, r);
    if |s1.queue.groups[key].entries| >= SizeBound(s.policy) {
      DispatchTold(s1, key, BySize);
    }
  }

  lemma ResolveTold(s: State, r: Request)
    requires Told(s)
    ensures Told(Resolve(s, r))
  {
    if s.policy.mode != BatchMode.Enabled {
    } else if s.policy.bypass {
      TellOne(s.events, BatchBypassed(r, PolicyBypass));
    } else if !BatchEligible(s.policy, r) {
      TellOne(s.events, BatchBypassed(r, Ineligible));
    } else {
      EnqueueTold(s, BatchKey(r), r);
    }
  }

  lemma {:induction false} FlushTold(s: State, keys: seq<Text>)
    requires Told(s)
    ensures Told(FlushKeys(s, keys))
    decreases |keys|
  {
    if keys != [] {
      DispatchTold(s, keys[0], ByTimeout);
      FlushTold(Dispatch(s, keys[0], ByTimeout), keys[1..]);
    }
  }

  lemma StepTold(s: State, step: Step)
    requires Told(s) && Allowed(s, step)
    ensures Told(Next(s, step))
  {
    match step
    case Submit(r) => ResolveTold(s, r);
    case TimerFires(id) => DispatchTold(s.(timers := Clear(s.timers, Some(id))), s.timers.live[id].key, ByTimeout);
    case Flush => FlushTold(s, s.queue.order);
    case Configure(p) =>
    case Tick(ms) =>
  }

  /** After every run the queued and completed events are the true history. */
  lemma {:induction false} RunTold(s: State, steps: seq<Step>)
    requires Told(s) && AllowedRun(s, steps)
    ensures Told(Run(s, steps))
    decreases |steps|
  {
    if steps != [] {
      StepTold(s, steps[0]);
      RunTold(Next(s, steps[0]), steps[1..]);
    }
  }

  // ----- pending requests

  ghost predicate Conserved(s: State) {
    |s.enqueued| == SumSizes(s.batches) + Pending(s.queue)
  }

  lemma {:induction false} HeldElsewhere(groups: map<Text, Group>, groups': map<Text, Group>, order: seq<Text>)
    requires forall k :: k in order ==>
      (k in groups <==> k in groups') && (k in groups ==> |groups[k].entries| == |groups'[k].entries|)
    ensures Held(groups, order) == Held(groups', order)
  {
    if order != [] {
      HeldElsewhere(groups, groups', order[..|order| - 1]);
    }
  }

  /** One more entry in one listed group. */
  lemma {:induction false} HeldOneMore(groups: map<Text, Group>, groups': map<Text, Group>, order: seq<Text>, key: Text)
    requires NoRepeats(order) && key in order && key in groups && key in groups'
    requires |groups'[key].entries| == |groups[key].entries| + 1
    requires forall k :: k in order && k != key ==> k in groups && k in groups' && groups'[k] == groups[k]
    ensures Held(groups', order) == Held(groups, order) + 1
  {
    var rest := order[..|order| - 1];
    assert order == rest + [order[|order| - 1]];
    if order[|order| - 1] == key {
      HeldElsewhere(groups, groups', rest);
    } else {
      HeldOneMore(groups, groups', rest, key);
    }
  }

  lemma HeldLast(groups: map<Text, Group>, order: seq<Text>, key: Text)
    ensures Held(groups, order + [key]) == Held(groups, order) + if key in groups then |groups[key].entries| else 0
  {
    assert (order + [key])[..|order|] == order;
  }

  lemma {:induction false} HeldDropped(groups: map<Text, Group>, order: seq<Text>, key: Text)
    requires NoRepeats(order) && key in groups
    ensures Held(groups - {key}, Drop(order, key)) + (if key in order then |groups[key].entries| else 0) == Held(groups, order)
  {
    if order != [] {
      var rest, last := order[..|order| - 1], order[|order| - 1];
      assert order == rest + [last];
      HeldDropped(groups, rest, key);
      HeldDroppedStep(groups, rest, last, key);
    }
  }

  lemma HeldDroppedStep(groups: map<Text, Group>, rest: seq<Text>, last: Text, key: Text)
    requires key in groups
    ensures Held(groups - {key}, Drop(rest + [last], key))
      == Held(groups - {key}, Drop(rest, key)) + if last != key && last in groups then |groups[last].entries| else 0
  {
    DropLast(rest, last, key);
    HeldLast(groups - {key}, Drop(rest, key), last);
  }

  lemma {:induction false} DropLast(order: seq<Text>, last: Text, key: Text)
    ensures Drop(order + [last], key) == if last == key then Drop(order, key) else Drop(order, key) + [last]
  {
    if order != [] {
      DropLast(order[1..], last, key);
      assert (order + [last])[1..] == order[1..] + [last];
    }
  }

  lemma PushConserved(s: State, key: Text, r: Request)
    requires QueueOk(s) && Conserved(s)
    ensures Conserved(Push(s, key, r))
  {
    var s' := Push(s, key, r);
    if key in s.queue.groups {
      assert key in Elements(s.queue.order);
      assert forall k :: k in s.queue.order ==> k in Elements(s.queue.order);
      HeldOneMore(s.queue.groups, s'.queue.groups, s.queue.order, key);
    } else {
      assert forall k :: k in s.queue.order ==> k in Elements(s.queue.order);
      HeldElsewhere(s.queue.groups, s'.queue.groups, s.queue.order);
      HeldLast(s'.queue.groups, s.queue.order, key);
    }
  }

  lemma DispatchConserved(s: State, key: Text, reason: DispatchReason)
    requires NoRepeats(s.queue.order) && Elements(s.queue.order) == s.queue.groups.Keys && Conserved(s)
    ensures Conserved(Dispatch(s, key, reason))
  {
    if key in s.queue.groups && s.queue.groups[key].entries != [] {
      var s' := Dispatch(s, key, reason);
      assert key in Elements(s.queue.order);
      HeldDropped(s.queue.groups, s.queue.order, key);
      assert s'.batches[..|s.batches|] == s.batches;
    }
  }

  lemma ArmConserved(s: State, key: Text)
    requires key in s.queue.groups && Conserved(s)
    ensures Conserved(ArmGroup(s, key))
  {
    HeldElsewhere(s.queue.groups, ArmGroup(s, key).queue.groups, s.queue.order);
  }

  lemma EnqueueConserved(s: State, key: Text, r: Request)
    requires Timed(s) && Conserved(s)
    ensures Conserved(Enqueue(s, key, r))
  {
    var s1 := Push(s, key, r);
    PushConserved(s, key, r);
    PushTimed(s, key, r);
    if |s1.queue.groups[key].entries| >= SizeBound(s.policy) {
      DispatchConserved(s1, key, BySize);
    } else {
      ArmConserved(s1, key);
    }
  }

  lemma {:induction false} FlushConserved(s: State, keys: seq<Text>)
    requires Timed(s) && Conserved(s)
    ensures Conserved(FlushKeys(s, keys))
    decreases |keys|
  {
    if keys != [] {
      DispatchConserved(s, keys[0], ByTimeout);
      if keys[0] in s.queue.groups { DispatchTimed(s, keys[0], ByTimeout); }
      FlushConserved(Dispatch(s, keys[0], ByTimeout), keys[1..]);
    }
  }

  lemma StepConserved(s: State, step: Step)
    requires Timed(s) && Conserved(s) && Allowed(s, step)
    ensures Conserved(Next(s, step))
  {
    match step
    case Submit(r) => EnqueueConserved(s, BatchKey(r), r);
    case TimerFires(id) => DispatchConserved(s.(timers := Clear(s.timers, Some(id))), s.timers.live[id].key, ByTimeout);
    case Flush => FlushConserved(s, s.queue.order);
    case Configure(p) =>
    case Tick(ms) =>
  }

  /** Requests submitted during a run while batching was enabled. */
  ghost function Seen(s: State, steps: seq<Step>): nat
    requires AllowedRun(s, steps)
    decreases |steps|
  {
    if steps == [] then 0
    else
      (if steps[0].Submit? && s.policy.mode == BatchMode.Enabled then 1 else 0) + Seen(Next(s, steps[0]), steps[1..])
  }

  lemma {:induction false} FlushKeepsLog(s: State, keys: seq<Text>)
    ensures FlushKeys(s, keys).enqueued == s.enqueued && FlushKeys(s, keys).bypassed == s.bypassed
    decreases |keys|
  {
    if keys != [] {
      FlushKeepsLog(Dispatch(s, keys[0], ByTimeout), keys[1..]);
    }
  }

  lemma StepSeen(s: State, step: Step)
    requires Allowed(s, step)
    ensures |Next(s, step).enqueued| + Next(s, step).bypassed
      == |s.enqueued| + s.bypassed + if step.Submit? && s.policy.mode == BatchMode.Enabled then 1 else 0
  {
    FlushKeepsLog(s, s.queue.order);
  }

  lemma {:induction false} RunSeen(s: State, steps: seq<Step>)
    requires AllowedRun(s, steps)
    ensures |Run(s, steps).enqueued| + Run(s, steps).bypassed == |s.enqueued| + s.bypassed + Seen(s, steps)
    decreases |steps|
  {
    if steps != [] {
      StepSeen(s, steps[0]);
      RunSeen(Next(s, steps[0]), steps[1..]);
    }
  }

  lemma {:induction false} RunConserved(s: State, steps: seq<Step>)
    requires Timed(s) && Conserved(s) && AllowedRun(s, steps)
    ensures Conserved(Run(s, steps))
    decreases |steps|
  {
    if steps != [] {
      StepTimed(s, steps[0]);
      StepConserved(s, steps[0]);
      RunConserved(Next(s, steps[0]), steps[1..]);
    }
  }

  /** From a fresh scheduler, over every run: requests batched, plus requests pending, plus
      requests bypassed, are the requests seen while batching was enabled. */
  lemma RequestsConserved(p: BatchPolicy, now: nat, steps: seq<Step>)
    requires AllowedRun(Initial(p, now), steps)
    ensures var s := Run(Initial(p, now), steps);
      Collect(s.events).batched + Pending(s.queue) + Collect(s.events).bypassed == Seen(Initial(p, now), steps)
  {
    InitialTimed(p, now);
    RunAgrees(Initial(p, now), steps);
    RunSeen(Initial(p, now), steps);
    RunConserved(Initial(p, now), steps);
  }

  // ----- the snapshot

  datatype BatchMetricsSnapshot = BatchMetricsSnapshot(
    batchesCreated: nat, batchesDispatched: nat, batchesExpired: nat, requestsBatched: nat, requestsBypassed: nat,
    averageBatchSize: real, batchingLatencyMs: real, schedulingDelayMs: real, providerBatchUtilization: real)

  /** `mean` is the mean of `n` samples that add up to `total`, and 0 without samples. */
  predicate IsMean(mean: real, total: real, n: nat) {
    mean * n as real == (if n == 0 then 0.0 else total) && (n == 0 ==> mean == 0.0)
  }

  /** The snapshot shows the counters and the means of the sums. */
  predicate Shows(shot: BatchMetricsSnapshot, t: Totals) {
    && shot.batchesCreated == t.created
    && shot.batchesDispatched == t.dispatched && shot.batchesExpired == t.expired
    && shot.requestsBatched == t.batched && shot.requestsBypassed == t.bypassed
    && IsMean(shot.averageBatchSize, t.sizeTotal as real, t.dispatchCount)
    && IsMean(shot.batchingLatencyMs, t.waitMsTotal as real, t.dispatchCount)
    && IsMean(shot.schedulingDelayMs, t.waitMsTotal as real, t.dispatchCount)
    && IsMean(shot.providerBatchUtilization, t.utilizationTotal, t.utilizationSamples)
  }

  /** The averages are averages: times the number of finished batches they give back the
      requests batched and the milliseconds waited. */
  ghost predicate MeansRight(shot: BatchMetricsSnapshot, open: nat, finished: nat, requests: nat, waits: int) {
    && shot.batchesCreated == finished + open
    && shot.batchesDispatched + shot.batchesExpired == finished
    && shot.averageBatchSize * finished as real == shot.requestsBatched as real == requests as real
    && shot.batchingLatencyMs * finished as real == waits as real
    && shot.schedulingDelayMs == shot.batchingLatencyMs
  }

  /** The snapshot shows the true means: of the batches released, and of what they held and
      how long they waited. */
  lemma SnapshotMeans(s: State, shot: BatchMetricsSnapshot)
    requires Agrees(s) && Shows(shot, Collect(s.events))
    ensures MeansRight(shot, |s.queue.groups|, |s.batches|, SumSizes(s.batches), SumWaits(s.batches))
  {
    NoBatchesNoSums(s.batches);
    var t := Collect(s.events);
    ShownMeans(shot, t, |s.queue.groups|);
  }

  lemma ShownMeans(shot: BatchMetricsSnapshot, t: Totals, open: nat)
    requires Shows(shot, t) && t.created == t.dispatchCount + open && t.dispatched + t.expired == t.dispatchCount
    requires t.batched == t.sizeTotal && (t.dispatchCount == 0 ==> t.batched == 0 && t.waitMsTotal == 0)
    ensures MeansRight(shot, open, t.dispatchCount, t.batched, t.waitMsTotal)
  {
    SameMean(shot.schedulingDelayMs, shot.batchingLatencyMs, t.waitMsTotal as real, t.dispatchCount);
  }

  lemma NoBatchesNoSums(batches: seq<Batch>)
    ensures batches == [] ==> SumSizes(batches) == 0 && SumWaits(batches) == 0
  {
  }

  lemma SameMean(a: real, b: real, total: real, n: nat)
    requires IsMean(a, total, n) && IsMean(b, total, n)
    ensures a == b
  {
    if n > 0 {
      assert (a - b) * n as real == 0.0;
    }
  }

  /** The collector: ten counters, folded event by event. */
  class BatchMetricsCollector {
    var batchesCreated: nat
    var batchesDispatched: nat
    var batchesExpired: nat
    var requestsBatched: nat
    var requestsBypassed: nat
    var sizeTotal: nat
    var dispatchCount: nat
    var waitMsTotal: int
    var utilizationTotal: real
    var utilizationSamples: nat

    function Counters(): Totals
      reads this
    {
      Totals.Totals(
        batchesCreated, batchesDispatched, batchesExpired, requestsBatched, requestsBypassed,
        sizeTotal, dispatchCount, waitMsTotal, utilizationTotal, utilizationSamples)
    }

    constructor ()
      ensures Counters() == ZERO
    {
      batchesCreated, batchesDispatched, batchesExpired, requestsBatched, requestsBypassed := 0, 0, 0, 0, 0;
      sizeTotal, dispatchCount, waitMsTotal, utilizationTotal, utilizationSamples := 0, 0, 0, 0.0, 0;
    }

    method OnEvent(event: BatchEvent)
      modifies this
      ensures Counters() == Observe(old(Counters()), event)
    {
      match event
      case BatchCreated(_) =>
        batchesCreated := batchesCreated + 1;
      case BatchDispatched(_, size, capacity, waitMs) =>
        batchesDispatched := batchesDispatched + 1;
        dispatchCount := dispatchCount + 1;
        sizeTotal := sizeTotal + size;
        requestsBatched := requestsBatched + size;
        waitMsTotal := waitMsTotal + waitMs;
        if capacity > 0 {
          utilizationTotal := utilizationTotal + Share(size, capacity);
          utilizationSamples := utilizationSamples + 1;
        }
      case BatchExpired(_, size, waitMs) =>
        batchesExpired := batchesExpired + 1;
        dispatchCount := dispatchCount + 1;
        sizeTotal := sizeTotal + size;
        requestsBatched := requestsBatched + size;
        waitMsTotal := waitMsTotal + waitMs;
      case BatchBypassed(_, _) =>
        requestsBypassed := requestsBypassed + 1;
      case BatchQueued(_, _) =>
      case BatchCompleted(_, _) =>
    }

    method Snapshot() returns (shot: BatchMetricsSnapshot)
      ensures Shows(shot, Counters())
    {
      var avgWait := if dispatchCount == 0 then 0.0 else waitMsTotal as real / dispatchCount as real;
      shot := BatchMetricsSnapshot(
        batchesCreated, batchesDispatched, batchesExpired, requestsBatched, requestsBypassed,
        if dispatchCount == 0 then 0.0 else sizeTotal as real / dispatchCount as real,
        avgWait, avgWait,
        if utilizationSamples == 0 then 0.0 else utilizationTotal / utilizationSamples as real);
    }

    method Reset()
      modifies this
      ensures Counters() == ZERO
    {
      batchesCreated, batchesDispatched, batchesExpired, requestsBatched, requestsBypassed := 0, 0, 0, 0, 0;
      sizeTotal, dispatchCount, waitMsTotal, utilizationTotal, utilizationSamples := 0, 0, 0, 0.0, 0;
    }
  }
}
