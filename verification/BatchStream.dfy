/** What the stream of published events says about itself and about the batches. */
module BatchStream {
  import opened Wrappers
  import opened JoinedText
  import opened BatchTypes
  import opened BatchModel
  import opened BatchTimers
  import opened BatchHistory

  /** Requests of key `k` that the events report as queued since its last completed batch. */
  ghost function Forming(events: seq<BatchEvent>, k: Text): nat {
    if events == [] then 0
    else
      var rest, e := events[..|events| - 1], events[|events| - 1];
      if e.BatchQueued? && BatchKey(e.lead) == k then Forming(rest, k) + 1
      else if e.BatchCompleted? && BatchKey(e.lead) == k then 0
      else Forming(rest, k)
  }

  /** The event says why a batch of this first request and size was released. */
  ghost predicate Finishes(e: BatchEvent, lead: Request, size: nat) {
    (e.BatchDispatched? || e.BatchExpired?) && e.lead == lead && e.batchSize == size
  }

  /** The event at position `i` fits its surroundings. A created batch is announced right
      before its first request is queued; a queued request has the next position in its batch;
      a batch is completed right after it is dispatched or expired, with the same first
      request and size, and the size is the number of requests queued for it. */
  ghost predicate Fits(events: seq<BatchEvent>, i: nat)
    requires i < |events|
  {
    match events[i]
    case BatchCreated(r) => i + 1 < |events| && events[i + 1] == BatchQueued(r, 1)
    case BatchQueued(r, n) =>
      && n == Forming(events[..i], BatchKey(r)) + 1
      && (n == 1 <==> i > 0 && events[i - 1] == BatchCreated(r))
    case BatchDispatched(r, size, _, _) => i + 1 < |events| && events[i + 1] == BatchCompleted(r, size)
    case BatchExpired(r, size, _) => i + 1 < |events| && events[i + 1] == BatchCompleted(r, size)
    case BatchCompleted(r, size) =>
      size == Forming(events[..i], BatchKey(r)) > 0 && i > 0 && Finishes(events[i - 1], r, size)
    case BatchBypassed(_, _) => true
  }

  ghost predicate AllFit(events: seq<BatchEvent>) {
    forall i: nat {:trigger Fits(events, i)} :: i < |events| ==> Fits(events, i)
  }

  ghost predicate CountsHeld(s: State, k: Text) {
    Forming(s.events, k) == |HeldFor(s.queue, k)|
  }

  /** All events fit, and those of each key that are not completed are what is held. */
  ghost predicate Streamed(s: State) {
    AllFit(s.events) && forall k {:trigger CountsHeld(s, k)} :: CountsHeld(s, k)
  }

  lemma FormingOne(events: seq<BatchEvent>, e: BatchEvent, k: Text)
    ensures Forming(events + [e], k)
      == if e.BatchQueued? && BatchKey(e.lead) == k then Forming(events, k) + 1
         else if e.BatchCompleted? && BatchKey(e.lead) == k then 0
         else Forming(events, k)
  {
    assert (events + [e])[..|events|] == events;
  }

  /** New events do not disturb the old ones. */
  lemma StillFits(events: seq<BatchEvent>, more: seq<BatchEvent>, i: nat)
    requires i < |events| && Fits(events, i)
    ensures Fits(events + more, i)
  {
    assert (events + more)[..i] == events[..i];
  }

  lemma FitsOne(events: seq<BatchEvent>, e: BatchEvent)
    requires AllFit(events)
    requires e.BatchBypassed? || (e.BatchQueued? && e.position == Forming(events, BatchKey(e.lead)) + 1 > 1)
    ensures AllFit(events + [e])
  {
    var all, n := events + [e], |events|;
    assert all[..n] == events;
    forall i: nat | i < |all| ensures Fits(all, i) {
      if i < n {
        assert Fits(events, i);
        StillFits(events, [e], i);
      } else if n > 0 {
        assert Fits(events, n - 1);
      }
    }
  }

  lemma FitsTwo(events: seq<BatchEvent>, e: BatchEvent, f: BatchEvent)
    requires AllFit(events)
    requires
      || (e.BatchCreated? && f == BatchQueued(e.lead, 1) && Forming(events, BatchKey(e.lead)) == 0)
      || (f.BatchCompleted? && Finishes(e, f.lead, f.batchSize) && f.batchSize == Forming(events, BatchKey(f.lead)) > 0)
    ensures AllFit(events + [e, f])
  {
    var all, n := events + [e, f], |events|;
    assert all[..n] == events && all[..n + 1] == events + [e];
    FormingOne(events, e, BatchKey(f.lead));
    forall i: nat | i < |all| ensures Fits(all, i) {
      if i < n {
        assert Fits(events, i);
        StillFits(events, [e, f], i);
      }
    }
  }

  lemma FormingTwo(events: seq<BatchEvent>, e: BatchEvent, f: BatchEvent, k: Text)
    requires !e.BatchQueued? && !e.BatchCompleted?
    ensures Forming(events + [e, f], k)
      == if f.BatchQueued? && BatchKey(f.lead) == k then Forming(events, k) + 1
         else if f.BatchCompleted? && BatchKey(f.lead) == k then 0
         else Forming(events, k)
  {
    FormingOne(events, e, k);
    FormingOne(events + [e], f, k);
    assert events + [e, f] == (events + [e]) + [f];
  }

  lemma PushStreamed(s: State, r: Request)
    requires Streamed(s) && QueueOk(s)
    ensures Streamed(Push(s, BatchKey(r), r))
  {
    var key := BatchKey(r);
    var s' := Push(s, key, r);
    assert CountsHeld(s, key);
    if key in s.queue.groups {
      var e := BatchQueued(r, |s.queue.groups[key].entries| + 1);
      FitsOne(s.events, e);
      forall k ensures CountsHeld(s', k) {
        assert CountsHeld(s, k);
        FormingOne(s.events, e, k);
      }
    } else {
      FitsTwo(s.events, BatchCreated(r), BatchQueued(r, 1));
      forall k ensures CountsHeld(s', k) {
        assert CountsHeld(s, k);
        FormingTwo(s.events, BatchCreated(r), BatchQueued(r, 1), k);
      }
    }
  }

  lemma HeldKeyed(s: State, k: Text)
    requires Ordered(s) && k in s.queue.groups && s.queue.groups[k].entries != []
    ensures BatchKey(s.queue.groups[k].entries[0]) == k
  {
    var r := s.queue.groups[k].entries[0];
    if BatchKey(r) != k {
      ReleasedForKeyed(s, k, r);
    }
  }

  lemma DispatchStreamed(s: State, key: Text, reason: DispatchReason)
    requires Streamed(s) && Ordered(s)
    ensures Streamed(Dispatch(s, key, reason))
  {
    if key in s.queue.groups && s.queue.groups[key].entries != [] {
      var g, s' := s.queue.groups[key], Dispatch(s, key, reason);
      var a := Announcement(g, reason, s.now, s.policy.maxBatchSize);
      assert a == [a[0], a[1]];
      HeldKeyed(s, key);
      assert CountsHeld(s, key);
      FitsTwo(s.events, a[0], a[1]);
      forall k ensures CountsHeld(s', k) {
        assert CountsHeld(s, k);
        FormingTwo(s.events, a[0], a[1], k);
      }
    }
  }

  lemma SameStream(s: State, s': State)
    requires Streamed(s) && s'.events == s.events
    requires forall k :: |HeldFor(s'.queue, k)| == |HeldFor(s.queue, k)|
    ensures Streamed(s')
  {
    forall k ensures CountsHeld(s', k) {
      assert CountsHeld(s, k);
    }
  }

  lemma BypassStreamed(s: State, r: Request, reason: BypassReason)
    requires Streamed(s)
    ensures Streamed(s.(events := s.events + [BatchBypassed(r, reason)], bypassed := s.bypassed + 1))
  {
    var e := BatchBypassed(r, reason);
    FitsOne(s.events, e);
    var s' := s.(events := s.events + [e], bypassed := s.bypassed + 1);
    forall k ensures CountsHeld(s', k) {
      assert CountsHeld(s, k);
      FormingOne(s.events, e, k);
    }
  }

  /** A request that the policy does not admit passes: nothing changes but that, while
      batching is enabled, one event says why. */
  lemma PassesThrough(s: State, r: Request)
    requires !Admits(s.policy, r)
    ensures Next(s, Submit(r))
      == if s.policy.mode != BatchMode.Enabled then s
         else s.(events := s.events + [BatchBypassed(r, if s.policy.bypass then PolicyBypass else Ineligible)],
                 bypassed := s.bypassed + 1)
  {
  }

  lemma ResolveStreamed(s: State, r: Request)
    requires Timed(s) && Ordered(s) && KeysMatch(s) && Streamed(s)
    ensures Streamed(Resolve(s, r))
  {
    if Admits(s.policy, r) {
      var key := BatchKey(r);
      var s1 := Push(s, key, r);
      PushStreamed(s, r);
      PushOrdered(s, r);
      DispatchStreamed(s1, key, BySize);
      SameStream(s1, ArmGroup(s1, key));
    } else {
      PassesThrough(s, r);
      BypassStreamed(s, r, PolicyBypass);
      BypassStreamed(s, r, Ineligible);
    }
  }

  lemma {:induction false} FlushStreamed(s: State, keys: seq<Text>)
    requires Ordered(s) && KeysMatch(s) && Streamed(s)
    ensures Streamed(FlushKeys(s, keys))
    decreases |keys|
  {
    if keys != [] {
      DispatchStreamed(s, keys[0], ByTimeout);
      DispatchOrdered(s, keys[0], ByTimeout);
      FlushStreamed(Dispatch(s, keys[0], ByTimeout), keys[1..]);
    }
  }

  lemma StepStreamed(s: State, step: Step)
    requires Timed(s) && Ordered(s) && KeysMatch(s) && Streamed(s) && Allowed(s, step)
    ensures Streamed(Next(s, step))
  {
    match step
    case Submit(r) => ResolveStreamed(s, r);
    case TimerFires(id) =>
      var s1 := s.(timers := Clear(s.timers, Some(id)));
      SameStream(s, s1);
      SameHistoryOrdered(s, s1);
      DispatchStreamed(s1, s.timers.live[id].key, ByTimeout);
    case Flush => FlushStreamed(s, s.queue.order);
    case Configure(p) => SameStream(s, Next(s, step));
    case Tick(ms) => SameStream(s, Next(s, step));
  }

  lemma {:induction false} RunStreamed(s: State, steps: seq<Step>)
    requires Timed(s) && Ordered(s) && KeysMatch(s) && Streamed(s) && AllowedRun(s, steps)
    ensures Streamed(Run(s, steps))
    decreases |steps|
  {
    if steps != [] {
      StepStreamed(s, steps[0]);
      StepTimed(s, steps[0]);
      StepOrdered(s, steps[0]);
      RunStreamed(Next(s, steps[0]), steps[1..]);
    }
  }

  /** From a fresh scheduler, after every run: every published event fits its surroundings,
      and the requests reported as queued and not yet completed are those held, for each key. */
  lemma EventsFit(p: BatchPolicy, now: nat, steps: seq<Step>)
    requires AllowedRun(Initial(p, now), steps)
    ensures var s := Run(Initial(p, now), steps);
      && (forall i: nat :: i < |s.events| ==> Fits(s.events, i))
      && forall k :: Forming(s.events, k) == if k in s.queue.groups then |s.queue.groups[k].entries| else 0
  {
    InitialTimed(p, now);
    InitialOrdered(p, now);
    var s0, s := Initial(p, now), Run(Initial(p, now), steps);
    forall k ensures CountsHeld(s0, k) {
    }
    RunStreamed(s0, steps);
    forall k ensures Forming(s.events, k) == if k in s.queue.groups then |s.queue.groups[k].entries| else 0 {
      assert CountsHeld(s, k);
    }
  }

  // ----- what is said of each batch

  /** The events that say why batches were released. */
  ghost function Finishing(events: seq<BatchEvent>): seq<BatchEvent> {
    if events == [] then []
    else
      var e := events[|events| - 1];
      Finishing(events[..|events| - 1]) + if e.BatchDispatched? || e.BatchExpired? then [e] else []
  }

  /** The event tells the truth about the batch: its first request, its size, how long it
      waited, and whether its size or the end of its wait released it. */
  ghost predicate TellsOf(e: BatchEvent, b: Batch) {
    && b.entries != []
    && Finishes(e, b.entries[0], |b.entries|) && e.waitMs == b.releasedAt - b.createdAt
    && (e.BatchExpired? <==> b.reason == ByTimeout)
    && (e.BatchDispatched? ==> e.capacity <= |b.entries|)
  }

  ghost predicate AllTold(s: State) {
    && |Finishing(s.events)| == |s.batches|
    && forall i :: 0 <= i < |s.batches| ==> TellsOf(Finishing(s.events)[i], s.batches[i])
  }

  lemma FinishingOne(events: seq<BatchEvent>, e: BatchEvent)
    ensures Finishing(events + [e]) == Finishing(events) + if e.BatchDispatched? || e.BatchExpired? then [e] else []
  {
    assert (events + [e])[..|events|] == events;
  }

  lemma FinishingTwo(events: seq<BatchEvent>, e: BatchEvent, f: BatchEvent)
    requires !f.BatchDispatched? && !f.BatchExpired?
    ensures Finishing(events + [e, f]) == Finishing(events) + if e.BatchDispatched? || e.BatchExpired? then [e] else []
  {
    FinishingOne(events, e);
    FinishingOne(events + [e], f);
    assert events + [e, f] == (events + [e]) + [f];
  }

  lemma PushAllTold(s: State, key: Text, r: Request)
    requires AllTold(s)
    ensures AllTold(Push(s, key, r))
  {
    if key in s.queue.groups {
      FinishingOne(s.events, BatchQueued(r, |s.queue.groups[key].entries| + 1));
    } else {
      FinishingTwo(s.events, BatchCreated(r), BatchQueued(r, 1));
    }
  }

  lemma DispatchAllTold(s: State, key: Text, reason: DispatchReason)
    requires AllTold(s)
    requires reason == BySize && key in s.queue.groups ==> |s.queue.groups[key].entries| >= s.policy.maxBatchSize
    ensures AllTold(Dispatch(s, key, reason))
  {
    if key in s.queue.groups && s.queue.groups[key].entries != [] {
      var a := Announcement(s.queue.groups[key], reason, s.now, s.policy.maxBatchSize);
      FinishingTwo(s.events, a[0], a[1]);
      assert a == [a[0], a[1]];
      assert TellsOf(a[0], Released(s, s.queue.groups[key], reason));
    }
  }

  lemma ResolveAllTold(s: State, r: Request)
    requires AllTold(s)
    ensures AllTold(Resolve(s, r))
  {
    if Admits(s.policy, r) {
      var key := BatchKey(r);
      var s1 := Push(s, key, r);
      PushAllTold(s, key, r);
      if |s1.queue.groups[key].entries| >= SizeBound(s.policy) {
        DispatchAllTold(s1, key, BySize);
      }
    } else {
      PassesThrough(s, r);
      FinishingOne(s.events, BatchBypassed(r, PolicyBypass));
      FinishingOne(s.events, BatchBypassed(r, Ineligible));
    }
  }

  lemma {:induction false} FlushAllTold(s: State, keys: seq<Text>)
    requires AllTold(s)
    ensures AllTold(FlushKeys(s, keys))
    decreases |keys|
  {
    if keys != [] {
      DispatchAllTold(s, keys[0], ByTimeout);
      FlushAllTold(Dispatch(s, keys[0], ByTimeout), keys[1..]);
    }
  }

  lemma StepAllTold(s: State, step: Step)
    requires AllTold(s) && Allowed(s, step)
    ensures AllTold(Next(s, step))
  {
    match step
    case Submit(r) => ResolveAllTold(s, r);
    case TimerFires(id) => DispatchAllTold(s.(timers := Clear(s.timers, Some(id))), s.timers.live[id].key, ByTimeout);
    case Flush => FlushAllTold(s, s.queue.order);
    case Configure(p) =>
    case Tick(ms) =>
  }

  /** From a fresh scheduler, after every run: the events that say why a batch was released are
      one for each released batch, in order, and true of it. */
  lemma {:induction false} RunAllTold(s: State, steps: seq<Step>)
    requires AllTold(s) && AllowedRun(s, steps)
    ensures AllTold(Run(s, steps))
    decreases |steps|
  {
    if steps != [] {
      StepAllTold(s, steps[0]);
      RunAllTold(Next(s, steps[0]), steps[1..]);
    }
  }

  lemma BatchesAnnounced(p: BatchPolicy, now: nat, steps: seq<Step>)
    requires AllowedRun(Initial(p, now), steps)
    ensures var s := Run(Initial(p, now), steps);
      && |Finishing(s.events)| == |s.batches|
      && forall i :: 0 <= i < |s.batches| ==> TellsOf(Finishing(s.events)[i], s.batches[i])
  {
    RunAllTold(Initial(p, now), steps);
  }
}
