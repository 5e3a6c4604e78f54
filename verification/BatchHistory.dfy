/** What happened to every request, in every reachable state: per-key order, exactly-once
    release, isolation of incompatible requests, and batch sizes. */
module BatchHistory {
  import opened Wrappers
  import opened Sorting
  import opened JoinedText
  import opened BatchTypes
  import opened BatchModel

  /** The requests enqueued under key `k`, in order. */
  ghost function EnqueuedFor(log: seq<Request>, k: Text): seq<Request> {
    if log == [] then []
    else
      var r := log[|log| - 1];
      EnqueuedFor(log[..|log| - 1], k) + if BatchKey(r) == k then [r] else []
  }

  /** The requests released under key `k`, batch after batch. */
  ghost function ReleasedFor(batches: seq<Batch>, k: Text): seq<Request> {
    if batches == [] then []
    else
      var b := batches[|batches| - 1];
      ReleasedFor(batches[..|batches| - 1], k) + if b.key == k then b.entries else []
  }

  /** The requests held under key `k`. */
  ghost function HeldFor(q: Queue, k: Text): seq<Request> {
    if k in q.groups then q.groups[k].entries else []
  }

  /** Everything enqueued under `k`, cut into the released batches, in order, and what is
      still held. */
  ghost predicate InOrder(s: State, k: Text) {
    EnqueuedFor(s.enqueued, k) == ReleasedFor(s.batches, k) + HeldFor(s.queue, k)
  }

  ghost predicate Ordered(s: State) {
    forall k {:trigger InOrder(s, k)} :: InOrder(s, k)
  }

  /** Keys the groups by what they hold. */
  ghost predicate KeysMatch(s: State) {
    forall k :: k in s.queue.groups ==> s.queue.groups[k].key == k
  }

  lemma EnqueuedAppend(log: seq<Request>, r: Request, k: Text)
    ensures EnqueuedFor(log + [r], k) == EnqueuedFor(log, k) + if BatchKey(r) == k then [r] else []
  {
    assert (log + [r])[..|log|] == log;
  }

  lemma ReleasedAppend(batches: seq<Batch>, b: Batch, k: Text)
    ensures ReleasedFor(batches + [b], k) == ReleasedFor(batches, k) + if b.key == k then b.entries else []
  {
    assert (batches + [b])[..|batches|] == batches;
  }

  lemma PushOrdered(s: State, r: Request)
    requires Ordered(s) && KeysMatch(s)
    ensures Ordered(Push(s, BatchKey(r), r)) && KeysMatch(Push(s, BatchKey(r), r))
  {
    var s' := Push(s, BatchKey(r), r);
    forall k ensures InOrder(s', k) {
      assert InOrder(s, k);
      EnqueuedAppend(s.enqueued, r, k);
      if k == BatchKey(r) {
        assert HeldFor(s'.queue, k) == HeldFor(s.queue, k) + [r];
        ConcatAssociative(ReleasedFor(s.batches, k), HeldFor(s.queue, k), [r]);
      }
    }
  }

  lemma DispatchOrdered(s: State, key: Text, reason: DispatchReason)
    requires Ordered(s) && KeysMatch(s)
    ensures Ordered(Dispatch(s, key, reason)) && KeysMatch(Dispatch(s, key, reason))
  {
    var s' := Dispatch(s, key, reason);
    if key in s.queue.groups && s.queue.groups[key].entries != [] {
      var b := Released(s, s.queue.groups[key], reason);
      forall k ensures InOrder(s', k) {
        assert InOrder(s, k);
        ReleasedAppend(s.batches, b, k);
        assert k == key ==> HeldFor(s'.queue, k) == [];
        assert ReleasedFor(s'.batches, k) + [] == ReleasedFor(s'.batches, k);
      }
    }
  }

  lemma SameHistoryOrdered(s: State, s': State)
    requires Ordered(s) && KeysMatch(s) && s'.batches == s.batches && s'.enqueued == s.enqueued
    requires s'.queue.groups.Keys == s.queue.groups.Keys
    requires forall k :: k in s.queue.groups ==>
      s'.queue.groups[k].entries == s.queue.groups[k].entries && s'.queue.groups[k].key == s.queue.groups[k].key
    ensures Ordered(s') && KeysMatch(s')
  {
    forall k ensures InOrder(s', k) {
      assert InOrder(s, k);
    }
  }

  lemma ResolveOrdered(s: State, r: Request)
    requires Ordered(s) && KeysMatch(s)
    ensures Ordered(Resolve(s, r)) && KeysMatch(Resolve(s, r))
  {
    if s.policy.mode == BatchMode.Enabled && !s.policy.bypass && BatchEligible(s.policy, r) {
      var s1 := Push(s, BatchKey(r), r);
      PushOrdered(s, r);
      DispatchOrdered(s1, BatchKey(r), BySize);
      SameHistoryOrdered(s1, ArmGroup(s1, BatchKey(r)));
    } else {
      SameHistoryOrdered(s, Resolve(s, r));
    }
  }

  lemma {:induction false} FlushOrdered(s: State, keys: seq<Text>)
    requires Ordered(s) && KeysMatch(s)
    ensures Ordered(FlushKeys(s, keys)) && KeysMatch(FlushKeys(s, keys))
    decreases |keys|
  {
    if keys != [] {
      DispatchOrdered(s, keys[0], ByTimeout);
      FlushOrdered(Dispatch(s, keys[0], ByTimeout), keys[1..]);
    }
  }

  lemma StepOrdered(s: State, step: Step)
    requires Ordered(s) && KeysMatch(s) && Allowed(s, step)
    ensures Ordered(Next(s, step)) && KeysMatch(Next(s, step))
  {
    match step
    case Submit(r) => ResolveOrdered(s, r);
    case TimerFires(id) =>
      var s1 := s.(timers := Clear(s.timers, Some(id)));
      SameHistoryOrdered(s, s1);
      DispatchOrdered(s1, s.timers.live[id].key, ByTimeout);
    case Flush => FlushOrdered(s, s.queue.order);
    case Configure(p) => SameHistoryOrdered(s, Next(s, step));
    case Tick(ms) => SameHistoryOrdered(s, Next(s, step));
  }

  /** Per-key order over every run, policy changes included: what is released under a key
      is a prefix of what was enqueued under it, cut into contiguous batches, and what is
      held is exactly the rest. */
  lemma {:induction false} RunOrdered(s: State, steps: seq<Step>)
    requires Ordered(s) && KeysMatch(s) && AllowedRun(s, steps)
    ensures Ordered(Run(s, steps)) && KeysMatch(Run(s, steps))
    decreases |steps|
  {
    if steps != [] {
      StepOrdered(s, steps[0]);
      RunOrdered(Next(s, steps[0]), steps[1..]);
    }
  }

  lemma InitialOrdered(p: BatchPolicy, now: nat)
    ensures Ordered(Initial(p, now)) && KeysMatch(Initial(p, now))
  {
    forall k ensures InOrder(Initial(p, now), k) {
    }
  }

  // ----- exactly once

  /** All releases, in the order they happened. */
  ghost function Releases(batches: seq<Batch>): seq<Request> {
    if batches == [] then [] else Releases(batches[..|batches| - 1]) + batches[|batches| - 1].entries
  }

  lemma {:induction false} EnqueuedForKeyed(log: seq<Request>, k: Text, r: Request)
    ensures multiset(EnqueuedFor(log, k))[r] == if BatchKey(r) == k then multiset(log)[r] else 0
  {
    if log != [] {
      EnqueuedForKeyed(log[..|log| - 1], k, r);
      assert log == log[..|log| - 1] + [log[|log| - 1]];
    }
  }

  /** Batches hold only requests of their own key. */
  lemma ReleasedForKeyed(s: State, k: Text, r: Request)
    requires Ordered(s) && BatchKey(r) != k
    ensures r !in ReleasedFor(s.batches, k) && r !in HeldFor(s.queue, k)
  {
    assert InOrder(s, k);
    EnqueuedForKeyed(s.enqueued, k, r);
    var all := multiset(ReleasedFor(s.batches, k)) + multiset(HeldFor(s.queue, k));
    assert multiset(ReleasedFor(s.batches, k) + HeldFor(s.queue, k)) == all;
    assert r in ReleasedFor(s.batches, k) <==> r in multiset(ReleasedFor(s.batches, k));
    assert r in HeldFor(s.queue, k) <==> r in multiset(HeldFor(s.queue, k));
  }

  lemma {:induction false} BatchWithinKey(batches: seq<Batch>, i: nat, r: Request)
    requires i < |batches| && r in batches[i].entries
    ensures r in ReleasedFor(batches, batches[i].key)
  {
    if i < |batches| - 1 {
      assert batches[..|batches| - 1][i] == batches[i];
      BatchWithinKey(batches[..|batches| - 1], i, r);
    }
  }

  /** Counting releases under the request's own key misses nothing. */
  lemma {:induction false} ReleasesByKey(batches: seq<Batch>, r: Request)
    requires forall i :: 0 <= i < |batches| && batches[i].key != BatchKey(r) ==> r !in batches[i].entries
    ensures multiset(Releases(batches))[r] == multiset(ReleasedFor(batches, BatchKey(r)))[r]
  {
    if batches != [] {
      ReleasesByKey(batches[..|batches| - 1], r);
      var b := batches[|batches| - 1];
      assert r in b.entries <==> r in multiset(b.entries);
    }
  }

  /** No batch, released or forming, holds a request of another key. */
  lemma BatchesKeyed(s: State, i: nat, r: Request)
    requires Ordered(s) && i < |s.batches| && r in s.batches[i].entries
    ensures BatchKey(r) == s.batches[i].key
  {
    BatchWithinKey(s.batches, i, r);
    if BatchKey(r) != s.batches[i].key {
      ReleasedForKeyed(s, s.batches[i].key, r);
    }
  }

  /** Each request is accounted for exactly as often as it was enqueued: released, over all
      batches together, or held in the one group of its key. */
  lemma ReleasedExactlyOnce(s: State, r: Request)
    requires Ordered(s)
    ensures multiset(s.enqueued)[r] == multiset(Releases(s.batches))[r] + multiset(HeldFor(s.queue, BatchKey(r)))[r]
    ensures forall k :: k in s.queue.groups && k != BatchKey(r) ==> r !in s.queue.groups[k].entries
  {
    var k := BatchKey(r);
    assert InOrder(s, k);
    EnqueuedForKeyed(s.enqueued, k, r);
    forall i | 0 <= i < |s.batches| && s.batches[i].key != k ensures r !in s.batches[i].entries {
      if r in s.batches[i].entries { BatchesKeyed(s, i, r); }
    }
    ReleasesByKey(s.batches, r);
    assert multiset(ReleasedFor(s.batches, k) + HeldFor(s.queue, k))
      == multiset(ReleasedFor(s.batches, k)) + multiset(HeldFor(s.queue, k));
    forall j | j in s.queue.groups && j != k ensures r !in s.queue.groups[j].entries {
      ReleasedForKeyed(s, j, r);
    }
  }

  /** Requests that share a batch agree on provider, model, workload type and schema, when
      their first three parts contain no bar. */
  lemma BatchesCompatible(s: State, i: nat, a: Request, b: Request)
    requires Ordered(s) && i < |s.batches| && a in s.batches[i].entries && b in s.batches[i].entries
    requires BarFree(a) && NoBar(a.schema)
    ensures Compatible(a, b)
  {
    BatchesKeyed(s, i, a);
    BatchesKeyed(s, i, b);
    SameKeyCompatible(a, b);
  }

  // ----- sizes under a fixed policy

  ghost predicate Sized(s: State, bound: nat) {
    && SizeBound(s.policy) == bound
    && (forall k :: k in s.queue.groups ==> |s.queue.groups[k].entries| < bound)
    && (forall i :: 0 <= i < |s.batches| ==>
          if s.batches[i].reason == BySize then |s.batches[i].entries| == bound else |s.batches[i].entries| < bound)
  }

  lemma EnqueueSized(s: State, key: Text, r: Request, bound: nat)
    requires Sized(s, bound)
    ensures Sized(Enqueue(s, key, r), bound)
  {
    var s1 := Push(s, key, r);
    assert |s1.queue.groups[key].entries| <= bound;
    assert forall k :: k in s1.queue.groups && k != key ==> s1.queue.groups[k] == s.queue.groups[k];
  }

  lemma {:induction false} FlushSized(s: State, keys: seq<Text>, bound: nat)
    requires Sized(s, bound)
    ensures Sized(FlushKeys(s, keys), bound)
    decreases |keys|
  {
    if keys != [] {
      FlushSized(Dispatch(s, keys[0], ByTimeout), keys[1..], bound);
    }
  }

  lemma StepSized(s: State, step: Step, bound: nat)
    requires Sized(s, bound) && Allowed(s, step)
    requires step.Configure? ==> SizeBound(step.policy) == bound
    ensures Sized(Next(s, step), bound)
  {
    match step
    case Submit(r) => EnqueueSized(s, BatchKey(r), r, bound);
    case TimerFires(id) =>
    case Flush => FlushSized(s, s.queue.order, bound);
    case Configure(p) =>
    case Tick(ms) =>
  }

  /** While the size bound is not changed, a batch dispatched for its size holds exactly
      that many requests, and every other batch and every open group holds fewer. */
  lemma {:induction false} RunSized(s: State, steps: seq<Step>, bound: nat)
    requires Sized(s, bound) && AllowedRun(s, steps)
    requires forall i :: 0 <= i < |steps| && steps[i].Configure? ==> SizeBound(steps[i].policy) == bound
    ensures Sized(Run(s, steps), bound)
    decreases |steps|
  {
    if steps != [] {
      StepSized(s, steps[0], bound);
      assert forall i :: 0 <= i < |steps| - 1 ==> steps[1..][i] == steps[i + 1];
      RunSized(Next(s, steps[0]), steps[1..], bound);
    }
  }
}
