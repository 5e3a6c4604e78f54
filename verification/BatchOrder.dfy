/** In which order groups are opened, and in which order a flush releases them. */
module BatchOrder {
  import opened Wrappers
  import opened Sorting
  import opened JoinedText
  import opened BatchTypes
  import opened BatchModel
  import opened BatchTimers
  import opened BatchHistory

  // ----- positions in the log

  /** The request at position `p` of the log opened the group of `k` that is open now: all
      that was enqueued under `k` before it has been released, and nothing since. */
  ghost predicate OpenedBy(s: State, k: Text, p: nat) {
    && p < |s.enqueued| && BatchKey(s.enqueued[p]) == k
    && EnqueuedFor(s.enqueued[..p], k) == ReleasedFor(s.batches, k)
  }

  lemma {:induction false} EnqueuedGrows(log: seq<Request>, k: Text, p: nat, q: nat)
    requires p <= q <= |log|
    ensures |EnqueuedFor(log[..p], k)| <= |EnqueuedFor(log[..q], k)|
    ensures p < q && BatchKey(log[p]) == k ==> |EnqueuedFor(log[..p], k)| < |EnqueuedFor(log[..q], k)|
    decreases q
  {
    if p < q {
      assert log[..q][..q - 1] == log[..q - 1];
      EnqueuedGrows(log, k, p, q - 1);
    }
  }

  lemma OpenedOnce(s: State, k: Text, p: nat, q: nat)
    requires OpenedBy(s, k, p) && OpenedBy(s, k, q)
    ensures p == q
  {
    if p < q {
      EnqueuedGrows(s.enqueued, k, p, q);
    } else if q < p {
      EnqueuedGrows(s.enqueued, k, q, p);
    }
  }

  /** The entry of the log that comes after the first `n` of its key. */
  lemma {:induction false} EntryAt(log: seq<Request>, k: Text, n: nat) returns (p: nat)
    requires n < |EnqueuedFor(log, k)|
    ensures p < |log| && BatchKey(log[p]) == k && log[p] == EnqueuedFor(log, k)[n]
    ensures EnqueuedFor(log[..p], k) == EnqueuedFor(log, k)[..n]
  {
    var last := |log| - 1;
    var rest := EnqueuedFor(log[..last], k);
    if n < |rest| {
      p := EntryAt(log[..last], k, n);
      assert log[..last][..p] == log[..p];
      assert EnqueuedFor(log, k)[..n] == rest[..n];
    } else {
      p := last;
      assert EnqueuedFor(log, k)[..n] == rest;
    }
  }

  /** Every open group was opened by one request, the first that it holds. */
  lemma GroupOpened(s: State, k: Text) returns (p: nat)
    requires Ordered(s) && k in s.queue.groups && s.queue.groups[k].entries != []
    ensures OpenedBy(s, k, p) && s.enqueued[p] == s.queue.groups[k].entries[0]
  {
    assert InOrder(s, k);
    var released := ReleasedFor(s.batches, k);
    p := EntryAt(s.enqueued, k, |released|);
    assert EnqueuedFor(s.enqueued, k)[..|released|] == released;
  }

  // ----- the opening order

  /** `order` lists the open groups in the order in which they were opened. */
  ghost predicate InOpeningOrder(s: State) {
    forall j, k, p: nat, q: nat {:trigger OpenedBy(s, j, p), OpenedBy(s, k, q)} ::
      ComesBefore(s.queue.order, j, k) && OpenedBy(s, j, p) && OpenedBy(s, k, q) ==> p < q
  }

  lemma {:induction false} DropKeepsOrder(order: seq<Text>, key: Text, j: Text, k: Text)
    requires ComesBefore(Drop(order, key), j, k)
    ensures ComesBefore(order, j, k) && j != key && k != key
  {
    DropMembers(order, key);
    var rest := Drop(order[1..], key);
    DropMembers(order[1..], key);
    var a, b :| 0 <= a < b < |Drop(order, key)| && Drop(order, key)[a] == j && Drop(order, key)[b] == k;
    assert j in Drop(order, key) && k in Drop(order, key);
    if order[0] != key && a == 0 {
      assert Drop(order, key)[b] == rest[b - 1] && k in order[1..];
      var c :| 0 <= c < |order[1..]| && order[1..][c] == k;
      assert order[0] == j && order[c + 1] == k;
    } else {
      if order[0] != key {
        assert rest[a - 1] == j && rest[b - 1] == k;
      }
      DropKeepsOrder(order[1..], key, j, k);
      var c, d :| 0 <= c < d < |order[1..]| && order[1..][c] == j && order[1..][d] == k;
      assert order[c + 1] == j && order[d + 1] == k;
    }
  }

  /** After a push only the group it opened has a later opening position. */
  lemma PushOpened(s: State, r: Request, k: Text, p: nat)
    requires Ordered(s) && QueueOk(s)
    requires k in Push(s, BatchKey(r), r).queue.groups && OpenedBy(Push(s, BatchKey(r), r), k, p)
    ensures if k in s.queue.groups then OpenedBy(s, k, p) else p == |s.enqueued| && k == BatchKey(r)
  {
    var log := s.enqueued + [r];
    assert InOrder(s, k);
    assert log[..|s.enqueued|] == s.enqueued;
    if p < |s.enqueued| {
      assert log[..p] == s.enqueued[..p];
      EnqueuedGrows(s.enqueued, k, p, |s.enqueued|);
      assert s.enqueued[..|s.enqueued|] == s.enqueued;
    } else {
      assert log[..p] == s.enqueued;
    }
  }

  lemma PushInOrder(s: State, r: Request)
    requires Ordered(s) && QueueOk(s) && InOpeningOrder(s)
    ensures InOpeningOrder(Push(s, BatchKey(r), r))
  {
    var s' := Push(s, BatchKey(r), r);
    forall j, k, p: nat, q: nat | ComesBefore(s'.queue.order, j, k) && OpenedBy(s', j, p) && OpenedBy(s', k, q)
      ensures p < q
    {
      var a, b :| 0 <= a < b < |s'.queue.order| && s'.queue.order[a] == j && s'.queue.order[b] == k;
      ListedGroups(s, r, j, k, a, b);
      PushOpened(s, r, j, p);
      PushOpened(s, r, k, q);
      if k in s.queue.groups {
        assert OpenedBy(s, j, p) && OpenedBy(s, k, q);
      }
    }
  }

  lemma ListedGroups(s: State, r: Request, j: Text, k: Text, a: nat, b: nat)
    requires QueueOk(s) && a < b < |Push(s, BatchKey(r), r).queue.order|
    requires Push(s, BatchKey(r), r).queue.order[a] == j && Push(s, BatchKey(r), r).queue.order[b] == k
    ensures j in s.queue.groups && k in Push(s, BatchKey(r), r).queue.groups
    ensures k in s.queue.groups ==> ComesBefore(s.queue.order, j, k)
  {
    var order := s.queue.order;
    assert a < |order| && order[a] in Elements(order);
    if b < |order| {
      assert order[b] in Elements(order);
    }
  }

  lemma DispatchInOrder(s: State, key: Text, reason: DispatchReason)
    requires KeysMatch(s) && InOpeningOrder(s)
    ensures InOpeningOrder(Dispatch(s, key, reason))
  {
    if key in s.queue.groups && s.queue.groups[key].entries != [] {
      var s' := Dispatch(s, key, reason);
      var b := Released(s, s.queue.groups[key], reason);
      forall j, k, p: nat, q: nat | ComesBefore(s'.queue.order, j, k) && OpenedBy(s', j, p) && OpenedBy(s', k, q)
        ensures p < q
      {
        DropKeepsOrder(s.queue.order, key, j, k);
        ReleasedAppend(s.batches, b, j);
        ReleasedAppend(s.batches, b, k);
        assert OpenedBy(s, j, p) && OpenedBy(s, k, q);
      }
    }
  }

  lemma SameOrder(s: State, s': State)
    requires InOpeningOrder(s) && s'.queue.order == s.queue.order
    requires s'.enqueued == s.enqueued && s'.batches == s.batches
    ensures InOpeningOrder(s')
  {
    forall j, k, p: nat, q: nat | ComesBefore(s'.queue.order, j, k) && OpenedBy(s', j, p) && OpenedBy(s', k, q)
      ensures p < q
    {
      assert OpenedBy(s, j, p) && OpenedBy(s, k, q);
    }
  }

  lemma ResolveInOrder(s: State, r: Request)
    requires Timed(s) && Ordered(s) && KeysMatch(s) && InOpeningOrder(s)
    ensures InOpeningOrder(Resolve(s, r))
  {
    if Admits(s.policy, r) {
      var key := BatchKey(r);
      var s1 := Push(s, key, r);
      PushInOrder(s, r);
      PushOrdered(s, r);
      DispatchInOrder(s1, key, BySize);
      SameOrder(s1, ArmGroup(s1, key));
    } else {
      SameOrder(s, Resolve(s, r));
    }
  }

  lemma {:induction false} FlushInOrder(s: State, keys: seq<Text>)
    requires Ordered(s) && KeysMatch(s) && InOpeningOrder(s)
    ensures InOpeningOrder(FlushKeys(s, keys))
    decreases |keys|
  {
    if keys != [] {
      DispatchInOrder(s, keys[0], ByTimeout);
      DispatchOrdered(s, keys[0], ByTimeout);
      FlushInOrder(Dispatch(s, keys[0], ByTimeout), keys[1..]);
    }
  }

  lemma StepInOrder(s: State, step: Step)
    requires Timed(s) && Ordered(s) && KeysMatch(s) && InOpeningOrder(s) && Allowed(s, step)
    ensures InOpeningOrder(Next(s, step))
  {
    match step
    case Submit(r) => ResolveInOrder(s, r);
    case TimerFires(id) =>
      var s1 := s.(timers := Clear(s.timers, Some(id)));
      SameOrder(s, s1);
      DispatchInOrder(s1, s.timers.live[id].key, ByTimeout);
    case Flush => FlushInOrder(s, s.queue.order);
    case Configure(p) => SameOrder(s, Next(s, step));
    case Tick(ms) => SameOrder(s, Next(s, step));
  }

  /** Every step keeps the opening order, so every run does. */
  lemma {:induction false} RunInOrder(s: State, steps: seq<Step>)
    requires Timed(s) && Ordered(s) && KeysMatch(s) && InOpeningOrder(s) && AllowedRun(s, steps)
    ensures InOpeningOrder(Run(s, steps))
    decreases |steps|
  {
    if steps != [] {
      StepInOrder(s, steps[0]);
      StepTimed(s, steps[0]);
      StepOrdered(s, steps[0]);
      RunInOrder(Next(s, steps[0]), steps[1..]);
    }
  }

  lemma Reached(p: BatchPolicy, now: nat, steps: seq<Step>)
    requires AllowedRun(Initial(p, now), steps)
    ensures var s := Run(Initial(p, now), steps); Timed(s) && Ordered(s) && KeysMatch(s) && InOpeningOrder(s)
  {
    InitialTimed(p, now);
    InitialOrdered(p, now);
    RunTimed(Initial(p, now), steps);
    RunOrdered(Initial(p, now), steps);
    RunInOrder(Initial(p, now), steps);
  }

  lemma OpenAt(s: State, i: nat)
    requires QueueOk(s) && i < |s.queue.order|
    ensures s.queue.order[i] in s.queue.groups && s.queue.groups[s.queue.order[i]].entries != []
  {
    assert s.queue.order[i] in Elements(s.queue.order);
  }

  /** The requests of `entries`, held together under `k`, were opened by the one at position
      `p` of the log, which is the first of them. */
  ghost predicate OpenedWith(s: State, k: Text, entries: seq<Request>, p: nat) {
    OpenedBy(s, k, p) && entries != [] && entries[0] == s.enqueued[p]
  }

  lemma OpeningsCompare(s: State, i: nat, j: nat) returns (a: nat, b: nat)
    requires Timed(s) && Ordered(s) && InOpeningOrder(s) && i < |s.queue.order| && j < |s.queue.order|
    ensures var q := s.queue;
      && q.order[i] in q.groups && OpenedWith(s, q.order[i], q.groups[q.order[i]].entries, a)
      && q.order[j] in q.groups && OpenedWith(s, q.order[j], q.groups[q.order[j]].entries, b)
      && (i < j <==> a < b)
  {
    OpenAt(s, i);
    OpenAt(s, j);
    a := GroupOpened(s, s.queue.order[i]);
    b := GroupOpened(s, s.queue.order[j]);
    if i < j {
      assert ComesBefore(s.queue.order, s.queue.order[i], s.queue.order[j]);
    } else if j < i {
      assert ComesBefore(s.queue.order, s.queue.order[j], s.queue.order[i]);
    } else {
      OpenedOnce(s, s.queue.order[i], a, b);
    }
  }

  /** From a fresh scheduler, after every run: of two open groups the one listed first was
      opened first. Each was opened by the first request it holds, which stands in the log at
      the position given. */
  lemma GroupsInOpeningOrder(p: BatchPolicy, now: nat, steps: seq<Step>, i: nat, j: nat) returns (a: nat, b: nat)
    requires AllowedRun(Initial(p, now), steps)
    requires i < |Run(Initial(p, now), steps).queue.order| && j < |Run(Initial(p, now), steps).queue.order|
    ensures var s := Run(Initial(p, now), steps);
      && s.queue.order[i] in s.queue.groups && s.queue.order[j] in s.queue.groups
      && OpenedWith(s, s.queue.order[i], s.queue.groups[s.queue.order[i]].entries, a)
      && OpenedWith(s, s.queue.order[j], s.queue.groups[s.queue.order[j]].entries, b)
      && (i < j <==> a < b)
  {
    Reached(p, now, steps);
    a, b := OpeningsCompare(Run(Initial(p, now), steps), i, j);
  }

  // ----- a flush

  /** The batches that releasing the groups of `keys` one after the other gives. */
  ghost function Flushed(s: State, keys: seq<Text>): seq<Batch>
    requires forall i :: 0 <= i < |keys| ==> keys[i] in s.queue.groups
  {
    seq(|keys|, i requires 0 <= i < |keys| => Released(s, s.queue.groups[keys[i]], ByTimeout))
  }

  lemma {:induction false} FlushReleases(s: State, keys: seq<Text>)
    requires NoRepeats(keys)
    requires forall i :: 0 <= i < |keys| ==> keys[i] in s.queue.groups && s.queue.groups[keys[i]].entries != []
    ensures FlushKeys(s, keys).batches == s.batches + Flushed(s, keys)
    decreases |keys|
  {
    if keys != [] {
      var s1 := Dispatch(s, keys[0], ByTimeout);
      forall i | 0 <= i < |keys[1..]|
        ensures keys[1..][i] in s1.queue.groups && s1.queue.groups[keys[1..][i]] == s.queue.groups[keys[i + 1]]
      {
        assert keys[0] != keys[i + 1];
      }
      FlushReleases(s1, keys[1..]);
      assert Flushed(s, keys) == [Released(s, s.queue.groups[keys[0]], ByTimeout)] + Flushed(s1, keys[1..]);
      ConcatAssociative(s.batches, [Released(s, s.queue.groups[keys[0]], ByTimeout)], Flushed(s1, keys[1..]));
    }
  }

  /** Where the requests of batch `i` begin in the sequence of all releases. */
  ghost function StartOf(batches: seq<Batch>, i: nat): nat
    requires i <= |batches|
  {
    |Releases(batches[..i])|
  }

  lemma {:induction false} ReleasedAt(batches: seq<Batch>, n: nat, i: nat)
    requires i < n <= |batches|
    ensures StartOf(batches, i) + |batches[i].entries| <= StartOf(batches, n)
    ensures forall x :: 0 <= x < |batches[i].entries| ==>
      Releases(batches[..n])[StartOf(batches, i) + x] == batches[i].entries[x]
    decreases n
  {
    assert batches[..n][..n - 1] == batches[..n - 1];
    if i < n - 1 {
      ReleasedAt(batches, n - 1, i);
    }
  }

  /** Of the batches `all` released so far, batch `i` comes before batch `j`: in the list, and
      with all its requests in the sequence of releases. */
  ghost predicate ReleasedBefore(all: seq<Batch>, i: nat, j: nat) {
    && i < j < |all|
    && StartOf(all, i) + |all[i].entries| <= StartOf(all, j)
    && StartOf(all, j) + |all[j].entries| <= |Releases(all)|
    && (forall x :: 0 <= x < |all[i].entries| ==> Releases(all)[StartOf(all, i) + x] == all[i].entries[x])
    && (forall x :: 0 <= x < |all[j].entries| ==> Releases(all)[StartOf(all, j) + x] == all[j].entries[x])
  }

  lemma ReleasedInTurn(all: seq<Batch>, i: nat, j: nat)
    requires i < j < |all|
    ensures ReleasedBefore(all, i, j)
  {
    ReleasedAt(all, j, i);
    assert all[..|all|] == all;
    ReleasedAt(all, |all|, i);
    ReleasedAt(all, |all|, j);
  }

  lemma AllOpen(s: State)
    requires QueueOk(s)
    ensures forall h :: 0 <= h < |s.queue.order| ==>
      s.queue.order[h] in s.queue.groups && s.queue.groups[s.queue.order[h]].entries != []
  {
    forall h: nat | h < |s.queue.order|
      ensures s.queue.order[h] in s.queue.groups && s.queue.groups[s.queue.order[h]].entries != []
    {
      OpenAt(s, h);
    }
  }

  lemma FlushOrder(s: State)
    requires Timed(s)
    ensures forall h :: 0 <= h < |s.queue.order| ==> s.queue.order[h] in s.queue.groups
    ensures Next(s, Flush).batches == s.batches + Flushed(s, s.queue.order)
  {
    AllOpen(s);
    FlushReleases(s, s.queue.order);
  }

  /** A flush releases every open group as one batch, in the order in which they were opened:
      of two batches of one flush, the one whose group was opened first is released first, and
      all its requests are resumed before those of the other. */
  lemma FlushReleasesInOrder(p: BatchPolicy, now: nat, steps: seq<Step>, i: nat, j: nat) returns (a: nat, b: nat)
    requires AllowedRun(Initial(p, now), steps)
    requires i < |Run(Initial(p, now), steps).queue.order| && j < |Run(Initial(p, now), steps).queue.order|
    ensures var s := Run(Initial(p, now), steps); var all := Next(s, Flush).batches;
      |all| == |s.batches| + |s.queue.order| && FlushedRightly(s, all, |s.batches|, i, j, a, b)
  {
    Reached(p, now, steps);
    var s := Run(Initial(p, now), steps);
    FlushOrder(s);
    KeysOf(s, i);
    KeysOf(s, j);
    a, b := FlushCompares(s, s.batches + Flushed(s, s.queue.order), |s.batches|, i, j);
  }

  /** What the groups of `keys` hold, group after group. */
  ghost function Gathered(groups: map<Text, Group>, keys: seq<Text>): seq<Request> {
    if keys == [] then []
    else
      var k := keys[|keys| - 1];
      Gathered(groups, keys[..|keys| - 1]) + if k in groups then groups[k].entries else []
  }

  lemma {:induction false} FlushedGathers(s: State, keys: seq<Text>, before: seq<Batch>)
    requires forall i :: 0 <= i < |keys| ==> keys[i] in s.queue.groups
    ensures Releases(before + Flushed(s, keys)) == Releases(before) + Gathered(s.queue.groups, keys)
  {
    if keys == [] {
      assert before + Flushed(s, keys) == before;
    } else {
      var n := |keys| - 1;
      var last := Released(s, s.queue.groups[keys[n]], ByTimeout);
      FlushedGathers(s, keys[..n], before);
      assert before + Flushed(s, keys) == (before + Flushed(s, keys[..n])) + [last];
      ReleasesOneMore(before + Flushed(s, keys[..n]), last);
      ConcatAssociative(Releases(before), Gathered(s.queue.groups, keys[..n]), last.entries);
    }
  }

  lemma ReleasesOneMore(batches: seq<Batch>, b: Batch)
    ensures Releases(batches + [b]) == Releases(batches) + b.entries
  {
    assert (batches + [b])[..|batches|] == batches;
  }

  /** A flush resumes what is held, group after group in the order of the queue. */
  lemma FlushGathers(s: State)
    requires Timed(s)
    ensures Releases(Next(s, Flush).batches) == Releases(s.batches) + Gathered(s.queue.groups, s.queue.order)
  {
    FlushOrder(s);
    FlushedGathers(s, s.queue.order, s.batches);
  }

  /** Of the batches `all`, those from `n` on are the ones of a flush in state `s`: batch `i` of
      them comes before batch `j` just when its group was opened before, by the requests at
      positions `a` and `b` of the log. */
  ghost predicate FlushedRightly(s: State, all: seq<Batch>, n: nat, i: nat, j: nat, a: nat, b: nat) {
    && n + i < |all| && n + j < |all|
    && OpenedWith(s, all[n + i].key, all[n + i].entries, a)
    && OpenedWith(s, all[n + j].key, all[n + j].entries, b)
    && (a < b <==> i < j) && (a < b ==> ReleasedBefore(all, n + i, n + j))
  }

  lemma FlushCompares(s: State, all: seq<Batch>, n: nat, i: nat, j: nat) returns (a: nat, b: nat)
    requires Timed(s) && Ordered(s) && InOpeningOrder(s) && i < |s.queue.order| && j < |s.queue.order|
    requires n + i < |all| && n + j < |all| && s.queue.order[i] in s.queue.groups && s.queue.order[j] in s.queue.groups
    requires all[n + i].key == s.queue.order[i] && all[n + i].entries == s.queue.groups[s.queue.order[i]].entries
    requires all[n + j].key == s.queue.order[j] && all[n + j].entries == s.queue.groups[s.queue.order[j]].entries
    ensures FlushedRightly(s, all, n, i, j, a, b)
  {
    a, b := OpeningsCompare(s, i, j);
    if i < j { ReleasedInTurn(all, n + i, n + j); }
  }

  lemma KeysOf(s: State, i: nat)
    requires QueueOk(s) && i < |s.queue.order|
    requires forall h :: 0 <= h < |s.queue.order| ==> s.queue.order[h] in s.queue.groups
    ensures var b := (s.batches + Flushed(s, s.queue.order))[|s.batches| + i];
      b.key == s.queue.order[i] && b.entries == s.queue.groups[s.queue.order[i]].entries
  {
  }
}
