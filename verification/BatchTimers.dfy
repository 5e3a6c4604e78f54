/** The timer protocol, and how long anything waits, in every reachable state. */
module BatchTimers {
  import opened Wrappers
  import opened Sorting
  import opened JoinedText
  import opened BatchTypes
  import opened BatchModel

  /** The map and the opening order list the same groups, and every group holds something. */
  ghost predicate QueueOk(s: State) {
    && NoRepeats(s.queue.order) && Elements(s.queue.order) == s.queue.groups.Keys
    && forall k :: k in s.queue.groups ==>
      s.queue.groups[k].key == k && s.queue.groups[k].entries != [] && s.queue.groups[k].createdAt <= s.now
  }

  /** A live timer belongs to the group that holds its handle, and to no other group. */
  ghost predicate TimersOwned(s: State) {
    && (forall t :: t in s.timers.live ==>
          var timer := s.timers.live[t];
          && t < s.timers.next && timer.key in s.queue.groups
          && var g := s.queue.groups[timer.key];
             g.timer == Some(t) && timer.armedAt == g.createdAt && timer.ms == g.waitMs)
    && (forall k :: k in s.queue.groups ==>
          var h := s.queue.groups[k].timer;
          h.Some? ==> h.value < s.timers.next && (h.value in s.timers.live ==> s.timers.live[h.value].key == k))
  }

  /** The group of `k` owns a live timer. */
  ghost predicate GroupTimed(s: State, k: Text) {
    k in s.queue.groups && s.queue.groups[k].timer.Some? && s.queue.groups[k].timer.value in s.timers.live
  }

  /** The protocol, except that the group of `key` may be without its timer. */
  ghost predicate TimedBut(s: State, key: Text) {
    && QueueOk(s) && TimersOwned(s)
    && forall k {:trigger GroupTimed(s, k)} :: k in s.queue.groups && k != key ==> GroupTimed(s, k)
  }

  /** Every open group is non-empty and owns exactly one live timer, and no live timer is
      without its group, however late timers fire. */
  ghost predicate Timed(s: State) {
    && QueueOk(s) && TimersOwned(s)
    && forall k {:trigger GroupTimed(s, k)} :: k in s.queue.groups ==> GroupTimed(s, k)
  }

  lemma {:induction false} DropMembers(order: seq<Text>, key: Text)
    ensures forall k :: k in Drop(order, key) <==> k in order && k != key
    ensures NoRepeats(order) ==> NoRepeats(Drop(order, key))
  {
    if order != [] {
      DropMembers(order[1..], key);
      assert order == [order[0]] + order[1..];
      if NoRepeats(order) && order[0] != key {
        var rest := Drop(order[1..], key);
        assert order[0] !in rest;
        assert Drop(order, key) == [order[0]] + rest;
      }
    }
  }

  lemma DispatchTimed(s: State, key: Text, reason: DispatchReason)
    requires TimedBut(s, key) && key in s.queue.groups
    ensures Timed(Dispatch(s, key, reason)) && key !in Dispatch(s, key, reason).queue.groups
  {
    var s' := Dispatch(s, key, reason);
    DropMembers(s.queue.order, key);
    assert QueueOk(s');
    forall k | k in s'.queue.groups ensures GroupTimed(s', k) {
      assert GroupTimed(s, k);
    }
  }

  /** The group of a new key starts without a timer. */
  lemma OpenTimed(s: State, key: Text, r: Request)
    requires Timed(s) && key !in s.queue.groups
    ensures TimedBut(Push(s, key, r), key)
  {
    var s' := Push(s, key, r);
    assert [] + [r] == [r];
    assert s'.queue.groups == s.queue.groups[key := Group(key, [r], s.now, None, s.policy.maxWaitMs)];
    assert s'.queue.order == s.queue.order + [key];
    forall k | k in s'.queue.groups && k != key ensures GroupTimed(s', k) {
      assert GroupTimed(s, k);
    }
  }

  /** An open group that gets one more entry keeps its timer. */
  lemma ExtendTimed(s: State, key: Text, r: Request)
    requires Timed(s) && key in s.queue.groups
    ensures TimedBut(Push(s, key, r), key)
  {
    var s' := Push(s, key, r);
    assert s'.queue.groups == AppendTo(s.queue.groups, key, r) && s'.queue.order == s.queue.order;
    forall k | k in s'.queue.groups && k != key ensures GroupTimed(s', k) {
      assert GroupTimed(s, k);
    }
  }

  lemma PushTimed(s: State, key: Text, r: Request)
    requires Timed(s)
    ensures TimedBut(Push(s, key, r), key) && key in Push(s, key, r).queue.groups
  {
    if key in s.queue.groups {
      ExtendTimed(s, key, r);
    } else {
      OpenTimed(s, key, r);
    }
  }

  lemma PushedGroup(s: State, key: Text, r: Request)
    requires Timed(s)
    ensures key in Push(s, key, r).queue.groups
    ensures var g := Push(s, key, r).queue.groups[key];
      if key in s.queue.groups then GroupTimed(Push(s, key, r), key) && |g.entries| > 1
      else g.timer == None && g.createdAt == s.now && g.waitMs == s.policy.maxWaitMs && g.entries == [r]
  {
    if key in s.queue.groups {
      assert GroupTimed(s, key);
    }
  }

  lemma ArmTimed(s: State, key: Text)
    requires TimedBut(s, key) && key in s.queue.groups && s.queue.groups[key].timer == None
    requires s.queue.groups[key].createdAt == s.now && s.queue.groups[key].waitMs == s.policy.maxWaitMs
    ensures Timed(ArmGroup(s, key))
  {
    var s' := ArmGroup(s, key);
    forall k | k in s'.queue.groups ensures GroupTimed(s', k) {
      if k != key { assert GroupTimed(s, k); }
    }
  }

  lemma EnqueueTimed(s: State, key: Text, r: Request)
    requires Timed(s)
    ensures Timed(Enqueue(s, key, r))
  {
    var s1 := Push(s, key, r);
    PushTimed(s, key, r);
    PushedGroup(s, key, r);
    var size := |s1.queue.groups[key].entries|;
    if size >= SizeBound(s.policy) {
      DispatchTimed(s1, key, BySize);
    } else if size == 1 {
      ArmTimed(s1, key);
    }
  }

  /** When a live timer fires, its own group is the one dispatched: a timer armed for one
      batch never dispatches a later one. */
  lemma FireTimed(s: State, id: nat)
    requires Timed(s) && Allowed(s, TimerFires(id))
    ensures Timed(Fire(s, id))
    ensures var key := s.timers.live[id].key;
      && key in s.queue.groups && s.queue.groups[key].timer == Some(id)
      && Fire(s, id).batches == s.batches + [Released(s, s.queue.groups[key], ByTimeout)]
  {
    var key := s.timers.live[id].key;
    var s1 := s.(timers := Clear(s.timers, Some(id)));
    forall k | k in s1.queue.groups && k != key ensures GroupTimed(s1, k) {
      assert GroupTimed(s, k);
    }
    DispatchTimed(s1, key, ByTimeout);
  }

  lemma {:induction false} FlushTimed(s: State, keys: seq<Text>)
    requires Timed(s)
    ensures Timed(FlushKeys(s, keys))
    ensures FlushKeys(s, keys).queue.groups.Keys == s.queue.groups.Keys - Elements(keys)
    decreases |keys|
  {
    if keys != [] {
      var s1 := Dispatch(s, keys[0], ByTimeout);
      if keys[0] in s.queue.groups {
        DispatchTimed(s, keys[0], ByTimeout);
      }
      FlushTimed(s1, keys[1..]);
      assert Elements(keys) == {keys[0]} + Elements(keys[1..]);
    }
  }

  lemma ResolveTimed(s: State, r: Request)
    requires Timed(s)
    ensures Timed(Resolve(s, r))
  {
    if s.policy.mode == BatchMode.Enabled && !s.policy.bypass && BatchEligible(s.policy, r) {
      EnqueueTimed(s, BatchKey(r), r);
    } else {
      SameGroupsTimed(s, Resolve(s, r));
    }
  }

  lemma StepTimed(s: State, step: Step)
    requires Timed(s) && Allowed(s, step)
    ensures Timed(Next(s, step))
  {
    match step
    case Submit(r) =>
      ResolveTimed(s, r);
    case TimerFires(id) =>
      FireTimed(s, id);
    case Flush =>
      FlushTimed(s, s.queue.order);
    case Configure(p) =>
      SameGroupsTimed(s, Next(s, step));
    case Tick(ms) =>
      SameGroupsTimed(s, Next(s, step));
  }

  lemma SameGroupsTimed(s: State, s': State)
    requires Timed(s) && s'.queue == s.queue && s'.timers == s.timers
    requires s'.now >= s.now
    ensures Timed(s')
  {
    forall k | k in s'.queue.groups ensures GroupTimed(s', k) {
      assert GroupTimed(s, k);
    }
  }

  /** The timer protocol holds in every state a run goes through. */
  lemma {:induction false} RunTimed(s: State, steps: seq<Step>)
    requires Timed(s) && AllowedRun(s, steps)
    ensures Timed(Run(s, steps))
    decreases |steps|
  {
    if steps != [] {
      StepTimed(s, steps[0]);
      RunTimed(Next(s, steps[0]), steps[1..]);
    }
  }

  lemma InitialTimed(p: BatchPolicy, now: nat)
    ensures Timed(Initial(p, now))
  {
  }

  // ----- what the protocol is for

  /** Open groups and live timers are in one-to-one correspondence. */
  lemma OneTimerPerGroup(s: State)
    requires Timed(s)
    ensures forall k :: k in s.queue.groups ==>
      exists t :: t in s.timers.live && s.timers.live[t].key == k && s.queue.groups[k].timer == Some(t)
    ensures forall t, u :: t in s.timers.live && u in s.timers.live && s.timers.live[t].key == s.timers.live[u].key ==> t == u
    ensures forall t :: t in s.timers.live ==> s.timers.live[t].key in s.queue.groups
  {
    forall k | k in s.queue.groups
      ensures exists t :: t in s.timers.live && s.timers.live[t].key == k && s.queue.groups[k].timer == Some(t)
    {
      assert GroupTimed(s, k);
      assert s.queue.groups[k].timer.value in s.timers.live;
    }
  }

  /** A flush empties the scheduler. */
  lemma FlushEmpties(s: State)
    requires Timed(s)
    ensures var s' := Next(s, Flush); s'.queue == Queue(map[], []) && s'.timers.live == map[]
  {
    FlushTimed(s, s.queue.order);
    var s' := Next(s, Flush);
    assert s'.queue.groups.Keys == {} == Elements(s'.queue.order);
    MembersExist(s'.queue.order);
    assert s'.queue.groups == map[] && s'.queue.order == [];
    assert s'.timers.live.Keys == {};
  }

  // ----- bounded wait

  /** At `time`, every live timer is at most `slack` milliseconds past its due time. */
  ghost predicate NoneOverdue(t: Timers, time: nat, slack: nat) {
    forall id :: id in t.live ==> time <= t.live[id].armedAt + t.live[id].ms + slack
  }

  ghost predicate Timely(s: State, slack: nat) {
    NoneOverdue(s.timers, s.now, slack)
  }

  /** Time does not pass a live timer's due time by more than `slack` before it has fired. */
  ghost predicate TimelyStep(s: State, step: Step, slack: nat) {
    step.Tick? ==> NoneOverdue(s.timers, s.now + step.ms, slack)
  }

  ghost predicate TimelyRun(s: State, steps: seq<Step>, slack: nat)
    requires AllowedRun(s, steps)
    decreases |steps|
  {
    steps == [] || (TimelyStep(s, steps[0], slack) && TimelyRun(Next(s, steps[0]), steps[1..], slack))
  }

  lemma {:induction false} FlushTimely(s: State, keys: seq<Text>, slack: nat)
    requires Timely(s, slack)
    ensures Timely(FlushKeys(s, keys), slack)
    decreases |keys|
  {
    if keys != [] {
      FlushTimely(Dispatch(s, keys[0], ByTimeout), keys[1..], slack);
    }
  }

  lemma StepTimely(s: State, step: Step, slack: nat)
    requires Timely(s, slack) && Allowed(s, step) && TimelyStep(s, step, slack)
    ensures Timely(Next(s, step), slack)
  {
    if step.Flush? {
      FlushTimely(s, s.queue.order, slack);
    }
  }

  /** Nothing is held for longer than the wait that was in force when its group was opened,
      plus what the timers are late. */
  lemma HeldInTime(s: State, k: Text, slack: nat)
    requires Timed(s) && Timely(s, slack) && k in s.queue.groups
    ensures s.queue.groups[k].createdAt <= s.now <= s.queue.groups[k].createdAt + s.queue.groups[k].waitMs + slack
  {
    assert GroupTimed(s, k);
  }

  /** A timer that fires no earlier than it is due releases its group at the end of the
      wait in force at the opening, to the millisecond when timers are not late. */
  lemma FiresOnTime(s: State, id: nat, slack: nat)
    requires Timed(s) && Timely(s, slack) && Allowed(s, TimerFires(id))
    requires s.timers.live[id].armedAt + s.timers.live[id].ms <= s.now
    ensures var g := s.queue.groups[s.timers.live[id].key];
      g.createdAt + g.waitMs <= s.now <= g.createdAt + g.waitMs + slack
  {
    HeldInTime(s, s.timers.live[id].key, slack);
  }

  /** Every batch was released within `slack` of the end of its wait, or earlier. */
  ghost predicate BatchesInTime(batches: seq<Batch>, slack: nat) {
    forall i :: 0 <= i < |batches| ==>
      && batches[i].entries != []
      && batches[i].createdAt <= batches[i].releasedAt <= batches[i].createdAt + batches[i].waitMs + slack
  }

  lemma EnqueueInTime(s: State, key: Text, r: Request, slack: nat)
    requires Timed(s) && Timely(s, slack) && BatchesInTime(s.batches, slack)
    ensures BatchesInTime(Enqueue(s, key, r).batches, slack)
  {
    PushedGroup(s, key, r);
    if key in s.queue.groups { HeldInTime(s, key, slack); }
  }

  lemma {:induction false} FlushInTime(s: State, keys: seq<Text>, slack: nat)
    requires Timed(s) && Timely(s, slack) && BatchesInTime(s.batches, slack)
    ensures BatchesInTime(FlushKeys(s, keys).batches, slack)
    decreases |keys|
  {
    if keys != [] {
      if keys[0] in s.queue.groups {
        HeldInTime(s, keys[0], slack);
        DispatchTimed(s, keys[0], ByTimeout);
      }
      FlushInTime(Dispatch(s, keys[0], ByTimeout), keys[1..], slack);
    }
  }

  lemma FireInTime(s: State, id: nat, slack: nat)
    requires Timed(s) && Timely(s, slack) && Allowed(s, TimerFires(id)) && BatchesInTime(s.batches, slack)
    ensures BatchesInTime(Fire(s, id).batches, slack)
  {
    FireTimed(s, id);
    HeldInTime(s, s.timers.live[id].key, slack);
  }

  lemma StepInTime(s: State, step: Step, slack: nat)
    requires Timed(s) && Timely(s, slack) && Allowed(s, step) && BatchesInTime(s.batches, slack)
    ensures BatchesInTime(Next(s, step).batches, slack)
  {
    match step
    case Submit(r) => EnqueueInTime(s, BatchKey(r), r, slack);
    case TimerFires(id) => FireInTime(s, id, slack);
    case Flush => FlushInTime(s, s.queue.order, slack);
    case Configure(p) =>
    case Tick(ms) =>
  }

  /** Over every run whose timers are at most `slack` late, every batch is released no later
      than its group's opening plus the wait then in force plus `slack`, whatever the policy
      became meanwhile. */
  lemma {:induction false} RunInTime(s: State, steps: seq<Step>, slack: nat)
    requires Timed(s) && Timely(s, slack) && BatchesInTime(s.batches, slack)
    requires AllowedRun(s, steps) && TimelyRun(s, steps, slack)
    ensures Timely(Run(s, steps), slack) && BatchesInTime(Run(s, steps).batches, slack)
    decreases |steps|
  {
    if steps != [] {
      StepTimed(s, steps[0]);
      StepTimely(s, steps[0], slack);
      StepInTime(s, steps[0], slack);
      RunInTime(Next(s, steps[0]), steps[1..], slack);
    }
  }
}
