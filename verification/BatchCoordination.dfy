/** The objects behind the batch scheduler: groups, queue, timers, event bus, coordinator.
    Each method is proved to take its step of the model. */
module BatchCoordination {
  import opened Wrappers
  import opened Sorting
  import opened JoinedText
  import opened BatchTypes
  import opened BatchModel
  import opened BatchTimers
  import opened BatchHistory
  import opened BatchMetrics

  /** The requests of one key that are held together, and the handle of their timer. */
  class BatchGroup {
    const key: Text
    const createdAt: nat
    ghost const waitMs: nat
    var entries: seq<Request>
    var timer: Option<nat>

    constructor (key: Text, createdAt: nat, ghost waitMs: nat)
      ensures View() == Group(key, [], createdAt, None, waitMs)
      ensures this.key == key && this.createdAt == createdAt && this.waitMs == waitMs && entries == [] && timer == None
    {
      this.key, this.createdAt, this.waitMs := key, createdAt, waitMs;
      entries, timer := [], None;
    }

    ghost function View(): Group
      reads this
    {
      Group(key, entries, createdAt, timer, waitMs)
    }

    ghost predicate Shows(g: Group)
      reads this
    {
      g.key == key && g.entries == entries && g.createdAt == createdAt && g.timer == timer && g.waitMs == waitMs
    }
  }

  /** `order` lists each key once. */
  ghost predicate Listed(order: seq<Text>, keys: set<Text>) {
    if order == [] then keys == {} else order[0] in keys && Listed(order[1..], keys - {order[0]})
  }

  lemma {:induction false} ListedMeans(order: seq<Text>, keys: set<Text>)
    ensures Listed(order, keys) <==> NoRepeats(order) && Elements(order) == keys
  {
    if order != [] {
      ListedMeans(order[1..], keys - {order[0]});
      assert order == [order[0]] + order[1..];
      if NoRepeats(order) {
        assert order[0] !in order[1..];
      }
      assert Elements(order) == {order[0]} + Elements(order[1..]);
    }
  }

  lemma ListOpened(order: seq<Text>, keys: set<Text>, key: Text)
    requires Listed(order, keys)
    ensures Listed(if key in keys then order else order + [key], keys + {key})
  {
    ListedMeans(order, keys);
    assert key in keys <==> key in Elements(order);
    if key in keys {
      assert keys + {key} == keys;
    } else {
      ListedMeans(order + [key], keys + {key});
    }
  }

  lemma ListDropped(order: seq<Text>, keys: set<Text>, key: Text)
    requires Listed(order, keys)
    ensures Listed(Drop(order, key), keys - {key})
  {
    ListedMeans(order, keys);
    DropMembers(order, key);
    ListedMeans(Drop(order, key), keys - {key});
  }

  /** Pending requests by compatibility key, in opening order. `contents` is the queue as a
      value. */
  class BatchQueue {
    var groups: map<Text, BatchGroup>
    var order: seq<Text>
    ghost var contents: Queue

    constructor ()
      ensures Valid() && contents == Queue(map[], []) && groups == map[]
    {
      groups, order, contents := map[], [], Queue(map[], []);
    }

    ghost predicate Valid()
      reads this, groups.Values
    {
      && contents.order == order && contents.groups.Keys == groups.Keys
      && Listed(order, groups.Keys)
      && forall k {:trigger groups[k]} :: k in groups ==> groups[k].key == k && groups[k].Shows(contents.groups[k])
    }

    /** Opens a new group; the caller pushes the first entry. */
    method Open(key: Text, createdAt: nat, ghost waitMs: nat) returns (group: BatchGroup)
      requires Valid()
      modifies this
      ensures Valid() && contents == BatchModel.Open(old(contents), key, createdAt, waitMs)
      ensures fresh(group) && groups == old(groups)[key := group]
    {
      group := new BatchGroup(key, createdAt, waitMs);
      Put(key, group);
    }

    method Put(key: Text, group: BatchGroup)
      requires Valid() && group.key == key && group.entries == [] && group.timer == None
      modifies this
      ensures Valid() && contents == BatchModel.Open(old(contents), key, group.createdAt, group.waitMs)
      ensures groups == old(groups)[key := group]
    {
      ListOpened(order, groups.Keys, key);
      contents := BatchModel.Open(contents, key, group.createdAt, group.waitMs);
      order, groups := if key in groups then order else order + [key], groups[key := group];
      assert groups.Keys == old(groups.Keys) + {key};
    }

    method Append(key: Text, entry: Request)
      requires Valid() && key in groups
      modifies this`contents, groups[key]
      ensures Valid() && contents == old(contents).(groups := AppendTo(old(contents).groups, key, entry))
    {
      var group := groups[key];
      group.entries := group.entries + [entry];
      contents := contents.(groups := AppendTo(contents.groups, key, entry));
    }

    /** Opens the group when there is none, and pushes the entry. */
    method Push(key: Text, entry: Request, now: nat, ghost waitMs: nat) returns (group: BatchGroup)
      requires Valid()
      modifies this, groups.Values
      ensures Valid() && fresh(groups.Values - old(groups.Values)) && key in groups
      ensures contents == Pushed(old(contents), key, entry, now, waitMs)
      ensures group.entries == contents.groups[key].entries
    {
      if key !in groups {
        var newGroup := Open(key, now, waitMs);
      }
      Append(key, entry);
      group := groups[key];
    }

    method SetHandle(key: Text, handle: nat)
      requires Valid() && key in groups
      modifies this`contents, groups[key]
      ensures Valid()
      ensures contents
        == old(contents).(groups := old(contents).groups[key := old(contents).groups[key].(timer := Some(handle))])
    {
      var group := groups[key];
      group.timer := Some(handle);
      contents := contents.(groups := contents.groups[key := contents.groups[key].(timer := Some(handle))]);
    }

    method Delete(key: Text)
      requires Valid()
      modifies this
      ensures Valid() && contents == BatchModel.Delete(old(contents), key)
      ensures groups == old(groups) - {key}
    {
      ListDropped(order, groups.Keys, key);
      groups, order := groups - {key}, Drop(order, key);
      contents := BatchModel.Delete(contents, key);
    }

    method Pending() returns (n: nat)
      requires Valid()
      ensures n == BatchModel.Pending(contents)
    {
      ListedMeans(order, groups.Keys);
      n := 0;
      for i := 0 to |order|
        invariant n == Held(contents.groups, order[..i])
      {
        assert order[i] in Elements(order);
        assert order[..i + 1][..i] == order[..i];
        n := n + |groups[order[i]].entries|;
      }
      assert order[..|order|] == order;
    }
  }

  /** The clock and timers the coordinator is given. */
  class TimerService {
    var now: nat
    var live: map<nat, Timer>
    var next: nat

    constructor (now: nat)
      ensures this.now == now && View() == Timers(map[], 0)
    {
      this.now, live, next := now, map[], 0;
    }

    function View(): Timers
      reads this
    {
      Timers(live, next)
    }

    method SetTimer(key: Text, ms: nat) returns (handle: nat)
      modifies this
      ensures handle == old(next) && now == old(now) && View() == Arm(old(View()), key, now, ms)
    {
      handle := next;
      live := live[next := Timer(key, now, ms)];
      next := next + 1;
    }

    method ClearTimer(handle: nat)
      modifies this
      ensures now == old(now) && View() == Clear(old(View()), Some(handle))
    {
      live := live - {handle};
    }

    method Advance(ms: nat)
      modifies this
      ensures now == old(now) + ms && View() == old(View())
    {
      now := now + ms;
    }
  }

  lemma Collected(events: seq<BatchEvent>, e: BatchEvent, before: Totals, after: Totals)
    requires before == Collect(events) && after == Observe(before, e)
    ensures after == Collect(events + [e])
  {
    CollectOne(events, e);
  }

  /** Delivers every event to its one subscriber, the metrics collector. */
  class ExecutionEventBus {
    ghost var events: seq<BatchEvent>
    const metrics: BatchMetricsCollector

    constructor ()
      ensures events == [] && Valid() && fresh(metrics)
    {
      metrics := new BatchMetricsCollector();
      events := [];
    }

    ghost predicate Valid()
      reads this, metrics
    {
      metrics.Counters() == Collect(events)
    }

    method Publish(event: BatchEvent)
      requires Valid()
      modifies this, metrics
      ensures Valid() && events == old(events) + [event]
    {
      ghost var before := metrics.Counters();
      metrics.OnEvent(event);
      Collected(events, event, before, metrics.Counters());
      events := events + [event];
    }
  }

  lemma DispatchIs(s: State, key: Text, reason: DispatchReason, t: State)
    requires key in s.queue.groups && s.queue.groups[key].entries != []
    requires t.policy == s.policy && t.now == s.now && t.enqueued == s.enqueued && t.bypassed == s.bypassed
    requires t.queue == BatchModel.Delete(s.queue, key) && t.timers == Clear(s.timers, s.queue.groups[key].timer)
    requires t.events == s.events + Announcement(s.queue.groups[key], reason, s.now, s.policy.maxBatchSize)
    requires t.batches == s.batches + [Released(s, s.queue.groups[key], reason)]
    ensures t == BatchModel.Dispatch(s, key, reason)
  {
  }

  /** The state with the entry placed, but not announced. */
  ghost function PlacedIn(s: State, key: Text, r: Request): State {
    s.(queue := Pushed(s.queue, key, r, s.now, s.policy.maxWaitMs), enqueued := s.enqueued + [r])
  }

  /** What is announced of a group that has just been given the entry `r`. */
  function EntryEvents(isNew: bool, entries: seq<Request>, r: Request): seq<BatchEvent>
    requires entries != []
  {
    (if isNew then [BatchCreated(entries[0])] else []) + [BatchQueued(r, |entries|)]
  }

  lemma PlacedAndAnnounced(s: State, key: Text, r: Request)
    ensures var entries := PlacedIn(s, key, r).queue.groups[key].entries;
      && entries != []
      && PlacedIn(s, key, r).(events := s.events + EntryEvents(key !in s.queue.groups, entries, r)) == Push(s, key, r)
  {
  }

  /** Holds requests in groups and releases them as batches. */
  class BatchCoordinator {
    const store: BatchPolicyStore
    const queue: BatchQueue
    const timers: TimerService
    const bus: ExecutionEventBus

    /** The requests whose pipelines have been resumed, in order. */
    var resumed: seq<Request>

    // history
    ghost var batches: seq<Batch>
    ghost var enqueued: seq<Request>
    ghost var bypassed: nat

    constructor (policy: BatchPolicy, now: nat)
      ensures Valid() && State() == Initial(policy, now)
      ensures fresh(store) && fresh(queue) && fresh(timers) && fresh(bus) && fresh(bus.metrics)
      ensures queue.groups == map[]
    {
      store := new BatchPolicyStore(policy);
      queue := new BatchQueue();
      timers := new TimerService(now);
      bus := new ExecutionEventBus();
      resumed, batches, enqueued, bypassed := [], [], [], 0;
    }

    ghost predicate Valid()
      reads this, queue, queue.groups.Values, bus, bus.metrics
    {
      queue.Valid() && bus.Valid() && resumed == Releases(batches)
    }

    ghost function State(): State
      reads this, store, queue, timers, bus
    {
      BatchModel.State(store.policy, timers.now, queue.contents, timers.View(), bus.events, batches, enqueued, bypassed)
    }

    /** Holds the request, or lets it pass and says why. */
    method Accept(request: Request) returns (held: bool)
      requires Valid()
      modifies this, queue, queue.groups.Values, timers, bus, bus.metrics
      ensures Valid() && fresh(queue.groups.Values - old(queue.groups.Values))
      ensures State() == Resolve(old(State()), request)
      ensures held <==> Admits(old(store.policy), request)
    {
      var policy := store.policy;
      held := false;
      if policy.mode != BatchMode.Enabled {
      } else if policy.bypass {
        Bypass(request, PolicyBypass);
      } else if !BatchEligible(policy, request) {
        Bypass(request, Ineligible);
      } else {
        Hold(request);
        held := true;
      }
    }

    method Hold(request: Request)
      requires Valid() && Admits(store.policy, request)
      modifies this, queue, queue.groups.Values, timers, bus, bus.metrics
      ensures Valid() && fresh(queue.groups.Values - old(queue.groups.Values))
      ensures State() == Resolve(old(State()), request)
    {
      Enqueue(BatchKey(request), request);
    }

    method Bypass(request: Request, reason: BypassReason)
      requires Valid() && store.policy.mode == BatchMode.Enabled
      requires if reason == PolicyBypass then store.policy.bypass
        else !store.policy.bypass && !BatchEligible(store.policy, request)
      modifies this`bypassed, bus, bus.metrics
      ensures Valid() && State() == Resolve(old(State()), request)
    {
      bus.Publish(BatchBypassed(request, reason));
      bypassed := bypassed + 1;
    }

    /** Holds the request in the group of its key, which is released when that fills it. */
    method Enqueue(key: Text, request: Request)
      requires Valid()
      modifies this`resumed, this`batches, this`enqueued, queue, queue.groups.Values, timers, bus, bus.metrics
      ensures Valid() && fresh(queue.groups.Values - old(queue.groups.Values))
      ensures State() == BatchModel.Enqueue(old(State()), key, request)
    {
      var policy := store.policy;
      PushEntry(key, request);
      var size := |queue.groups[key].entries|;
      if size >= SizeBound(policy) {
        Dispatch(key, BySize);
      } else if size == 1 {
        ArmEntry(key, policy.maxWaitMs);
      }
    }

    method ArmEntry(key: Text, ms: nat)
      requires Valid() && key in queue.groups && ms == store.policy.maxWaitMs
      modifies queue`contents, queue.groups[key], timers
      ensures Valid() && State() == ArmGroup(old(State()), key)
    {
      var handle := timers.SetTimer(key, ms);
      queue.SetHandle(key, handle);
    }

    /** Places the entry and announces it. */
    method PushEntry(key: Text, request: Request)
      requires Valid()
      modifies this`enqueued, queue, queue.groups.Values, bus, bus.metrics
      ensures Valid() && fresh(queue.groups.Values - old(queue.groups.Values)) && key in queue.groups
      ensures State() == Push(old(State()), key, request)
    {
      PlacedAndAnnounced(State(), key, request);
      var isNew := key !in queue.groups;
      var group := PlaceEntry(key, request);
      AnnounceEntry(isNew, group, request);
    }

    method PlaceEntry(key: Text, request: Request) returns (group: BatchGroup)
      requires Valid()
      modifies this`enqueued, queue, queue.groups.Values
      ensures Valid() && fresh(queue.groups.Values - old(queue.groups.Values)) && key in queue.groups
      ensures State() == PlacedIn(old(State()), key, request) && group.entries == queue.contents.groups[key].entries
    {
      enqueued := enqueued + [request];
      group := queue.Push(key, request, timers.now, store.policy.maxWaitMs);
    }

    method AnnounceEntry(isNew: bool, group: BatchGroup, request: Request)
      requires Valid() && group.entries != []
      modifies bus, bus.metrics
      ensures Valid()
      ensures State()
        == old(State()).(events := old(State()).events + EntryEvents(isNew, group.entries, request))
    {
      PublishEntry(isNew, group, request);
    }

    method PublishEntry(isNew: bool, group: BatchGroup, request: Request)
      requires bus.Valid() && group.entries != []
      modifies bus, bus.metrics
      ensures bus.Valid() && bus.events == old(bus.events) + EntryEvents(isNew, group.entries, request)
    {
      if isNew {
        bus.Publish(BatchCreated(group.entries[0]));
      }
      bus.Publish(BatchQueued(request, |group.entries|));
    }

    /** Announces the batch, then resumes every request of it, in order. */
    method Dispatch(key: Text, reason: DispatchReason)
      requires Valid()
      modifies this`resumed, this`batches, queue, timers, bus, bus.metrics
      ensures Valid() && queue.groups.Values <= old(queue.groups.Values)
      ensures State() == BatchModel.Dispatch(old(State()), key, reason)
    {
      if key !in queue.groups || queue.groups[key].entries == [] {
        return;
      }
      ghost var s := State();
      var group := TakeGroup(key);
      AnnounceDispatch(group, reason);
      Release(group, Released(s, s.queue.groups[key], reason));
      DispatchIs(s, key, reason, State());
    }

    /** Clears the group's timer and removes the group from the queue. */
    method TakeGroup(key: Text) returns (group: BatchGroup)
      requires Valid() && key in queue.groups
      modifies timers, queue
      ensures Valid() && queue.groups.Values <= old(queue.groups.Values)
      ensures group.Shows(old(queue.contents).groups[key])
      ensures State() == old(State()).(queue := BatchModel.Delete(old(queue.contents), key),
                                       timers := Clear(old(timers.View()), group.timer))
    {
      group := queue.groups[key];
      if group.timer.Some? {
        timers.ClearTimer(group.timer.value);
      }
      queue.Delete(key);
    }

    method AnnounceDispatch(group: BatchGroup, reason: DispatchReason)
      requires Valid() && group.entries != []
      modifies bus, bus.metrics
      ensures Valid()
      ensures State() == old(State()).(events := old(State()).events
        + Announcement(group.View(), reason, timers.now, store.policy.maxBatchSize))
    {
      PublishDispatch(group, reason);
    }

    method PublishDispatch(group: BatchGroup, reason: DispatchReason)
      requires bus.Valid() && group.entries != []
      modifies bus, bus.metrics
      ensures bus.Valid()
      ensures bus.events == old(bus.events) + Announcement(group.View(), reason, timers.now, store.policy.maxBatchSize)
    {
      var waitMs := timers.now - group.createdAt;
      var lead, size := group.entries[0], |group.entries|;
      if reason == ByTimeout {
        bus.Publish(BatchExpired(lead, size, waitMs));
      } else {
        bus.Publish(BatchDispatched(lead, size, store.policy.maxBatchSize, waitMs));
      }
      bus.Publish(BatchCompleted(lead, size));
    }

    /** Resumes the pipelines of a batch one by one. */
    method Release(group: BatchGroup, ghost batch: Batch)
      requires Valid() && batch.entries == group.entries
      modifies this`resumed, this`batches
      ensures Valid() && State() == old(State()).(batches := old(batches) + [batch])
      ensures resumed == old(resumed) + batch.entries
    {
      var entries := group.entries;
      for i := 0 to |entries|
        invariant resumed == old(resumed) + entries[..i] && batches == old(batches)
      {
        assert entries[..i + 1] == entries[..i] + [entries[i]];
        ConcatAssociative(old(resumed), entries[..i], [entries[i]]);
        resumed := resumed + [entries[i]];
      }
      assert entries[..|entries|] == entries;
      batches := batches + [batch];
      assert batches[..|batches| - 1] == old(batches);
    }

    /** The callback of a live timer. */
    method TimerFires(id: nat)
      requires Valid() && id in timers.live
      modifies this`resumed, this`batches, queue, timers, bus, bus.metrics
      ensures Valid() && queue.groups.Values <= old(queue.groups.Values) && State() == Fire(old(State()), id)
    {
      var key := timers.live[id].key;
      timers.ClearTimer(id);
      Dispatch(key, ByTimeout);
    }

    /** Dispatches all forming batches now. */
    method Flush()
      requires Valid()
      modifies this`resumed, this`batches, queue, timers, bus, bus.metrics
      ensures Valid() && queue.groups.Values <= old(queue.groups.Values)
      ensures State() == FlushKeys(old(State()), old(State()).queue.order)
    {
      var keys := queue.order;
      for i := 0 to |keys|
        invariant Valid() && queue.groups.Values <= old(queue.groups.Values)
        invariant FlushKeys(State(), keys[i..]) == FlushKeys(old(State()), keys)
      {
        assert keys[i..][0] == keys[i] && keys[i..][1..] == keys[i + 1..];
        Dispatch(keys[i], ByTimeout);
      }
    }

    method Configure(policy: BatchPolicy)
      requires Valid()
      modifies store
      ensures Valid() && State() == old(State()).(policy := policy)
    {
      store.Configure(policy);
    }

    method Wait(ms: nat)
      requires Valid()
      modifies timers
      ensures Valid() && State() == old(State()).(now := old(State()).now + ms)
    {
      timers.Advance(ms);
    }

    /** Requests currently held. */
    method Pending() returns (n: nat)
      requires Valid()
      ensures n == BatchModel.Pending(State().queue)
    {
      n := queue.Pending();
    }
  }
}
