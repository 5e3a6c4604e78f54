/** The batch scheduler as a step system: requests are submitted, timers fire, the
    scheduler is flushed, the policy is replaced, and time passes. */
module BatchModel {
  import opened Wrappers
  import opened JoinedText
  import opened BatchTypes

  datatype DispatchReason = BySize | ByTimeout

  datatype BypassReason = PolicyBypass | Ineligible

  /** What the scheduler publishes; `lead` is the request whose context the event carries. */
  datatype BatchEvent =
    | BatchCreated(lead: Request)
    | BatchQueued(lead: Request, position: nat)
    | BatchDispatched(lead: Request, batchSize: nat, capacity: int, waitMs: int)
    | BatchExpired(lead: Request, batchSize: nat, waitMs: int)
    | BatchCompleted(lead: Request, batchSize: nat)
    | BatchBypassed(lead: Request, reason: BypassReason)

  /** A forming batch. `waitMs` is history: the policy's wait when the group was opened. */
  datatype Group = Group(key: Text, entries: seq<Request>, createdAt: nat, timer: Option<nat>, waitMs: nat)

  /** The open groups, and the order in which they were opened. */
  datatype Queue = Queue(groups: map<Text, Group>, order: seq<Text>)

  /** A live timer: when it fires it dispatches `key`. */
  datatype Timer = Timer(key: Text, armedAt: nat, ms: nat)

  datatype Timers = Timers(live: map<nat, Timer>, next: nat)

  /** One released batch, as history records it. */
  datatype Batch = Batch(key: Text, entries: seq<Request>, reason: DispatchReason, createdAt: nat, releasedAt: nat, waitMs: nat)

  /** The scheduler's state, with what it has published and released so far, and the
      requests it has held and bypassed. */
  datatype State = State(
    policy: BatchPolicy,
    now: nat,
    queue: Queue,
    timers: Timers,
    events: seq<BatchEvent>,
    batches: seq<Batch>,
    enqueued: seq<Request>,
    bypassed: nat)

  datatype Step =
    | Submit(request: Request)
    | TimerFires(id: nat)
    | Flush
    | Configure(policy: BatchPolicy)
    | Tick(ms: nat)

  function Initial(p: BatchPolicy, now: nat): State {
    State(p, now, Queue(map[], []), Timers(map[], 0), [], [], [], 0)
  }

  // ----- queue operations

  function Open(q: Queue, key: Text, now: nat, waitMs: nat): Queue {
    Queue(q.groups[key := Group(key, [], now, None, waitMs)], if key in q.groups then q.order else q.order + [key])
  }

  function AppendTo(groups: map<Text, Group>, key: Text, r: Request): map<Text, Group>
    requires key in groups
  {
    groups[key := groups[key].(entries := groups[key].entries + [r])]
  }

  function Drop(order: seq<Text>, key: Text): seq<Text> {
    if order == [] then []
    else if order[0] == key then Drop(order[1..], key)
    else [order[0]] + Drop(order[1..], key)
  }

  function Delete(q: Queue, key: Text): Queue {
    Queue(q.groups - {key}, Drop(q.order, key))
  }

  /** Requests held in the groups that `order` lists. */
  function Held(groups: map<Text, Group>, order: seq<Text>): nat {
    if order == [] then 0
    else
      var key := order[|order| - 1];
      Held(groups, order[..|order| - 1]) + if key in groups then |groups[key].entries| else 0
  }

  function Pending(q: Queue): nat {
    Held(q.groups, q.order)
  }

  // ----- timers

  function Clear(t: Timers, handle: Option<nat>): Timers {
    if handle.Some? then Timers(t.live - {handle.value}, t.next) else t
  }

  function Arm(t: Timers, key: Text, now: nat, ms: nat): Timers {
    Timers(t.live[t.next := Timer(key, now, ms)], t.next + 1)
  }

  // ----- the coordinator

  /** What dispatching announces before it releases anything. */
  function Announcement(g: Group, reason: DispatchReason, now: nat, capacity: int): seq<BatchEvent>
    requires g.entries != []
  {
    var lead, size, waitMs := g.entries[0], |g.entries|, now - g.createdAt;
    [if reason == ByTimeout then BatchExpired(lead, size, waitMs)
     else BatchDispatched(lead, size, capacity, waitMs),
     BatchCompleted(lead, size)]
  }

  function Released(s: State, g: Group, reason: DispatchReason): Batch {
    Batch(g.key, g.entries, reason, g.createdAt, s.now, g.waitMs)
  }

  function Dispatch(s: State, key: Text, reason: DispatchReason): State {
    if key !in s.queue.groups || s.queue.groups[key].entries == [] then s
    else
      var g := s.queue.groups[key];
      s.(timers := Clear(s.timers, g.timer),
         queue := Delete(s.queue, key),
         events := s.events + Announcement(g, reason, s.now, s.policy.maxBatchSize),
         batches := s.batches + [Released(s, g, reason)])
  }

  /** The group of `key` with the new entry pushed, opened first when there is none. */
  function Pushed(q: Queue, key: Text, r: Request, now: nat, waitMs: nat): Queue {
    var next := if key in q.groups then q else Open(q, key, now, waitMs);
    next.(groups := AppendTo(next.groups, key, r))
  }

  /** What queueing `r` announces: a new group, if it opens one, and its position. */
  function QueueEvents(q: Queue, key: Text, r: Request): seq<BatchEvent> {
    if key in q.groups then [BatchQueued(r, |q.groups[key].entries| + 1)]
    else [BatchCreated(r), BatchQueued(r, 1)]
  }

  function Push(s: State, key: Text, r: Request): State {
    s.(queue := Pushed(s.queue, key, r, s.now, s.policy.maxWaitMs),
       events := s.events + QueueEvents(s.queue, key, r),
       enqueued := s.enqueued + [r])
  }

  function ArmGroup(s: State, key: Text): State
    requires key in s.queue.groups
  {
    s.(queue := s.queue.(groups := s.queue.groups[key := s.queue.groups[key].(timer := Some(s.timers.next))]),
       timers := Arm(s.timers, key, s.now, s.policy.maxWaitMs))
  }

  function Enqueue(s: State, key: Text, r: Request): State {
    var s1 := Push(s, key, r);
    var size := |s1.queue.groups[key].entries|;
    if size >= SizeBound(s.policy) then Dispatch(s1, key, BySize)
    else if size == 1 then ArmGroup(s1, key)
    else s1
  }

  // ----- the scheduler

  /** The policy holds `r` back for batching: it is enabled and does not bypass, and lists the
      request's workload type, provider and model wherever it lists any. */
  ghost predicate Admits(p: BatchPolicy, r: Request) {
    && p.mode == BatchMode.Enabled && !p.bypass
    && (p.supportedWorkloads == [] || r.workloadType in p.supportedWorkloads)
    && (p.supportedProviders == [] || r.provider in p.supportedProviders)
    && (p.supportedModels == [] || r.model in p.supportedModels)
  }

  /** A request is held, or passes through at once. */
  function Resolve(s: State, r: Request): State {
    if s.policy.mode != Enabled then s
    else if s.policy.bypass then
      s.(events := s.events + [BatchBypassed(r, PolicyBypass)], bypassed := s.bypassed + 1)
    else if !BatchEligible(s.policy, r) then
      s.(events := s.events + [BatchBypassed(r, Ineligible)], bypassed := s.bypassed + 1)
    else Enqueue(s, BatchKey(r), r)
  }

  function Fire(s: State, id: nat): State
    requires id in s.timers.live
  {
    var key := s.timers.live[id].key;
    Dispatch(s.(timers := Clear(s.timers, Some(id))), key, ByTimeout)
  }

  function FlushKeys(s: State, keys: seq<Text>): State
    decreases |keys|
  {
    if keys == [] then s else FlushKeys(Dispatch(s, keys[0], ByTimeout), keys[1..])
  }

  // ----- steps and runs

  /** Only a live timer can fire. When it does is up to the environment. */
  ghost predicate Allowed(s: State, step: Step) {
    step.TimerFires? ==> step.id in s.timers.live
  }

  ghost function Next(s: State, step: Step): State
    requires Allowed(s, step)
  {
    match step
    case Submit(r) => Resolve(s, r)
    case TimerFires(id) => Fire(s, id)
    case Flush => FlushKeys(s, s.queue.order)
    case Configure(p) => s.(policy := p)
    case Tick(ms) => s.(now := s.now + ms)
  }

  ghost predicate AllowedRun(s: State, steps: seq<Step>)
    decreases |steps|
  {
    steps == [] || (Allowed(s, steps[0]) && AllowedRun(Next(s, steps[0]), steps[1..]))
  }

  /** The state after a whole run. */
  ghost function Run(s: State, steps: seq<Step>): State
    requires AllowedRun(s, steps)
    decreases |steps|
  {
    if steps == [] then s else Run(Next(s, steps[0]), steps[1..])
  }
}
