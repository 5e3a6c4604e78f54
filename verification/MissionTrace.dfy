/** Safety of the event trace of every run. */
module MissionTrace {
  import opened Sorting
  import opened PlanProperties
  import opened DagMeaning
  import opened MissionRun
  import opened MissionRuntime
  import opened MissionStates

  /** Task `x` is dispatched during the run. */
  ghost predicate Dispatched(r: Run, n: nat, x: Id)
    requires n <= |r.layers|
  {
    x in Placed(r.layers, n) && SettledState(r, x) in {Completed, Failed}
  }

  // ----- how often each task event occurs

  lemma {:induction false} StartedCount(s: seq<Id>, e: Event)
    ensures multiset(Started(s))[e] == if e.TaskStarted? then multiset(s)[e.id] else 0
  {
    if s != [] {
      var rest, last := s[..|s| - 1], s[|s| - 1];
      StartedCount(rest, e);
      assert s == rest + [last] && Started(s) == Started(rest) + [TaskStarted(last)];
    }
  }

  lemma {:induction false} EndedCount(r: Run, s: seq<Id>, e: Event)
    ensures multiset(Ended(r, s))[e]
      == if (e.TaskCompleted? || e.TaskFailed?) && e == EndEvent(r, e.id) then multiset(s)[e.id] else 0
  {
    if s != [] {
      var rest, last := s[..|s| - 1], s[|s| - 1];
      EndedCount(r, rest, e);
      assert s == rest + [last] && Ended(r, s) == Ended(r, rest) + [EndEvent(r, last)];
    }
  }

  /** How often event `e` must occur once the tasks of `tasks` have run. */
  ghost function Expected(r: Run, tasks: set<Id>, e: Event): nat {
    if e.TaskStarted? then
      if e.id in tasks && SettledState(r, e.id) in {Completed, Failed} then 1 else 0
    else if e.TaskCompleted? then
      if e.id in tasks && SettledState(r, e.id) == Completed then 1 else 0
    else if e.TaskFailed? then
      if e.id in tasks && SettledState(r, e.id) == Failed then 1 else 0
    else 0
  }

  lemma LayerCount(r: Run, layer: seq<Id>, e: Event)
    requires NoRepeats(layer)
    ensures multiset(LayerTrace(r, layer))[e] == Expected(r, Elements(layer), e)
  {
    var toRun := Runnable(r, layer);
    RunnableMembers(r, layer);
    StartedCount(toRun, e);
    EndedCount(r, SortBy(r.collate, toRun), e);
    SortByRearranges(r.collate, toRun);
    if e.TaskStarted? || e.TaskCompleted? || e.TaskFailed? {
      NoRepeatsMultiplicity(toRun, e.id);
      assert e.id in toRun <==> e.id in multiset(toRun);
    }
  }

  lemma ExpectedSplits(r: Run, a: set<Id>, b: set<Id>, e: Event)
    requires a !! b
    ensures Expected(r, a + b, e) == Expected(r, a, e) + Expected(r, b, e)
  {
  }

  lemma StageIsNew(r: Run, n: nat)
    requires ValidRun(r) && n < |r.layers|
    ensures NoRepeats(r.layers[n]) && Placed(r.layers, n) !! Elements(r.layers[n])
  {
    assert StageAt(r.g, r.layers, n);
  }

  /** Over the whole loop every dispatched task starts once and ends once, the way it
      settles, and no other task event is published. */
  lemma {:induction false} TraceCount(r: Run, n: nat, e: Event)
    requires ValidRun(r) && n <= |r.layers|
    ensures multiset(Trace(r, n))[e] == Expected(r, Placed(r.layers, n), e)
  {
    if n > 0 {
      StageIsNew(r, n - 1);
      TraceCount(r, n - 1, e);
      LayerCount(r, r.layers[n - 1], e);
      ExpectedSplits(r, Placed(r.layers, n - 1), Elements(r.layers[n - 1]), e);
    }
  }

  lemma CountedOccurs(t: seq<Event>, e: Event)
    ensures e in t <==> multiset(t)[e] > 0
  {
    assert e in t <==> e in multiset(t);
  }

  // ----- what surrounds a start event

  /** The start at position `i` comes after the completion of every dependency and before
      the end of its own task. */
  ghost predicate StartInOrder(r: Run, t: seq<Event>, i: nat) {
    i < |t| && (t[i].TaskStarted? ==>
      var x := t[i].id;
      && x in r.g && x !in r.gated
      && (forall d :: d in r.g[x] ==> TaskCompleted(d) in t[..i])
      && EndEvent(r, x) in t[i + 1..])
  }

  /** Publishing more events around a trace keeps its starts in order. */
  lemma StartKept(r: Run, a: seq<Event>, t: seq<Event>, c: seq<Event>, i: nat)
    requires i < |t| && StartInOrder(r, t, i)
    ensures StartInOrder(r, a + t + c, |a| + i)
  {
    var u, j := a + t + c, |a| + i;
    assert u[j] == t[i];
    assert u[..j] == a + t[..i] && u[j + 1..] == t[i + 1..] + c;
  }

  lemma StartInLayer(r: Run, layer: seq<Id>, i: nat, x: Id)
    requires i < |LayerTrace(r, layer)| && LayerTrace(r, layer)[i] == TaskStarted(x)
    ensures x in layer && SettledState(r, x) in {Completed, Failed}
    ensures EndEvent(r, x) in LayerTrace(r, layer)[i + 1..]
  {
    var toRun := Runnable(r, layer);
    var ids := SortBy(r.collate, toRun);
    RunnableMembers(r, layer);
    SortByFacts(r.collate, toRun);
    assert i < |toRun| && x == toRun[i];
    assert x in toRun && x in ids;
    EndedIn(r, Started(toRun), ids, x, i);
  }

  lemma EndedIn(r: Run, starts: seq<Event>, ids: seq<Id>, x: Id, i: nat)
    requires i < |starts| && x in ids
    ensures EndEvent(r, x) in (starts + Ended(r, ids))[i + 1..]
  {
    var j :| 0 <= j < |ids| && ids[j] == x;
    var t := starts + Ended(r, ids);
    assert t[|starts| + j] == Ended(r, ids)[j] == EndEvent(r, x);
    assert t[i + 1..][|starts| + j - i - 1] == EndEvent(r, x);
  }

  /** The dependencies of every task that `layer` dispatches are completed in `before`. */
  ghost predicate Prepared(r: Run, layer: seq<Id>, before: seq<Event>) {
    forall x :: x in layer && SettledState(r, x) in {Completed, Failed} ==>
      x in r.g && x !in r.gated && forall d :: d in r.g[x] ==> TaskCompleted(d) in before
  }

  /** Every start in `after` is for a task `layer` dispatches, and its end comes later. */
  ghost predicate EndsFollow(r: Run, layer: seq<Id>, after: seq<Event>) {
    forall j: nat, x :: j < |after| && after[j] == TaskStarted(x) ==>
      x in layer && SettledState(r, x) in {Completed, Failed} && EndEvent(r, x) in after[j + 1..]
  }

  lemma LayerEndsFollow(r: Run, layer: seq<Id>)
    ensures EndsFollow(r, layer, LayerTrace(r, layer))
  {
    forall j: nat, x | j < |LayerTrace(r, layer)| && LayerTrace(r, layer)[j] == TaskStarted(x)
      ensures x in layer && SettledState(r, x) in {Completed, Failed} && EndEvent(r, x) in LayerTrace(r, layer)[j + 1..]
    {
      StartInLayer(r, layer, j, x);
    }
  }

  lemma LayerPrepared(r: Run, stop: nat, n: nat)
    requires ValidRun(r) && StopsAt(r, stop) && n < stop
    ensures Prepared(r, r.layers[n], Trace(r, n))
  {
    forall x | x in r.layers[n] && SettledState(r, x) in {Completed, Failed}
      ensures x in r.g && x !in r.gated && forall d :: d in r.g[x] ==> TaskCompleted(d) in Trace(r, n)
    {
      assert StageAt(r.g, r.layers, n);
      MeaningIsVerdict(r, x);
      forall d | d in r.g[x] ensures TaskCompleted(d) in Trace(r, n) {
        DependenciesCompleted(r, stop, n, x, d);
        TraceCount(r, n, TaskCompleted(d));
        CountedOccurs(Trace(r, n), TaskCompleted(d));
      }
    }
  }

  lemma StartAppended(r: Run, layer: seq<Id>, before: seq<Event>, after: seq<Event>, j: nat)
    requires Prepared(r, layer, before) && EndsFollow(r, layer, after) && j < |after|
    ensures StartInOrder(r, before + after, |before| + j)
  {
    var t, i := before + after, |before| + j;
    assert t[i] == after[j];
    assert t[..i] == before + after[..j] && t[i + 1..] == after[j + 1..];
  }

  ghost predicate AllStartsInOrder(r: Run, t: seq<Event>) {
    forall i: nat :: i < |t| ==> StartInOrder(r, t, i)
  }

  lemma StartsJoined(r: Run, layer: seq<Id>, before: seq<Event>, after: seq<Event>)
    requires AllStartsInOrder(r, before) && Prepared(r, layer, before) && EndsFollow(r, layer, after)
    ensures AllStartsInOrder(r, before + after)
  {
    forall i: nat | i < |before + after| ensures StartInOrder(r, before + after, i) {
      if i < |before| {
        StartKept(r, [], before, after, i);
        assert [] + before + after == before + after;
      } else {
        StartAppended(r, layer, before, after, i - |before|);
      }
    }
  }

  lemma StartsInNextLayer(r: Run, stop: nat, n: nat)
    requires ValidRun(r) && StopsAt(r, stop) && n < stop && AllStartsInOrder(r, Trace(r, n))
    ensures AllStartsInOrder(r, Trace(r, n + 1))
  {
    LayerPrepared(r, stop, n);
    LayerEndsFollow(r, r.layers[n]);
    StartsJoined(r, r.layers[n], Trace(r, n), LayerTrace(r, r.layers[n]));
  }

  lemma {:induction false} StartsInOrder(r: Run, stop: nat, n: nat)
    requires ValidRun(r) && StopsAt(r, stop) && n <= stop
    ensures AllStartsInOrder(r, Trace(r, n))
  {
    if n > 0 {
      StartsInOrder(r, stop, n - 1);
      StartsInNextLayer(r, stop, n - 1);
    }
  }

  // ----- the whole trace

  ghost predicate IsClosing(e: Event) {
    e.MissionPaused? || e.MissionFailed? || e.MissionCancelled? || e.MissionCompleted?
  }

  lemma LoopEventsAreTaskEvents(r: Run, n: nat, i: nat)
    requires ValidRun(r) && n <= |r.layers| && i < |Trace(r, n)|
    ensures !IsClosing(Trace(r, n)[i]) && !Trace(r, n)[i].MissionStarted?
  {
    var e := Trace(r, n)[i];
    TraceCount(r, n, e);
    CountedOccurs(Trace(r, n), e);
  }

  lemma FramedEvent(r: Run, first: Event, inner: seq<Event>, last: Event, i: nat)
    requires first.MissionStarted? && IsClosing(last) && i < |inner| + 2
    requires forall j :: 0 <= j < |inner| ==> !IsClosing(inner[j]) && !inner[j].MissionStarted?
    requires AllStartsInOrder(r, inner)
    ensures var t := [first] + inner + [last];
      && (t[i].MissionStarted? <==> i == 0)
      && (IsClosing(t[i]) <==> i == |t| - 1)
      && StartInOrder(r, t, i)
  {
    var t := [first] + inner + [last];
    if 0 < i <= |inner| {
      assert t[i] == inner[i - 1] && StartInOrder(r, inner, i - 1);
      StartKept(r, [first], inner, [last], i - 1);
    }
  }

  /** In the trace of every run: the first event and only the first says the mission
      started, the last and only the last is a closing event; every task start follows the
      completion of all the task's dependencies and precedes the task's own end, and is
      never for a task whose approval is missing. */
  lemma TraceSafety(r: Run, tasks: nat, i: nat)
    requires ValidRun(r) && i < |RunTrace(r, tasks)|
    ensures RunTrace(r, tasks)[i].MissionStarted? <==> i == 0
    ensures IsClosing(RunTrace(r, tasks)[i]) <==> i == |RunTrace(r, tasks)| - 1
    ensures StartInOrder(r, RunTrace(r, tasks), i)
  {
    var inner := Trace(r, LayersRun(r));
    LoopStops(r);
    StartsInOrder(r, LayersRun(r), LayersRun(r));
    forall j: nat | j < |inner| ensures !IsClosing(inner[j]) && !inner[j].MissionStarted? {
      LoopEventsAreTaskEvents(r, LayersRun(r), j);
    }
    FramedEvent(r, MissionStarted(tasks, |r.layers|), inner, ClosingEvent(r), i);
  }

  lemma RunTraceCount(r: Run, tasks: nat, e: Event)
    requires ValidRun(r) && !e.MissionStarted? && !IsClosing(e)
    ensures multiset(RunTrace(r, tasks))[e] == Expected(r, Placed(r.layers, LayersRun(r)), e)
  {
    TraceCount(r, LayersRun(r), e);
  }

  /** Every dispatched task starts exactly once and ends exactly once, completed or failed
      as its record says, and nothing else starts or ends. */
  lemma TaskEventsExact(r: Run, tasks: nat, x: Id)
    requires ValidRun(r)
    ensures multiset(RunTrace(r, tasks))[TaskStarted(x)] == if FinalProgress(r, x).state in {Completed, Failed} then 1 else 0
    ensures multiset(RunTrace(r, tasks))[TaskCompleted(x)] == if FinalProgress(r, x).state == Completed then 1 else 0
    ensures multiset(RunTrace(r, tasks))[TaskFailed(x)] == if FinalProgress(r, x).state == Failed then 1 else 0
    ensures Dispatched(r, LayersRun(r), x) <==> FinalProgress(r, x).state in {Completed, Failed}
  {
    RunTraceCount(r, tasks, TaskStarted(x));
    RunTraceCount(r, tasks, TaskCompleted(x));
    RunTraceCount(r, tasks, TaskFailed(x));
  }
}
