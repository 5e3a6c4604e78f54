/** In which order the events of a report come. */
module MissionOrder {
  import opened Sorting
  import opened MissionTypes
  import opened ExecutionPlanner
  import opened PlanProperties
  import opened MissionRun
  import opened MissionRuntime
  import opened MissionTrace
  import opened MissionGuarantees
  import opened MissionOutcomes

  ghost predicate IsEnd(e: Event) {
    e.TaskCompleted? || e.TaskFailed?
  }

  ghost predicate IsTaskEvent(e: Event) {
    e.TaskStarted? || IsEnd(e)
  }

  /** Within one layer: starts before ends, starts in the planner's order, ends in the order
      of the comparator, and in the planner's order where it does not tell them apart. */
  ghost predicate InLayerOrder(leq: (Id, Id) -> bool, e: Event, f: Event)
    requires IsTaskEvent(e) && IsTaskEvent(f)
  {
    if e.TaskStarted? then f.TaskStarted? ==> NotAfter(e.id, f.id)
    else IsEnd(f) && leq(e.id, f.id) && (leq(f.id, e.id) ==> NotAfter(e.id, f.id))
  }

  /** `e` is about a task of an earlier layer than `f`, or about one of the same layer and
      rightly before `f`. */
  ghost predicate RightlyBefore(layers: seq<seq<Id>>, leq: (Id, Id) -> bool, e: Event, f: Event)
    requires IsTaskEvent(e) && IsTaskEvent(f)
  {
    exists j, k {:trigger layers[j], layers[k]} :: 0 <= j <= k < |layers| && e.id in layers[j] && f.id in layers[k]
      && (j == k ==> InLayerOrder(leq, e, f))
  }

  /** Any two task events are in the right order. */
  ghost predicate RightlyOrdered(layers: seq<seq<Id>>, leq: (Id, Id) -> bool, t: seq<Event>) {
    forall i, j :: 0 <= i < j < |t| && IsTaskEvent(t[i]) && IsTaskEvent(t[j]) ==> RightlyBefore(layers, leq, t[i], t[j])
  }

  lemma {:induction false} RunnableSorted(r: Run, s: seq<Id>)
    requires Sorted(NotAfter, s)
    ensures Sorted(NotAfter, Runnable(r, s))
  {
    if s != [] {
      var rest, last := s[..|s| - 1], s[|s| - 1];
      RunnableSorted(r, rest);
      RunnableMembers(r, rest);
      var toRun := Runnable(r, rest);
      forall i | 0 <= i < |toRun| ensures NotAfter(toRun[i], last) {
        assert toRun[i] in toRun && toRun[i] in rest;
      }
    }
  }

  lemma ComesBeforeSorted(s: seq<Id>, x: Id, y: Id)
    requires Sorted(NotAfter, s) && ComesBefore(s, x, y)
    ensures NotAfter(x, y)
  {
  }

  /** Task events of layer `k`, in the right order. */
  ghost predicate LayerRight(layers: seq<seq<Id>>, k: nat, leq: (Id, Id) -> bool, t: seq<Event>)
    requires k < |layers|
  {
    && (forall i :: 0 <= i < |t| ==> IsTaskEvent(t[i]) && t[i].id in layers[k])
    && forall i, j :: 0 <= i < j < |t| ==> InLayerOrder(leq, t[i], t[j])
  }

  lemma LayerOrdered(r: Run, k: nat)
    requires k < |r.layers| && Sorted(NotAfter, r.layers[k]) && Consistent(r.collate)
    ensures LayerRight(r.layers, k, r.collate, LayerTrace(r, r.layers[k]))
  {
    var layer := r.layers[k];
    var toRun := Runnable(r, layer);
    RunnableSorted(r, layer);
    RunnableMembers(r, layer);
    forall i | 0 <= i < |toRun| ensures toRun[i] in layer {
      assert toRun[i] in toRun;
    }
    EndsSorted(r.collate, toRun);
    StartsThenEnds(r, k, toRun, SortBy(r.collate, toRun));
  }

  /** Sorted by the comparator, and by the planner where it does not tell ids apart. */
  ghost predicate EndsRight(leq: (Id, Id) -> bool, ids: seq<Id>) {
    forall i, j :: 0 <= i < j < |ids| ==> leq(ids[i], ids[j]) && (leq(ids[j], ids[i]) ==> NotAfter(ids[i], ids[j]))
  }

  /** The order of the ends of the tasks that have been started in the order of `toRun`. */
  lemma EndsSorted(leq: (Id, Id) -> bool, toRun: seq<Id>)
    requires Sorted(NotAfter, toRun) && Consistent(leq)
    ensures EndsRight(leq, SortBy(leq, toRun))
    ensures forall i :: 0 <= i < |SortBy(leq, toRun)| ==> SortBy(leq, toRun)[i] in toRun
  {
    var ids := SortBy(leq, toRun);
    SortByFacts(leq, toRun);
    SortByStable(leq, toRun);
    forall i | 0 <= i < |ids| ensures ids[i] in toRun {
      assert ids[i] in ids;
    }
    forall i, j | 0 <= i < j < |ids| && leq(ids[j], ids[i]) ensures NotAfter(ids[i], ids[j]) {
      ComesBeforeSorted(toRun, ids[i], ids[j]);
    }
  }

  lemma StartsThenEnds(r: Run, k: nat, toRun: seq<Id>, ids: seq<Id>)
    requires k < |r.layers| && Sorted(NotAfter, toRun) && EndsRight(r.collate, ids)
    requires forall i :: 0 <= i < |toRun| ==> toRun[i] in r.layers[k]
    requires forall i :: 0 <= i < |ids| ==> ids[i] in toRun
    ensures LayerRight(r.layers, k, r.collate, Started(toRun) + Ended(r, ids))
  {
    var t := Started(toRun) + Ended(r, ids);
    forall i | 0 <= i < |t| ensures IsTaskEvent(t[i]) && t[i].id in r.layers[k] {
      if i >= |toRun| {
        assert t[i].id == ids[i - |toRun|];
      }
    }
  }

  ghost predicate AllSorted(layers: seq<seq<Id>>) {
    forall k :: 0 <= k < |layers| ==> Sorted(NotAfter, layers[k])
  }

  /** The event is about a task of one of the first `n` layers. */
  ghost predicate Within(layers: seq<seq<Id>>, n: nat, e: Event) {
    IsTaskEvent(e) && exists k :: 0 <= k < n && k < |layers| && e.id in layers[k]
  }

  ghost predicate AllWithin(layers: seq<seq<Id>>, n: nat, t: seq<Event>) {
    forall i :: 0 <= i < |t| ==> Within(layers, n, t[i])
  }

  lemma OrderedJoined(layers: seq<seq<Id>>, leq: (Id, Id) -> bool, n: nat, before: seq<Event>, after: seq<Event>)
    requires n < |layers| && AllWithin(layers, n, before) && RightlyOrdered(layers, leq, before)
    requires LayerRight(layers, n, leq, after)
    ensures AllWithin(layers, n + 1, before + after) && RightlyOrdered(layers, leq, before + after)
  {
    var t := before + after;
    forall i | 0 <= i < |t| ensures Within(layers, n + 1, t[i]) {
      if i < |before| {
        assert Within(layers, n, before[i]);
        var k :| 0 <= k < n && t[i].id in layers[k];
      } else {
        assert t[i] == after[i - |before|] && t[i].id in layers[n];
      }
    }
    forall i, j | 0 <= i < j < |t| && IsTaskEvent(t[i]) && IsTaskEvent(t[j])
      ensures RightlyBefore(layers, leq, t[i], t[j])
    {
      if j >= |before| {
        assert t[j] == after[j - |before|] && t[j].id in layers[n];
        if i < |before| {
          assert Within(layers, n, before[i]);
          var k :| 0 <= k < n && t[i].id in layers[k];
          assert 0 <= k <= n < |layers| && k != n;
        } else {
          assert t[i] == after[i - |before|] && t[i].id in layers[n];
        }
      } else {
        assert t[i] == before[i] && t[j] == before[j];
      }
    }
  }

  lemma {:induction false} TraceOrdered(r: Run, n: nat)
    requires n <= |r.layers| && AllSorted(r.layers) && Consistent(r.collate)
    ensures AllWithin(r.layers, n, Trace(r, n)) && RightlyOrdered(r.layers, r.collate, Trace(r, n))
  {
    if n > 0 {
      TraceOrdered(r, n - 1);
      var before, after := Trace(r, n - 1), LayerTrace(r, r.layers[n - 1]);
      assert LayerRight(r.layers, n - 1, r.collate, after) by {
        LayerOrdered(r, n - 1);
      }
      OrderedJoined(r.layers, r.collate, n - 1, before, after);
    }
  }

  lemma FramedOrdered(layers: seq<seq<Id>>, leq: (Id, Id) -> bool, first: Event, inner: seq<Event>, last: Event)
    requires RightlyOrdered(layers, leq, inner) && !IsTaskEvent(first) && !IsTaskEvent(last)
    ensures RightlyOrdered(layers, leq, [first] + inner + [last])
  {
    var t := [first] + inner + [last];
    forall i, j | 0 <= i < j < |t| && IsTaskEvent(t[i]) && IsTaskEvent(t[j])
      ensures RightlyBefore(layers, leq, t[i], t[j])
    {
      assert t[i] == inner[i - 1] && t[j] == inner[j - 1];
    }
  }

  /** In every report, for every consistent comparator: the events of an earlier layer come
      before those of a later one; within a layer all starts come before all ends, starts in
      the order of the plan, and ends in the order of the comparator. */
  lemma ReportOrder(m: MissionDefinition, blocked: bool, o: Options)
    requires Consistent(o.collate)
    ensures RightlyOrdered(Layers(m), o.collate, ReportFor(m, blocked, o).events)
  {
    ReportShows(m, blocked, o);
    if Runs(m, blocked) {
      RunOrdered(m, RunFor(m, o), |m.tasks|);
    }
  }

  lemma RunOrdered(m: MissionDefinition, r: Run, tasks: nat)
    requires ValidRun(r) && AreLayers(GraphOf(m), r.layers) && Consistent(r.collate)
    ensures RightlyOrdered(r.layers, r.collate, RunTrace(r, tasks))
  {
    forall k | 0 <= k < |r.layers| ensures Sorted(NotAfter, r.layers[k]) {
      assert IsLayer(GraphOf(m), r.layers[k], k);
    }
    LayersRunStops(r, 0);
    TraceOrdered(r, LayersRun(r));
    FramedOrdered(r.layers, r.collate, MissionStarted(tasks, |r.layers|), Trace(r, LayersRun(r)), ClosingEvent(r));
  }

  /** In every report, all events but the first and the last are about tasks of the plan. */
  lemma OnlyTaskEvents(m: MissionDefinition, blocked: bool, o: Options, i: nat)
    requires 0 < i < |ReportFor(m, blocked, o).events| - 1
    ensures Within(Layers(m), |Layers(m)|, ReportFor(m, blocked, o).events[i])
  {
    ReportShows(m, blocked, o);
    RunEvent(RunFor(m, o), |m.tasks|, i);
  }

  lemma RunEvent(r: Run, tasks: nat, i: nat)
    requires ValidRun(r) && 0 < i < |RunTrace(r, tasks)| - 1
    ensures Within(r.layers, |r.layers|, RunTrace(r, tasks)[i])
  {
    LayersRunStops(r, 0);
    var n, e := LayersRun(r), RunTrace(r, tasks)[i];
    assert e == Trace(r, n)[i - 1];
    CountedOccurs(Trace(r, n), e);
    TraceCount(r, n, e);
    PlacedMembers(r.layers, n, e.id);
  }
}
