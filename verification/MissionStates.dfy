/** What the final task and mission states of every run mean. */
module MissionStates {
  import opened Sorting
  import opened DependencyGraph
  import opened PlanProperties
  import opened DagMeaning
  import opened MissionRun
  import opened MissionRuntime

  // ----- facts about one run

  lemma MeaningIsVerdict(r: Run, x: Id)
    requires ValidRun(r) && x in r.g
    ensures Terminal(r.meaning[x])
    ensures SettledState(r, x) == if r.meaning[x] != Skipped && x in r.gated then Waiting else r.meaning[x]
  {
    assert MeaningHolds(r, x);
  }

  lemma PlacedInGraph(r: Run, n: nat, x: Id)
    requires ValidRun(r) && n <= |r.layers| && x in Placed(r.layers, n)
    ensures x in r.g
  {
    PlacedMembers(r.layers, n, x);
    PlacedMembers(r.layers, |r.layers|, x);
  }

  lemma LoopStops(r: Run)
    requires ValidRun(r)
    ensures StopsAt(r, LayersRun(r))
  {
    LayersRunStops(r, 0);
  }

  /** Only tasks of the last processed layer can be waiting. */
  lemma WaitingIsInLastLayer(r: Run, x: Id)
    requires ValidRun(r) && x in Placed(r.layers, LayersRun(r)) && SettledState(r, x) == Waiting
    ensures PausedAfter(r, LayersRun(r)) && x in ApprovalsAsked(r)
  {
    LoopStops(r);
    var n := LayersRun(r);
    PlacedMembers(r.layers, n, x);
    var k :| 0 <= k < n && x in r.layers[k];
    HeldMembers(r, r.layers[k], x);
    assert k == n - 1;
  }

  /** The dependencies of a task that is not skipped are completed earlier in the run. */
  lemma DependenciesCompleted(r: Run, stop: nat, n: nat, x: Id, d: Id)
    requires ValidRun(r) && StopsAt(r, stop) && n < stop && x in r.layers[n]
    requires SettledState(r, x) != Skipped && x in r.g && d in r.g[x]
    ensures d in r.g && d in Placed(r.layers, n) && SettledState(r, d) == Completed
  {
    assert StageAt(r.g, r.layers, n);
    PlacedInGraph(r, n, d);
    MeaningIsVerdict(r, x);
    MeaningIsVerdict(r, d);
    assert MeaningHolds(r, x);
    PlacedMembers(r.layers, n, d);
    var k :| 0 <= k < n && d in r.layers[k];
    HeldMembers(r, r.layers[k], d);
  }

  lemma {:induction false} PlacedGrows(layers: seq<seq<Id>>, j: nat, n: nat)
    requires j <= n <= |layers|
    ensures Placed(layers, j) <= Placed(layers, n)
    decreases n - j
  {
    if j < n {
      PlacedGrows(layers, j, n - 1);
    }
  }

  // ----- what reports contain

  /** No report contains a ready or running task. */
  lemma NeverReadyOrRunning(r: Run, x: Id)
    requires ValidRun(r) && x in r.g
    ensures FinalProgress(r, x).state !in {Ready, Running}
    ensures FinalState(r) != RunCancelled ==> FinalProgress(r, x).state != Cancelled
  {
    MeaningIsVerdict(r, x);
  }

  /** Whatever was approved and cancelled: a task that ended completed, failed or skipped
      ended in its recursive meaning on the dependency graph. */
  lemma TerminalIsMeaning(r: Run, x: Id)
    requires ValidRun(r) && Acyclic(r.g) && x in r.g && Terminal(FinalProgress(r, x).state)
    ensures FinalProgress(r, x).state == Meaning(r.g, r.ok, x) == Verdict(FailureBelow(r.g, r.ok, x), x in r.ok)
  {
    LoopStops(r);
    MeaningIsVerdict(r, x);
    MeaningIsDagMeaning(r, x);
    MeaningByReachability(r.g, r.ok, x);
  }

  /** When no poll says cancelled and every needed approval is given, every task of every
      mission ends in its recursive meaning on the dependency graph. */
  lemma GrantedRunIsMeaning(r: Run, x: Id)
    requires ValidRun(r) && Acyclic(r.g) && x in r.g
    requires r.gated == {} && forall k :: !r.cancelled(k)
    ensures FinalProgress(r, x).state == Meaning(r.g, r.ok, x)
    ensures FinalProgress(r, x).state == Verdict(FailureBelow(r.g, r.ok, x), x in r.ok)
    ensures FinalState(r) == if r.g.Keys <= r.ok then RunCompleted else RunFailed
  {
    UngatedTask(r, x);
    GrantedFinalState(r);
  }

  lemma UngatedTask(r: Run, x: Id)
    requires ValidRun(r) && Acyclic(r.g) && x in r.g
    requires r.gated == {} && forall k :: !r.cancelled(k)
    ensures FinalProgress(r, x).state == Meaning(r.g, r.ok, x) == Verdict(FailureBelow(r.g, r.ok, x), x in r.ok)
  {
    UngatedRunsAll(r);
    assert x in Placed(r.layers, |r.layers|);
    MeaningIsVerdict(r, x);
    TerminalIsMeaning(r, x);
  }

  lemma UngatedRunsAll(r: Run)
    requires ValidRun(r) && r.gated == {} && forall k :: !r.cancelled(k)
    ensures LayersRun(r) == |r.layers| && !PausedAfter(r, |r.layers|)
  {
    LoopStops(r);
    var n := LayersRun(r);
    if PausedAfter(r, n) {
      var x := Held(r, r.layers[n - 1])[0];
      HeldMembers(r, r.layers[n - 1], x);
      assert StageAt(r.g, r.layers, n - 1);
      MeaningIsVerdict(r, x);
    }
  }

  lemma GrantedFinalState(r: Run)
    requires ValidRun(r) && Acyclic(r.g) && r.gated == {} && forall k :: !r.cancelled(k)
    ensures FinalState(r) == if r.g.Keys <= r.ok then RunCompleted else RunFailed
  {
    UngatedRunsAll(r);
    if r.g.Keys <= r.ok {
      forall x | x in r.g ensures FinalProgress(r, x).state != Failed {
        UngatedTask(r, x);
      }
    } else {
      var x := SomeFailed(r.g, r.ok);
      UngatedTask(r, x);
    }
  }

  lemma SomeFailed(g: Graph, ok: set<Id>) returns (x: Id)
    requires Acyclic(g) && !(g.Keys <= ok)
    ensures x in g && Meaning(g, ok, x) == Failed
  {
    x :| x in g && x !in ok;
    MeaningByReachability(g, ok, x);
    if Meaning(g, ok, x) == Skipped {
      var p :| LeadsTo(g, x, p) && Meaning(g, ok, p[|p| - 1]) == Failed;
      x := p[|p| - 1];
    }
  }

  // ----- completed and waiting missions

  /** A mission reported as completed has completed every task exactly when no poll of
      the layer loop was answered with a cancellation. */
  lemma CompletedExactly(r: Run)
    requires ValidRun(r) && FinalState(r) == RunCompleted
    ensures (forall x :: x in r.g ==> FinalProgress(r, x).state == Completed)
      <==> (forall k :: 0 <= k < |r.layers| ==> !r.cancelled(k))
  {
    LoopStops(r);
    var n := LayersRun(r);
    if n == |r.layers| {
      forall x | x in r.g ensures FinalProgress(r, x).state == Completed {
        CompletedHere(r, x);
      }
    } else {
      assert StageAt(r.g, r.layers, n);
      var x := r.layers[n][0];
      assert x in r.layers[n];
      assert FinalProgress(r, x).state == Pending;
    }
  }

  /** In a fully processed unpaused run without failures nothing is skipped either. */
  lemma CompletedHere(r: Run, x: Id)
    requires ValidRun(r) && FinalState(r) == RunCompleted && LayersRun(r) == |r.layers| && x in r.g
    ensures FinalProgress(r, x).state == Completed
  {
    MeaningIsVerdict(r, x);
    if SettledState(r, x) == Waiting { WaitingIsInLastLayer(r, x); }
    PlacedMembers(r.layers, |r.layers|, x);
    var n :| 0 <= n < |r.layers| && x in r.layers[n];
    NothingSkipped(r, n, x);
  }

  lemma {:induction false} NothingSkipped(r: Run, n: nat, x: Id)
    requires ValidRun(r) && FinalState(r) == RunCompleted && LayersRun(r) == |r.layers|
    requires n < |r.layers| && x in r.layers[n]
    ensures x in r.g && r.meaning[x] == Completed
    decreases n
  {
    assert StageAt(r.g, r.layers, n);
    assert MeaningHolds(r, x);
    assert FinalProgress(r, x).state != Failed;
    MeaningIsVerdict(r, x);
    if r.meaning[x] == Skipped {
      var d :| d in r.g[x] && d in r.meaning && r.meaning[d] in {Failed, Skipped};
      PlacedMembers(r.layers, n, d);
      var k: nat :| k < n && d in r.layers[k];
      NothingSkipped(r, k, d);
    } else if r.meaning[x] == Failed {
      if x in r.gated { WaitingIsInLastLayer(r, x); }
    }
  }

  ghost predicate Steady(cancelled: nat -> bool) {
    forall j: nat, k: nat :: j <= k && cancelled(j) ==> cancelled(k)
  }

  /** A cancellation predicate that stays true once it is true keeps the promise: a
      completed mission has completed every task. */
  lemma SteadyCancellationCompletes(r: Run, x: Id)
    requires ValidRun(r) && FinalState(r) == RunCompleted && x in r.g
    requires Steady(r.cancelled)
    ensures FinalProgress(r, x).state == Completed
  {
    LoopStops(r);
    var n := LayersRun(r);
    CompletedExactly(r);
  }

  /** One that flickers does not: when the first poll is answered with a cancellation and
      the second is not, the mission completes with every task pending. */
  lemma FlickeringCancellation(r: Run, x: Id)
    requires ValidRun(r) && |r.layers| > 0 && x in r.g
    requires r.cancelled(0) && !r.cancelled(1)
    ensures FinalState(r) == RunCompleted && FinalProgress(r, x) == Progress(Pending, 0)
  {
    assert LayersRun(r) == 0;
    assert FinalPoll(r) == 1;
    forall y ensures FinalProgress(r, y) == Progress(Pending, 0) {
    }
  }

  /** A waiting mission lists exactly its waiting tasks, at least one, each still in need
      of its approval and with every dependency completed. */
  lemma WaitingMission(r: Run)
    requires ValidRun(r) && FinalState(r) == RunWaiting
    ensures ApprovalsAsked(r) != []
    ensures forall x :: x in ApprovalsAsked(r) <==> x in r.g && FinalProgress(r, x).state == Waiting
    ensures forall x :: x in ApprovalsAsked(r) ==>
      x in r.gated && x in r.g && forall d :: d in r.g[x] ==> FinalProgress(r, d).state == Completed
  {
    LoopStops(r);
    var n := LayersRun(r);
    forall x ensures x in ApprovalsAsked(r) <==> x in r.g && FinalProgress(r, x).state == Waiting {
      HeldMembers(r, r.layers[n - 1], x);
      if x in r.g {
        if FinalProgress(r, x).state == Waiting { WaitingIsInLastLayer(r, x); }
      }
      if x in ApprovalsAsked(r) {
        assert StageAt(r.g, r.layers, n - 1);
      }
    }
    forall x, d | x in ApprovalsAsked(r) && x in r.g && d in r.g[x]
      ensures FinalProgress(r, d).state == Completed
    {
      HeldMembers(r, r.layers[n - 1], x);
      DependenciesCompleted(r, n, n - 1, x, d);
      PlacedGrows(r.layers, n - 1, n);
    }
    forall x | x in ApprovalsAsked(r) ensures x in r.gated && x in r.g {
      HeldMembers(r, r.layers[n - 1], x);
      MeaningIsVerdict(r, x);
    }
  }

  /** Everything below a task of layer `k` is placed before layer `k`. */
  lemma {:induction false} BelowPlaced(r: Run, k: nat, x: Id, p: seq<Id>)
    requires ValidRun(r) && k < |r.layers| && x in r.layers[k] && LeadsTo(r.g, x, p)
    ensures p[|p| - 1] in Placed(r.layers, k)
    decreases |p|
  {
    var d := p[1];
    assert StageAt(r.g, r.layers, k);
    assert d in r.g[p[0]];
    if |p| > 2 {
      PlacedMembers(r.layers, k, d);
      var j :| 0 <= j < k && d in r.layers[j];
      SubWalk(r.g, p, 1, |p|);
      BelowPlaced(r, j, d, p[1..]);
      PlacedGrows(r.layers, j, k);
    }
  }

  /** Everything below a reached task ends as its meaning says. */
  lemma BelowSettled(r: Run, x: Id, p: seq<Id>)
    requires ValidRun(r) && Acyclic(r.g) && x in Placed(r.layers, LayersRun(r)) && LeadsTo(r.g, x, p)
    ensures p[|p| - 1] in r.g && FinalProgress(r, p[|p| - 1]).state == Meaning(r.g, r.ok, p[|p| - 1])
  {
    LoopStops(r);
    var n, d := LayersRun(r), p[|p| - 1];
    PlacedMembers(r.layers, n, x);
    var k :| 0 <= k < n && x in r.layers[k];
    BelowPlaced(r, k, x, p);
    PlacedGrows(r.layers, k, n);
    PlacedMembers(r.layers, k, d);
    var j :| 0 <= j < k && d in r.layers[j];
    HeldMembers(r, r.layers[j], d);
    MeaningIsVerdict(r, d);
    MeaningIsDagMeaning(r, d);
  }

  /** A reached task ends skipped exactly when some task it transitively depends on ended
      failed. */
  lemma SkippedExactly(r: Run, x: Id)
    requires ValidRun(r) && Acyclic(r.g) && x in Placed(r.layers, LayersRun(r))
    ensures x in r.g && (FinalProgress(r, x).state == Skipped <==>
      exists p {:trigger LeadsTo(r.g, x, p)} :: LeadsTo(r.g, x, p) && FinalProgress(r, p[|p| - 1]).state == Failed)
  {
    SkippedByMeaning(r, x);
    forall p | LeadsTo(r.g, x, p)
      ensures FinalProgress(r, p[|p| - 1]).state == Meaning(r.g, r.ok, p[|p| - 1])
    {
      BelowSettled(r, x, p);
    }
  }

  /** The same of the meanings below the task. */
  lemma SkippedByMeaning(r: Run, x: Id)
    requires ValidRun(r) && Acyclic(r.g) && x in Placed(r.layers, LayersRun(r))
    ensures x in r.g && (FinalProgress(r, x).state == Skipped <==>
      exists p {:trigger LeadsTo(r.g, x, p)} :: LeadsTo(r.g, x, p) && Meaning(r.g, r.ok, p[|p| - 1]) == Failed)
  {
    LoopStops(r);
    PlacedInGraph(r, LayersRun(r), x);
    MeaningIsVerdict(r, x);
    MeaningIsDagMeaning(r, x);
    MeaningByReachability(r.g, r.ok, x);
  }

  // ----- two runs that differ in their approvals

  lemma FewerGatesHoldLess(r1: Run, r2: Run, layer: seq<Id>)
    requires r2 == r1.(gated := r2.gated) && r2.gated <= r1.gated
    requires Held(r2, layer) != []
    ensures Held(r1, layer) != []
  {
    var x := Held(r2, layer)[0];
    HeldMembers(r2, layer, x);
    HeldMembers(r1, layer, x);
  }

  lemma {:induction false} FewerGatesRunFurther(r1: Run, r2: Run, n: nat)
    requires r2 == r1.(gated := r2.gated) && r2.gated <= r1.gated
    requires n <= |r1.layers|
    ensures LayersRunFrom(r1, n) <= LayersRunFrom(r2, n)
    decreases |r1.layers| - n
  {
    if n < |r1.layers| && !r1.cancelled(n) {
      FewerGatesRunFurther(r1, r2, n + 1);
      if Held(r2, r2.layers[n]) != [] {
        FewerGatesHoldLess(r1, r2, r1.layers[n]);
      }
    }
  }

  /** A task that waits in the first run and is still gated in the second waits there too:
      both runs stop after its layer, so the same poll decides. */
  lemma StillWaiting(r1: Run, r2: Run, x: Id)
    requires ValidRun(r1) && ValidRun(r2) && x in r1.g
    requires r2 == r1.(gated := r2.gated) && r2.gated <= r1.gated
    requires FinalProgress(r1, x).state == Waiting && x in r2.gated
    ensures FinalProgress(r2, x).state == Waiting
  {
    LoopStops(r1);
    LoopStops(r2);
    var n := LayersRun(r1);
    MeaningIsVerdict(r1, x);
    MeaningIsVerdict(r2, x);
    WaitingIsInLastLayer(r1, x);
    HeldMembers(r1, r1.layers[n - 1], x);
    HeldMembers(r2, r2.layers[n - 1], x);
    FewerGatesRunFurther(r1, r2, 0);
    assert LayersRun(r2) == n;
  }

  /** Granting more approvals only moves a mission forward, whatever the cancellation
      callback answers: what was completed, failed or skipped stays exactly that, with the
      same number of attempts, and what waits for an approval that is still missing keeps
      waiting. */
  lemma ApprovalsMonotone(r1: Run, r2: Run, x: Id)
    requires ValidRun(r1) && ValidRun(r2) && x in r1.g
    requires r2 == r1.(gated := r2.gated) && r2.gated <= r1.gated
    ensures Terminal(FinalProgress(r1, x).state) ==> FinalProgress(r2, x) == FinalProgress(r1, x)
    ensures FinalProgress(r1, x).state == Waiting && x in r2.gated ==> FinalProgress(r2, x).state == Waiting
  {
    if FinalProgress(r1, x).state == Waiting && x in r2.gated {
      StillWaiting(r1, r2, x);
    }
    FewerGatesRunFurther(r1, r2, 0);
    PlacedGrows(r1.layers, LayersRun(r1), LayersRun(r2));
    MeaningIsVerdict(r1, x);
    MeaningIsVerdict(r2, x);
  }

  /** Granting everything that a paused run asked for makes the next pause, if there is one,
      come at a later layer, whatever the cancellation callbacks of the two runs answer. */
  lemma NextPauseLater(r1: Run, r2: Run)
    requires ValidRun(r1) && ValidRun(r2) && r2 == r1.(gated := r2.gated, cancelled := r2.cancelled)
    requires PausedAfter(r1, LayersRun(r1)) && PausedAfter(r2, LayersRun(r2))
    requires r2.gated <= r1.gated - Elements(ApprovalsAsked(r1))
    ensures LayersRun(r1) < LayersRun(r2) <= |r1.layers|
  {
    LoopStops(r1);
    LoopStops(r2);
    assert ApprovalsAsked(r1) == Held(r1, r1.layers[LayersRun(r1) - 1]);
    var n := LayersRun(r2);
    var x := Held(r2, r2.layers[n - 1])[0];
    HeldMembers(r2, r2.layers[n - 1], x);
    HeldMembers(r1, r1.layers[n - 1], x);
    assert StageAt(r2.g, r2.layers, n - 1);
    MeaningIsVerdict(r2, x);
    assert x in r2.gated && x in Held(r1, r1.layers[n - 1]);
    assert Held(r1, r1.layers[n - 1]) != [];
  }
}
