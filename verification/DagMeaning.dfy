/** What a run means, task by task, on the dependency graph itself: no layers, no order,
    no mutable state. `ok` is the set of tasks whose own executor would succeed. */
module DagMeaning {
  import opened Sorting
  import opened DependencyGraph

  datatype TaskState = Pending | Ready | Running | Waiting | Completed | Failed | Skipped | Cancelled

  /** The verdict on a task whose dependencies' verdicts are known. */
  ghost function Verdict(blockedUpstream: bool, ok: bool): TaskState {
    if blockedUpstream then Skipped else if ok then Completed else Failed
  }

  ghost function MeaningAt(g: Graph, ok: set<Id>, k: nat, x: Id): TaskState
    requires x in Settled(g, k)
    decreases k
  {
    Verdict(exists d :: d in g[x] && MeaningAt(g, ok, k - 1, d) in {Failed, Skipped}, x in ok)
  }

  /** The recursive meaning of task `x`, when everyone's approval is given. */
  ghost function Meaning(g: Graph, ok: set<Id>, x: Id): TaskState {
    var n := |g.Keys|;
    if x in Settled(g, n) then MeaningAt(g, ok, n, x) else Pending
  }

  ghost predicate Acyclic(g: Graph) {
    Closed(g) && !HasCycle(g)
  }

  lemma AcyclicSettles(g: Graph)
    requires Acyclic(g)
    ensures Settled(g, |g.Keys|) == g.Keys
  {
    SettledGrows(g, |g.Keys|, |g.Keys|);
    CycleIffReached(g);
    forall x | x in g ensures x in Settled(g, |g.Keys|) {
      forall p | IsWalkFrom(g, x, p) ensures |p| <= |g.Keys| {
        assert !ReachesCycle(g, x);
        RepetitionFreeIsShort(p, g.Keys);
      }
      SettledIffShortWalks(g, |g.Keys|, x);
    }
  }

  lemma {:induction false} MeaningStable(g: Graph, ok: set<Id>, j: nat, k: nat, x: Id)
    requires x in Settled(g, j) && x in Settled(g, k)
    ensures MeaningAt(g, ok, j, x) == MeaningAt(g, ok, k, x)
  {
    forall d | d in g[x] ensures MeaningAt(g, ok, j - 1, d) == MeaningAt(g, ok, k - 1, d) {
      MeaningStable(g, ok, j - 1, k - 1, d);
    }
  }

  ghost predicate BlockedUpstream(g: Graph, ok: set<Id>, x: Id)
    requires x in g
  {
    exists d :: d in g[x] && Meaning(g, ok, d) in {Failed, Skipped}
  }

  /** The equation the meaning satisfies at every task. */
  lemma MeaningEquation(g: Graph, ok: set<Id>, x: Id)
    requires Acyclic(g) && x in g
    ensures Meaning(g, ok, x) == Verdict(BlockedUpstream(g, ok, x), x in ok)
  {
    var n := |g.Keys|;
    AcyclicSettles(g);
    assert x in Settled(g, n);
    forall d | d in g[x] ensures MeaningAt(g, ok, n - 1, d) == Meaning(g, ok, d) {
      MeaningStable(g, ok, n - 1, n, d);
    }
  }

  /** The assignment `f` satisfies the equation at `x`. */
  ghost predicate SolvedAt(g: Graph, ok: set<Id>, f: map<Id, TaskState>, x: Id) {
    x in g && x in f && f[x] == Verdict(exists d :: d in g[x] && d in f && f[d] in {Failed, Skipped}, x in ok)
  }

  /** No other assignment of verdicts satisfies the equations. */
  lemma {:induction false} MeaningUnique(g: Graph, ok: set<Id>, f: map<Id, TaskState>, k: nat, x: Id)
    requires Acyclic(g) && f.Keys == g.Keys && x in Settled(g, k)
    requires forall y {:trigger SolvedAt(g, ok, f, y)} :: y in g ==> SolvedAt(g, ok, f, y)
    ensures x in f && f[x] == Meaning(g, ok, x)
  {
    SettledGrows(g, k, k);
    MeaningEquation(g, ok, x);
    assert SolvedAt(g, ok, f, x);
    forall d | d in g[x] ensures d in f && f[d] == Meaning(g, ok, d) {
      MeaningUnique(g, ok, f, k - 1, d);
    }
  }

  /** A walk from `x` to a task it transitively depends on. */
  ghost predicate LeadsTo(g: Graph, x: Id, p: seq<Id>) {
    IsWalkFrom(g, x, p) && |p| > 1
  }

  /** Skipped means exactly that some transitive dependency failed. */
  lemma {:induction false} SkippedFindsFailure(g: Graph, ok: set<Id>, k: nat, x: Id) returns (p: seq<Id>)
    requires Acyclic(g) && x in Settled(g, k) && Meaning(g, ok, x) == Skipped
    ensures LeadsTo(g, x, p) && Meaning(g, ok, p[|p| - 1]) == Failed
  {
    SettledGrows(g, k, k);
    MeaningEquation(g, ok, x);
    var d :| d in g[x] && Meaning(g, ok, d) in {Failed, Skipped};
    if Meaning(g, ok, d) == Failed {
      p := [x, d];
    } else {
      var q := SkippedFindsFailure(g, ok, k - 1, d);
      p := PrependWalk(g, x, q);
    }
  }

  lemma {:induction false} FailureBelowSkips(g: Graph, ok: set<Id>, x: Id, p: seq<Id>)
    requires Acyclic(g) && LeadsTo(g, x, p) && p[|p| - 1] !in ok
    ensures Meaning(g, ok, x) == Skipped
    decreases |p|
  {
    MeaningEquation(g, ok, x);
    MeaningEquation(g, ok, p[1]);
    assert p[1] in g[p[0]];
    if |p| > 2 {
      SubWalk(g, p, 1, |p|);
      FailureBelowSkips(g, ok, p[1], p[1..]);
    }
    assert Meaning(g, ok, p[1]) in {Failed, Skipped};
  }

  ghost predicate FailureBelow(g: Graph, ok: set<Id>, x: Id) {
    exists p {:trigger LeadsTo(g, x, p)} :: LeadsTo(g, x, p) && p[|p| - 1] !in ok
  }

  /** The meaning without recursion: a task is skipped when anything it transitively
      depends on would not succeed, and otherwise ends as its own executor does. */
  lemma MeaningByReachability(g: Graph, ok: set<Id>, x: Id)
    requires Acyclic(g) && x in g
    ensures Meaning(g, ok, x) == Verdict(FailureBelow(g, ok, x), x in ok)
    ensures Meaning(g, ok, x) == Skipped <==>
      exists p {:trigger LeadsTo(g, x, p)} :: LeadsTo(g, x, p) && Meaning(g, ok, p[|p| - 1]) == Failed
  {
    MeaningEquation(g, ok, x);
    AcyclicSettles(g);
    if Meaning(g, ok, x) == Skipped {
      var p := SkippedFindsFailure(g, ok, |g.Keys|, x);
      MeaningEquation(g, ok, p[|p| - 1]);
    }
    forall p | LeadsTo(g, x, p)
      ensures Meaning(g, ok, p[|p| - 1]) == Failed ==> p[|p| - 1] !in ok
      ensures p[|p| - 1] !in ok ==> Meaning(g, ok, x) == Skipped
    {
      MeaningEquation(g, ok, p[|p| - 1]);
      if p[|p| - 1] !in ok {
        FailureBelowSkips(g, ok, x, p);
      }
    }
  }
}
