/** Dependency graphs: walks that follow dependencies, cycles, and the ranks that
    Kahn layering assigns. Everything the planner's result means is said in terms of
    walks; the sets `Settled(g, k)` are how the proofs get there. */
module DependencyGraph {
  import opened Sorting

  /** Each task with the set of tasks it depends on. */
  type Graph = map<Id, set<Id>>

  ghost predicate Closed(g: Graph) {
    forall x, d {:trigger d in g[x]} :: x in g && d in g[x] ==> d in g
  }

  /** `p` follows dependencies from `p[0]`. */
  ghost predicate IsWalk(g: Graph, p: seq<Id>) {
    && p != []
    && (forall i :: 0 <= i < |p| ==> p[i] in g)
    && (forall i, j :: 0 <= i < j < |p| && j == i + 1 ==> p[i] in g && p[j] in g[p[i]])
  }

  ghost predicate IsWalkFrom(g: Graph, x: Id, p: seq<Id>) {
    IsWalk(g, p) && p[0] == x
  }

  ghost predicate IsCycle(g: Graph, p: seq<Id>) {
    IsWalk(g, p) && |p| > 1 && p[0] == p[|p| - 1]
  }

  ghost predicate HasCycle(g: Graph) {
    exists p :: IsCycle(g, p)
  }

  /** Some walk from `x` comes back to a task it has already visited. */
  ghost predicate ReachesCycle(g: Graph, x: Id) {
    exists p {:trigger IsWalkFrom(g, x, p)} :: IsWalkFrom(g, x, p) && !NoRepeats(p)
  }

  /** The longest dependency chain below `x` has exactly `n` dependencies on it. */
  ghost predicate LongestChain(g: Graph, x: Id, n: nat) {
    && (exists p {:trigger IsWalkFrom(g, x, p)} :: IsWalkFrom(g, x, p) && |p| == n + 1)
    && (forall p {:trigger IsWalkFrom(g, x, p)} :: IsWalkFrom(g, x, p) ==> |p| <= n + 1)
  }

  /** The tasks Kahn layering has placed after `k` rounds. */
  ghost function Settled(g: Graph, k: nat): set<Id> {
    if k == 0 then {} else set x | x in g && g[x] <= Settled(g, k - 1)
  }

  lemma {:induction false} SettledGrows(g: Graph, j: nat, k: nat)
    requires j <= k
    ensures Settled(g, j) <= Settled(g, k) <= g.Keys
    decreases k
  {
    if 0 < j {
      SettledGrows(g, j - 1, k - 1);
    } else if 0 < k {
      SettledGrows(g, 0, k - 1);
    }
  }

  /** Once a round adds nothing, no later round does. */
  lemma {:induction false} SettledStuck(g: Graph, k: nat, n: nat)
    requires k <= n && Settled(g, k) == Settled(g, k + 1)
    ensures Settled(g, n) == Settled(g, k)
  {
    if k < n {
      SettledStuck(g, k, n - 1);
    }
  }

  lemma SubWalk(g: Graph, p: seq<Id>, i: nat, j: nat)
    requires IsWalk(g, p) && i < j <= |p|
    ensures IsWalk(g, p[i..j])
  {
    var q := p[i..j];
    forall m, n | 0 <= m < n < |q| && n == m + 1 ensures q[m] in g && q[n] in g[q[m]] {
      assert q[m] == p[i + m] && q[n] == p[i + n];
    }
  }

  lemma {:induction false} SettledBoundsWalks(g: Graph, k: nat, p: seq<Id>)
    requires IsWalk(g, p) && p[0] in Settled(g, k)
    ensures |p| <= k
  {
    if |p| > 1 {
      assert p[1] in g[p[0]];
      SubWalk(g, p, 1, |p|);
      SettledBoundsWalks(g, k - 1, p[1..]);
    }
  }

  lemma {:induction false} UnsettledHasWalk(g: Graph, k: nat, x: Id) returns (p: seq<Id>)
    requires Closed(g) && x in g && x !in Settled(g, k)
    ensures IsWalkFrom(g, x, p) && |p| == k + 1
  {
    p := [x];
    if k > 0 {
      var d :| d in g[x] && d !in Settled(g, k - 1);
      var q := UnsettledHasWalk(g, k - 1, d);
      p := PrependWalk(g, x, q);
    }
  }

  lemma PrependWalk(g: Graph, x: Id, q: seq<Id>) returns (p: seq<Id>)
    requires IsWalk(g, q) && x in g && q[0] in g[x]
    ensures p == [x] + q && IsWalkFrom(g, x, p)
  {
    p := [x] + q;
    forall i, j | 0 <= i < j < |p| && j == i + 1 ensures p[i] in g && p[j] in g[p[i]] {
      if i > 0 {
        assert p[i] == q[i - 1] && p[j] == q[j - 1];
      }
    }
  }

  /** Tasks settled after `k` rounds are exactly those below which every chain has at
      most `k` tasks. */
  lemma SettledIffShortWalks(g: Graph, k: nat, x: Id)
    requires Closed(g) && x in g
    ensures x in Settled(g, k) <==> (forall p {:trigger IsWalkFrom(g, x, p)} :: IsWalkFrom(g, x, p) ==> |p| <= k)
  {
    if x in Settled(g, k) {
      forall p | IsWalkFrom(g, x, p) ensures |p| <= k {
        SettledBoundsWalks(g, k, p);
      }
    } else {
      var p := UnsettledHasWalk(g, k, x);
    }
  }

  /** Round `k` places exactly the tasks whose longest chain has `k` dependencies. */
  lemma RankIsLongestChain(g: Graph, k: nat, x: Id)
    requires Closed(g) && x in g
    ensures x in Settled(g, k + 1) && x !in Settled(g, k) <==> LongestChain(g, x, k)
  {
    SettledIffShortWalks(g, k, x);
    SettledIffShortWalks(g, k + 1, x);
    if x in Settled(g, k + 1) && x !in Settled(g, k) {
      var p := UnsettledHasWalk(g, k, x);
    }
  }

  /** Going round a repeated task makes a walk of any length. */
  lemma {:induction false} SettledWalksDoNotRepeat(g: Graph, k: nat, p: seq<Id>, i: nat, j: nat)
    requires IsWalk(g, p) && i < j < |p| && p[i] in Settled(g, k)
    ensures p[i] != p[j]
  {
    var d := p[i + 1];
    assert d in g[p[i]];
    SettledAlongWalk(g, k - 1, p, i + 1, j);
    if p[i] == p[j] {
      SettledWalksDoNotRepeat(g, k - 1, p, i, j);
    }
  }

  lemma {:induction false} SettledAlongWalk(g: Graph, k: nat, p: seq<Id>, i: nat, j: nat)
    requires IsWalk(g, p) && i <= j < |p| && p[i] in Settled(g, k)
    ensures p[j] in Settled(g, k)
    decreases j - i
  {
    if i < j {
      assert p[i + 1] in g[p[i]];
      SettledGrows(g, k - 1, k);
      SettledAlongWalk(g, k, p, i + 1, j);
    }
  }

  lemma {:induction false} RepetitionFreeIsShort(p: seq<Id>, s: set<Id>)
    requires NoRepeats(p) && (forall x :: x in p ==> x in s)
    ensures |p| <= |s|
  {
    if p != [] {
      assert p[0] in s && p[0] !in p[1..];
      RepetitionFreeIsShort(p[1..], s - {p[0]});
    }
  }

  /** When layering is stuck, the tasks left over are exactly those that reach a cycle. */
  lemma StuckIffReachesCycle(g: Graph, k: nat, x: Id)
    requires Closed(g) && x in g && Settled(g, k) == Settled(g, k + 1)
    ensures x !in Settled(g, k) <==> ReachesCycle(g, x)
  {
    if x in Settled(g, k) {
      forall p | IsWalkFrom(g, x, p) ensures NoRepeats(p) {
        forall i, j | 0 <= i < j < |p| ensures p[i] != p[j] {
          SettledAlongWalk(g, k, p, 0, i);
          SettledWalksDoNotRepeat(g, k, p, i, j);
        }
      }
    } else {
      var n := |g.Keys| + k;
      SettledStuck(g, k, n);
      var p := UnsettledHasWalk(g, n, x);
      if NoRepeats(p) {
        RepetitionFreeIsShort(p, g.Keys);
      }
    }
  }

  lemma WalkHasEdge(g: Graph, p: seq<Id>)
    requires IsWalk(g, p) && |p| > 1
    ensures p[0] in g && p[1] in g[p[0]]
  {
  }

  lemma NoEdgesNoCycle(g: Graph)
    requires forall x, d :: x in g ==> d !in g[x]
    ensures !HasCycle(g)
  {
    if p :| IsCycle(g, p) {
      WalkHasEdge(g, p);
    }
  }

  /** A task that reaches a cycle exists exactly when the graph has a cycle. */
  lemma CycleIffReached(g: Graph)
    ensures HasCycle(g) <==> exists x :: x in g && ReachesCycle(g, x)
  {
    if HasCycle(g) {
      var p :| IsCycle(g, p);
      assert IsWalkFrom(g, p[0], p) && !NoRepeats(p);
      assert p[0] in g && ReachesCycle(g, p[0]);
    }
    if x :| x in g && ReachesCycle(g, x) {
      var p :| IsWalkFrom(g, x, p) && !NoRepeats(p);
      var i, j :| 0 <= i < j < |p| && p[i] == p[j];
      SubWalk(g, p, i, j + 1);
      var q := p[i..j + 1];
      assert IsCycle(g, q);
    }
  }

  /** Any assignment of levels that puts dependencies strictly lower gives a task at
      least the length of its longest chain. */
  lemma {:induction false} LevelsBoundChains(g: Graph, level: map<Id, nat>, p: seq<Id>)
    requires IsWalk(g, p) && g.Keys <= level.Keys
    requires forall x, d :: x in g && d in g[x] && d in g ==> level[d] < level[x]
    ensures level[p[0]] >= |p| - 1
  {
    if |p| > 1 {
      SubWalk(g, p, 1, |p|);
      assert p[1] in g[p[0]];
      LevelsBoundChains(g, level, p[1..]);
    }
  }
}
