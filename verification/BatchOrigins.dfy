/** Where every batch comes from: the submission that opened its group, with the clock and
    the policy of that moment, and the step that released it. */
module BatchOrigins {
  import opened Wrappers
  import opened JoinedText
  import opened BatchTypes
  import opened BatchModel
  import opened BatchTimers
  import opened BatchHistory

  /** What a group, open or released, says of its opening. */
  datatype Opening = Opening(key: Text, first: Request, createdAt: nat, waitMs: nat)

  ghost function OpeningOf(g: Group): Opening
    requires g.entries != []
  {
    Opening(g.key, g.entries[0], g.createdAt, g.waitMs)
  }

  ghost function OpeningOfBatch(b: Batch): Opening
    requires b.entries != []
  {
    Opening(b.key, b.entries[0], b.createdAt, b.waitMs)
  }

  /** In state `s` the step submits the request that opens the group: it is batched, no group
      of its key is open, the clock stands at `createdAt`, and the policy waits `waitMs`. */
  ghost predicate Opens(s: State, step: Step, x: Opening) {
    && step == Submit(x.first) && x.key == BatchKey(x.first) && x.key !in s.queue.groups
    && s.policy.mode == BatchMode.Enabled && !s.policy.bypass
    && x.createdAt == s.now && x.waitMs == s.policy.maxWaitMs
  }

  /** The group is open in `s`. */
  ghost predicate Stands(s: State, x: Opening) {
    x.key in s.queue.groups && var g := s.queue.groups[x.key]; g.entries != [] && OpeningOf(g) == x
  }

  /** The group was open before the step, or the step opens it. */
  ghost predicate Stems(s: State, step: Step, x: Opening) {
    Stands(s, x) || Opens(s, step, x)
  }

  /** Between `s` and `t`, within the step, nothing was opened but by the step itself, and
      batches were only added, released at the time of the step. */
  ghost predicate Evolves(s: State, step: Step, t: State) {
    && t.now == s.now && KeysMatch(t)
    && (forall k {:trigger t.queue.groups[k]} :: k in t.queue.groups ==>
          t.queue.groups[k].entries != [] && Stems(s, step, OpeningOf(t.queue.groups[k])))
    && |s.batches| <= |t.batches| && t.batches[..|s.batches|] == s.batches
    && forall i {:trigger t.batches[i]} :: |s.batches| <= i < |t.batches| ==>
      t.batches[i].releasedAt == s.now && t.batches[i].entries != [] && Stems(s, step, OpeningOfBatch(t.batches[i]))
  }

  lemma EvolvesFirst(s: State, step: Step)
    requires Timed(s) && KeysMatch(s)
    ensures Evolves(s, step, s)
  {
  }

  lemma DispatchEvolves(s: State, step: Step, t: State, key: Text, reason: DispatchReason)
    requires Evolves(s, step, t)
    ensures Evolves(s, step, Dispatch(t, key, reason))
  {
    if key in t.queue.groups {
      var u := Dispatch(t, key, reason);
      var b := Released(t, t.queue.groups[key], reason);
      assert u.batches == t.batches + [b];
      assert OpeningOfBatch(b) == OpeningOf(t.queue.groups[key]);
      assert u.batches[..|s.batches|] == t.batches[..|s.batches|];
      forall i | |s.batches| <= i < |u.batches|
        ensures u.batches[i].releasedAt == s.now && u.batches[i].entries != []
        ensures Stems(s, step, OpeningOfBatch(u.batches[i]))
      {
        assert i < |t.batches| ==> u.batches[i] == t.batches[i];
      }
    }
  }

  lemma PushEvolves(s: State, r: Request)
    requires Timed(s) && KeysMatch(s) && Admits(s.policy, r)
    ensures Evolves(s, Submit(r), Push(s, BatchKey(r), r))
  {
    var key := BatchKey(r);
    var t := Push(s, key, r);
    forall k | k in t.queue.groups
      ensures t.queue.groups[k].entries != [] && Stems(s, Submit(r), OpeningOf(t.queue.groups[k]))
    {
      if k in s.queue.groups {
        assert Stands(s, OpeningOf(s.queue.groups[k]));
        assert OpeningOf(t.queue.groups[k]) == OpeningOf(s.queue.groups[k]);
      } else {
        assert Opens(s, Submit(r), OpeningOf(t.queue.groups[k]));
      }
    }
  }

  lemma SameGroupsEvolve(s: State, step: Step, t: State, u: State)
    requires Evolves(s, step, t) && u.now == t.now && u.batches == t.batches
    requires u.queue.groups.Keys == t.queue.groups.Keys
    requires forall k :: k in t.queue.groups ==>
      u.queue.groups[k] == t.queue.groups[k].(timer := u.queue.groups[k].timer)
    ensures Evolves(s, step, u)
  {
    forall k | k in u.queue.groups
      ensures u.queue.groups[k].entries != [] && Stems(s, step, OpeningOf(u.queue.groups[k]))
    {
      assert OpeningOf(u.queue.groups[k]) == OpeningOf(t.queue.groups[k]);
    }
  }

  lemma ResolveEvolves(s: State, r: Request)
    requires Timed(s) && KeysMatch(s)
    ensures Evolves(s, Submit(r), Resolve(s, r))
  {
    EvolvesFirst(s, Submit(r));
    if Admits(s.policy, r) {
      var key := BatchKey(r);
      var s1 := Push(s, key, r);
      PushEvolves(s, r);
      DispatchEvolves(s, Submit(r), s1, key, BySize);
      SameGroupsEvolve(s, Submit(r), s1, ArmGroup(s1, key));
    } else {
      SameGroupsEvolve(s, Submit(r), s, Resolve(s, r));
    }
  }

  lemma {:induction false} FlushEvolves(s: State, step: Step, t: State, keys: seq<Text>)
    requires Evolves(s, step, t)
    ensures Evolves(s, step, FlushKeys(t, keys))
    decreases |keys|
  {
    if keys != [] {
      DispatchEvolves(s, step, t, keys[0], ByTimeout);
      FlushEvolves(s, step, Dispatch(t, keys[0], ByTimeout), keys[1..]);
    }
  }

  /** Whatever the step: the groups open after it were open before or are opened by it, and so
      were the batches it releases, which it releases at once. */
  lemma StepEvolves(s: State, step: Step)
    requires Timed(s) && KeysMatch(s) && Allowed(s, step)
    ensures Evolves(s, step, Next(s, step).(now := s.now))
  {
    EvolvesFirst(s, step);
    match step
    case Submit(r) => ResolveEvolves(s, r);
    case TimerFires(id) =>
      var s1 := s.(timers := Clear(s.timers, Some(id)));
      SameGroupsEvolve(s, step, s, s1);
      DispatchEvolves(s, step, s1, s.timers.live[id].key, ByTimeout);
    case Flush => FlushEvolves(s, step, s, s.queue.order);
    case Configure(p) => SameGroupsEvolve(s, step, s, Next(s, step));
    case Tick(ms) => SameGroupsEvolve(s, step, s, Next(s, step).(now := s.now));
  }

  // ----- over a run

  lemma {:induction false} PrefixAllowed(s: State, steps: seq<Step>, n: nat)
    requires AllowedRun(s, steps) && n < |steps|
    ensures AllowedRun(s, steps[..n]) && AllowedRun(s, steps[..n + 1])
    ensures Allowed(Run(s, steps[..n]), steps[n])
    ensures Run(s, steps[..n + 1]) == Next(Run(s, steps[..n]), steps[n])
    decreases n
  {
    if n > 0 {
      PrefixAllowed(Next(s, steps[0]), steps[1..], n - 1);
      assert steps[..n][1..] == steps[1..][..n - 1] && steps[..n + 1][1..] == steps[1..][..n];
    } else {
      assert steps[..1][1..] == [];
    }
  }

  /** The state in which a fresh scheduler takes step `n` of the run. */
  ghost function StateAt(p: BatchPolicy, now: nat, steps: seq<Step>, n: nat): State
    requires n <= |steps| && AllowedRun(Initial(p, now), steps[..n])
  {
    Run(Initial(p, now), steps[..n])
  }

  /** Step `j` opened the group. */
  ghost predicate OpensAt(p: BatchPolicy, now: nat, steps: seq<Step>, j: nat, x: Opening) {
    j < |steps| && AllowedRun(Initial(p, now), steps[..j]) && Opens(StateAt(p, now, steps, j), steps[j], x)
  }

  /** One of the first `n` steps opened the group. */
  ghost predicate OpenedIn(p: BatchPolicy, now: nat, steps: seq<Step>, n: nat, x: Opening) {
    exists j: nat :: j < n && OpensAt(p, now, steps, j, x)
  }

  /** Step `j` released batch `i`, at the time it says. */
  ghost predicate ReleasesAt(p: BatchPolicy, now: nat, steps: seq<Step>, j: nat, i: nat, releasedAt: nat) {
    && j < |steps| && AllowedRun(Initial(p, now), steps[..j]) && AllowedRun(Initial(p, now), steps[..j + 1])
    && |StateAt(p, now, steps, j).batches| <= i < |StateAt(p, now, steps, j + 1).batches|
    && StateAt(p, now, steps, j).now == releasedAt
  }

  /** One of the first `n` steps released batch `i`, at the time it says. */
  ghost predicate ReleasedIn(p: BatchPolicy, now: nat, steps: seq<Step>, n: nat, i: nat, releasedAt: nat) {
    exists j: nat :: j < n && ReleasesAt(p, now, steps, j, i, releasedAt)
  }

  /** Everything open or released after `n` steps has its origin in them. */
  ghost predicate Originates(p: BatchPolicy, now: nat, steps: seq<Step>, n: nat, t: State) {
    && (forall k {:trigger t.queue.groups[k]} :: k in t.queue.groups ==>
          t.queue.groups[k].entries != [] && OpenedIn(p, now, steps, n, OpeningOf(t.queue.groups[k])))
    && forall i: nat {:trigger t.batches[i]} :: i < |t.batches| ==>
      && t.batches[i].entries != [] && OpenedIn(p, now, steps, n, OpeningOfBatch(t.batches[i]))
      && ReleasedIn(p, now, steps, n, i, t.batches[i].releasedAt)
  }

  lemma LaterStill(p: BatchPolicy, now: nat, steps: seq<Step>, n: nat)
    ensures forall x :: OpenedIn(p, now, steps, n, x) ==> OpenedIn(p, now, steps, n + 1, x)
    ensures forall i, at :: ReleasedIn(p, now, steps, n, i, at) ==> ReleasedIn(p, now, steps, n + 1, i, at)
  {
  }

  lemma StemsOpened(p: BatchPolicy, now: nat, steps: seq<Step>, n: nat, x: Opening)
    requires n < |steps| && AllowedRun(Initial(p, now), steps[..n])
    requires Originates(p, now, steps, n, StateAt(p, now, steps, n))
    requires Stems(StateAt(p, now, steps, n), steps[n], x)
    ensures OpenedIn(p, now, steps, n + 1, x)
  {
    LaterStill(p, now, steps, n);
    if Stands(StateAt(p, now, steps, n), x) {
      assert OpenedIn(p, now, steps, n, OpeningOf(StateAt(p, now, steps, n).queue.groups[x.key]));
    } else {
      assert OpensAt(p, now, steps, n, x);
    }
  }

  lemma BatchOriginates(p: BatchPolicy, now: nat, steps: seq<Step>, n: nat, s: State, t: State, i: nat)
    requires n < |steps| && AllowedRun(Initial(p, now), steps[..n]) && AllowedRun(Initial(p, now), steps[..n + 1])
    requires s == StateAt(p, now, steps, n) && t == StateAt(p, now, steps, n + 1)
    requires Originates(p, now, steps, n, s) && Evolves(s, steps[n], t.(now := s.now)) && i < |t.batches|
    ensures t.batches[i].entries != [] && OpenedIn(p, now, steps, n + 1, OpeningOfBatch(t.batches[i]))
    ensures ReleasedIn(p, now, steps, n + 1, i, t.batches[i].releasedAt)
  {
    if i < |s.batches| {
      assert t.batches[..|s.batches|][i] == s.batches[i];
      assert t.batches[i] == s.batches[i];
      LaterStill(p, now, steps, n);
    } else {
      assert t.(now := s.now).batches[i] == t.batches[i];
      StemsOpened(p, now, steps, n, OpeningOfBatch(t.batches[i]));
      assert ReleasesAt(p, now, steps, n, i, t.batches[i].releasedAt);
    }
  }

  lemma OriginatesOneMore(p: BatchPolicy, now: nat, steps: seq<Step>, n: nat, s: State, t: State)
    requires n < |steps| && AllowedRun(Initial(p, now), steps[..n]) && AllowedRun(Initial(p, now), steps[..n + 1])
    requires s == StateAt(p, now, steps, n) && t == StateAt(p, now, steps, n + 1)
    requires Originates(p, now, steps, n, s) && Evolves(s, steps[n], t.(now := s.now))
    ensures Originates(p, now, steps, n + 1, t)
  {
    forall k | k in t.queue.groups
      ensures t.queue.groups[k].entries != [] && OpenedIn(p, now, steps, n + 1, OpeningOf(t.queue.groups[k]))
    {
      assert t.(now := s.now).queue.groups[k] == t.queue.groups[k];
      StemsOpened(p, now, steps, n, OpeningOf(t.queue.groups[k]));
    }
    forall i: nat | i < |t.batches|
      ensures t.batches[i].entries != [] && OpenedIn(p, now, steps, n + 1, OpeningOfBatch(t.batches[i]))
      ensures ReleasedIn(p, now, steps, n + 1, i, t.batches[i].releasedAt)
    {
      BatchOriginates(p, now, steps, n, s, t, i);
    }
  }

  lemma {:induction false} RunOriginates(p: BatchPolicy, now: nat, steps: seq<Step>, n: nat)
    requires n <= |steps| && AllowedRun(Initial(p, now), steps)
    ensures AllowedRun(Initial(p, now), steps[..n])
    ensures Timed(StateAt(p, now, steps, n)) && KeysMatch(StateAt(p, now, steps, n))
    ensures Originates(p, now, steps, n, StateAt(p, now, steps, n))
  {
    InitialTimed(p, now);
    InitialOrdered(p, now);
    if n > 0 {
      RunOriginates(p, now, steps, n - 1);
      PrefixAllowed(Initial(p, now), steps, n - 1);
      var s := StateAt(p, now, steps, n - 1);
      StepEvolves(s, steps[n - 1]);
      StepTimed(s, steps[n - 1]);
      OriginatesOneMore(p, now, steps, n - 1, s, StateAt(p, now, steps, n));
    }
  }

  /** From a fresh scheduler, over every run: an open group was opened by the submission of its
      first request, which was batched while no group of its key was open; its `createdAt` is
      the clock of that moment, and its wait that of the policy then in force. */
  lemma GroupOrigin(p: BatchPolicy, now: nat, steps: seq<Step>, k: Text) returns (j: nat)
    requires AllowedRun(Initial(p, now), steps) && k in Run(Initial(p, now), steps).queue.groups
    ensures j < |steps| && AllowedRun(Initial(p, now), steps[..j])
    ensures var g, t := Run(Initial(p, now), steps).queue.groups[k], Run(Initial(p, now), steps[..j]);
      && g.entries != [] && steps[j] == Submit(g.entries[0])
      && BatchKey(g.entries[0]) == k && k !in t.queue.groups
      && t.policy.mode == BatchMode.Enabled && !t.policy.bypass
      && g.createdAt == t.now && g.waitMs == t.policy.maxWaitMs
  {
    RunOriginates(p, now, steps, |steps|);
    assert steps[..|steps|] == steps;
    j :| j < |steps| && OpensAt(p, now, steps, j, OpeningOf(Run(Initial(p, now), steps).queue.groups[k]));
  }

  /** The same of every released batch; and it was released in one step, at whose time it says
      it was. */
  lemma BatchOrigin(p: BatchPolicy, now: nat, steps: seq<Step>, i: nat) returns (j: nat, h: nat)
    requires AllowedRun(Initial(p, now), steps) && i < |Run(Initial(p, now), steps).batches|
    ensures j < |steps| && AllowedRun(Initial(p, now), steps[..j])
    ensures var b, t := Run(Initial(p, now), steps).batches[i], Run(Initial(p, now), steps[..j]);
      && b.entries != [] && steps[j] == Submit(b.entries[0])
      && BatchKey(b.entries[0]) == b.key && b.key !in t.queue.groups
      && t.policy.mode == BatchMode.Enabled && !t.policy.bypass
      && b.createdAt == t.now && b.waitMs == t.policy.maxWaitMs
    ensures h < |steps| && AllowedRun(Initial(p, now), steps[..h]) && AllowedRun(Initial(p, now), steps[..h + 1])
    ensures |Run(Initial(p, now), steps[..h]).batches| <= i < |Run(Initial(p, now), steps[..h + 1]).batches|
    ensures Run(Initial(p, now), steps).batches[i].releasedAt == Run(Initial(p, now), steps[..h]).now
  {
    RunOriginates(p, now, steps, |steps|);
    assert steps[..|steps|] == steps;
    var b := Run(Initial(p, now), steps).batches[i];
    j :| j < |steps| && OpensAt(p, now, steps, j, OpeningOfBatch(b));
    h :| h < |steps| && ReleasesAt(p, now, steps, h, i, b.releasedAt);
  }
}
