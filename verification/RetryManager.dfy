/** Bounded deterministic retries: the first success wins. */
module RetryManager {
  import opened Sorting
  import opened MissionTypes

  /** How many attempts the retry loop may make: at least one, except that a NaN policy
      makes the loop test false at once. */
  function EffectiveAttempts(policy: RetryPolicy): nat {
    match policy
    case Unset => 1
    case NotANumber => 0
    case Finite(r) => if r.Floor < 1 then 1 else r.Floor
  }

  /** Every policy but NaN allows an attempt. */
  lemma AtLeastOneAttempt(policy: RetryPolicy)
    ensures EffectiveAttempts(policy) >= 1 <==> !policy.NotANumber?
  {
  }

  /** Attempt `a` is one the policy allows: the first, and further ones while they are not
      more than `maxAttempts`. A NaN policy allows none. */
  ghost predicate MayAttempt(policy: RetryPolicy, a: int) {
    match policy
    case Unset => a == 1
    case NotANumber => false
    case Finite(r) => a == 1 || (a >= 1 && a as real <= r)
  }

  /** A finite policy of 1 or more is rounded down, any other one allows one attempt. */
  lemma LimitOfPolicy(policy: RetryPolicy)
    ensures policy.Unset? ==> EffectiveAttempts(policy) == 1
    ensures policy.NotANumber? ==> EffectiveAttempts(policy) == 0
    ensures policy.Finite? && policy.maxAttempts < 1.0 ==> EffectiveAttempts(policy) == 1
    ensures policy.Finite? && policy.maxAttempts >= 1.0 ==>
      EffectiveAttempts(policy) as real <= policy.maxAttempts < EffectiveAttempts(policy) as real + 1.0
  {
    if policy.Finite? {
      var r := policy.maxAttempts;
      assert r.Floor as real <= r < r.Floor as real + 1.0;
    }
  }

  /** The attempts within the limit are exactly the allowed ones. */
  lemma AllowedAttempts(policy: RetryPolicy, a: int)
    ensures 1 <= a <= EffectiveAttempts(policy) <==> MayAttempt(policy, a)
  {
    LimitOfPolicy(policy);
  }

  datatype AttemptOutcome = AttemptOutcome(ok: bool, attempts: nat)

  /** The outcome of at most `limit` attempts at task `x`, of which `a` have failed. */
  function RetryFrom(succeeds: (Id, nat) -> bool, x: Id, limit: nat, a: nat): AttemptOutcome
    requires a <= limit
    decreases limit - a
  {
    if a == limit then AttemptOutcome(false, limit)
    else if succeeds(x, a + 1) then AttemptOutcome(true, a + 1)
    else RetryFrom(succeeds, x, limit, a + 1)
  }

  function RetryOutcome(succeeds: (Id, nat) -> bool, x: Id, limit: nat): AttemptOutcome {
    RetryFrom(succeeds, x, limit, 0)
  }

  /** `o` ended on the first successful attempt, or on the last allowed one if none succeeds. */
  ghost predicate FirstSuccessWins(succeeds: (Id, nat) -> bool, x: Id, limit: nat, o: AttemptOutcome) {
    && o.attempts <= limit
    && (forall a: nat :: 1 <= a < o.attempts ==> !succeeds(x, a))
    && (if o.ok then o.attempts >= 1 && succeeds(x, o.attempts)
        else o.attempts == limit && (limit >= 1 ==> !succeeds(x, limit)))
  }

  lemma {:induction false} RetryFromMeaning(succeeds: (Id, nat) -> bool, x: Id, limit: nat, a: nat)
    requires a <= limit && forall b: nat :: 1 <= b <= a ==> !succeeds(x, b)
    ensures FirstSuccessWins(succeeds, x, limit, RetryFrom(succeeds, x, limit, a))
    decreases limit - a
  {
    if a < limit && !succeeds(x, a + 1) {
      RetryFromMeaning(succeeds, x, limit, a + 1);
    }
  }

  /** A task succeeds exactly when some attempt within its limit does. */
  lemma OkIffSomeAttemptSucceeds(succeeds: (Id, nat) -> bool, x: Id, limit: nat)
    ensures RetryOutcome(succeeds, x, limit).ok <==> exists a: nat :: 1 <= a <= limit && succeeds(x, a)
    ensures FirstSuccessWins(succeeds, x, limit, RetryOutcome(succeeds, x, limit))
  {
    RetryFromMeaning(succeeds, x, limit, 0);
    var o := RetryOutcome(succeeds, x, limit);
    if !o.ok {
      forall a: nat | 1 <= a <= limit ensures !succeeds(x, a) {
        assert a < o.attempts || a == limit;
      }
    }
  }

  /** `failures` is the list of attempts reported to the error hook. */
  method RunWithRetry(succeeds: (Id, nat) -> bool, x: Id, maxAttempts: nat)
      returns (outcome: AttemptOutcome, failures: seq<nat>)
    ensures outcome == RetryOutcome(succeeds, x, maxAttempts)
    ensures FirstSuccessWins(succeeds, x, maxAttempts, outcome)
    ensures |failures| == if outcome.ok then outcome.attempts - 1 else outcome.attempts
    ensures forall i :: 0 <= i < |failures| ==> failures[i] == i + 1
  {
    OkIffSomeAttemptSucceeds(succeeds, x, maxAttempts);
    var attempt := 0;
    failures := [];
    while attempt < maxAttempts
      invariant attempt <= maxAttempts && |failures| == attempt
      invariant forall i :: 0 <= i < |failures| ==> failures[i] == i + 1
      invariant RetryOutcome(succeeds, x, maxAttempts) == RetryFrom(succeeds, x, maxAttempts, attempt)
    {
      attempt := attempt + 1;
      if succeeds(x, attempt) {
        return AttemptOutcome(true, attempt), failures;
      }
      failures := failures + [attempt];
    }
    outcome := AttemptOutcome(false, attempt);
  }
}
