/** Batch policies, requests and the compatibility key that groups them. */
module BatchTypes {
  import opened JoinedText

  datatype BatchMode = Disabled | Enabled

  datatype BatchPolicy = BatchPolicy(
    mode: BatchMode,
    maxBatchSize: int,
    maxWaitMs: nat,
    supportedWorkloads: seq<Text>,
    supportedProviders: seq<Text>,
    supportedModels: seq<Text>,
    bypass: bool)

  /** A request with its execution context; `schema` is the fingerprint of its output schema. */
  datatype Request = Request(id: nat, provider: Text, model: Text, workloadType: Text, schema: Text)

  /** The active policy, replaced as a whole. */
  class BatchPolicyStore {
    var policy: BatchPolicy

    constructor (initial: BatchPolicy)
      ensures policy == initial
    {
      policy := initial;
    }

    method Configure(next: BatchPolicy)
      modifies this
      ensures policy == next
    {
      policy := next;
    }
  }

  /** How many entries dispatch a batch. */
  function SizeBound(p: BatchPolicy): nat {
    if p.maxBatchSize < 1 then 1 else p.maxBatchSize
  }

  function KeyParts(r: Request): seq<Text> {
    [r.provider, r.model, r.workloadType, r.schema]
  }

  function BatchKey(r: Request): Text {
    Join(KeyParts(r))
  }

  predicate BatchEligible(p: BatchPolicy, r: Request) {
    && (p.supportedWorkloads != [] ==> r.workloadType in p.supportedWorkloads)
    && (p.supportedProviders != [] ==> r.provider in p.supportedProviders)
    && (p.supportedModels != [] ==> r.model in p.supportedModels)
  }

  /** Two requests may share a batch. */
  predicate Compatible(a: Request, b: Request) {
    a.provider == b.provider && a.model == b.model && a.workloadType == b.workloadType && a.schema == b.schema
  }

  predicate BarFree(r: Request) {
    NoBar(r.provider) && NoBar(r.model) && NoBar(r.workloadType)
  }

  lemma KeyOf(r: Request)
    ensures BatchKey(r) == r.provider + [BAR] + (r.model + [BAR] + (r.workloadType + [BAR] + r.schema))
  {
    var p := KeyParts(r);
    assert p[1..] == [r.model, r.workloadType, r.schema];
    assert p[1..][1..] == [r.workloadType, r.schema];
    assert p[1..][1..][1..] == [r.schema];
    JoinStep(p);
    JoinStep(p[1..]);
    JoinStep(p[1..][1..]);
  }

  /** Equal keys mean compatible requests when one of them has no bar in its parts. */
  lemma SameKeyCompatible(a: Request, b: Request)
    requires BarFree(a) && NoBar(a.schema) && BatchKey(a) == BatchKey(b)
    ensures Compatible(a, b)
  {
    var p, q := KeyParts(a), KeyParts(b);
    JoinInjective(p, q);
    assert p[0] == q[0] && p[1] == q[1] && p[2] == q[2] && p[3] == q[3];
  }

  /** Moving the first bar of a part across the separator gives an incompatible request
      with the same key. */
  lemma BarCollides(r: Request) returns (other: Request)
    requires !BarFree(r)
    ensures BatchKey(other) == BatchKey(r) && !Compatible(other, r) && other.schema == r.schema
  {
    var tail := r.workloadType + [BAR] + r.schema;
    if !NoBar(r.provider) {
      var a, b := FirstBar(r.provider);
      other := r.(provider := a, model := b + [BAR] + r.model);
      BarsAreAlike(a, b, r.model, tail);
    } else if !NoBar(r.model) {
      var a, b := FirstBar(r.model);
      other := r.(model := a, workloadType := b + [BAR] + r.workloadType);
      BarsAreAlike(a, b, r.workloadType, r.schema);
    } else {
      var a, b := FirstBar(r.workloadType);
      other := r.(model := r.model + [BAR] + a, workloadType := b);
      BarsAreAlike(r.model, a, b, r.schema);
    }
    KeyOf(r);
    KeyOf(other);
  }

  /** Having the same key means being compatible exactly for requests whose provider, model and
      workload type contain no bar (fingerprints never do). */
  lemma KeyIdentifiesExactly(r: Request)
    requires NoBar(r.schema)
    ensures BarFree(r) <==>
      forall other: Request :: NoBar(other.schema) ==> (BatchKey(other) == BatchKey(r) <==> Compatible(other, r))
  {
    if BarFree(r) {
      forall other: Request ensures BatchKey(other) == BatchKey(r) <==> Compatible(other, r) {
        if BatchKey(other) == BatchKey(r) {
          SameKeyCompatible(r, other);
        }
      }
    } else {
      var other := BarCollides(r);
    }
  }
}
