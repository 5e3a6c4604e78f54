/** Audit events, what is hashed of them, and what is asked of the hash. */
module AuditEvents {
  import opened Wrappers
  import opened Sorting
  import opened JoinedText

  datatype AuditEvent = AuditEvent(
    id: Text,
    actorUserId: Option<Text>,
    tenantId: Text,
    action: Text,
    subjectType: Option<Text>,
    subjectId: Option<Text>,
    metadata: Text,
    createdAt: Text,
    previousHash: Option<Text>,
    eventHash: Option<Text>)

  function OrEmpty(t: Option<Text>): Text {
    if t.Some? then t.value else []
  }

  /** The hashed fields; `metadata` is its JSON text. */
  function Fields(e: AuditEvent): seq<Text> {
    [e.tenantId, e.action, OrEmpty(e.subjectType), OrEmpty(e.subjectId), e.metadata, e.createdAt]
  }

  function Body(e: AuditEvent): Text {
    Join(Fields(e))
  }

  function Payload(e: AuditEvent): Text {
    Body(e) + [BAR] + OrEmpty(e.previousHash)
  }

  /** A hash that never collides; its texts are non-empty and without bars, as hexadecimal
      digests are. */
  ghost predicate IsDigest(hash: Text -> Text) {
    && (forall x, y :: hash(x) == hash(y) ==> x == y)
    && (forall x :: hash(x) != [] && NoBar(hash(x)))
  }

  // ----- digests exist

  function High(c: CodeUnit): CodeUnit {
    (0x100 + c as int / 0x100) as CodeUnit
  }

  function Low(c: CodeUnit): CodeUnit {
    (0x100 + c as int % 0x100) as CodeUnit
  }

  lemma Digits(c: CodeUnit, d: CodeUnit)
    ensures High(c) != BAR && Low(c) != BAR
    ensures High(c) == High(d) && Low(c) == Low(d) ==> c == d
  {
  }

  /** Every code unit written with two code units, neither of them a bar. */
  function Spelled(t: Text): Text {
    if t == [] then [] else [High(t[0]), Low(t[0])] + Spelled(t[1..])
  }

  lemma {:induction false} SpelledBarFree(t: Text)
    ensures NoBar(Spelled(t))
  {
    if t != [] {
      SpelledBarFree(t[1..]);
      Digits(t[0], t[0]);
    }
  }

  lemma {:induction false} SpelledInjective(x: Text, y: Text)
    requires Spelled(x) == Spelled(y)
    ensures x == y
  {
    if x != [] && y != [] {
      var a, b := Spelled(x), Spelled(y);
      assert a[0] == High(x[0]) && a[1] == Low(x[0]) && b[0] == High(y[0]) && b[1] == Low(y[0]);
      Digits(x[0], y[0]);
      assert a[2..] == Spelled(x[1..]) && b[2..] == Spelled(y[1..]);
      SpelledInjective(x[1..], y[1..]);
      assert x == [x[0]] + x[1..] && y == [y[0]] + y[1..];
    }
  }

  /** What is asked of a digest can be had. */
  lemma DigestExists() returns (hash: Text -> Text)
    ensures IsDigest(hash)
  {
    hash := x => [0x30] + Spelled(x);
    forall x, y | hash(x) == hash(y) ensures x == y {
      assert hash(x)[1..] == Spelled(x) && hash(y)[1..] == Spelled(y);
      SpelledInjective(x, y);
    }
    forall x ensures hash(x) != [] && NoBar(hash(x)) {
      SpelledBarFree(x);
    }
  }
}
