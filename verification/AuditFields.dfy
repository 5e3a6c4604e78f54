/** Which fields of an audit log its last hash pins down. Hashing joins the fields with bars,
    so the question is when the joined text can be cut in only one way. */
module AuditFields {
  import opened Wrappers
  import opened Sorting
  import opened JoinedText
  import opened AuditEvents
  import opened AuditChain

  // ----- JSON texts

  const QUOTE: CodeUnit := 0x22
  const BACKSLASH: CodeUnit := 0x5C

  datatype ScanState = Outside | Inside | Escaped | Bad

  function ScanUnit(s: ScanState, c: CodeUnit): ScanState {
    match s
    case Outside => if c == QUOTE then Inside else if c == BAR || c == BACKSLASH then Bad else Outside
    case Inside => if c == QUOTE then ScanState.Outside else if c == BACKSLASH then Escaped else Inside
    case Escaped => if c == BAR then Bad else Inside
    case Bad => Bad
  }

  function Scan(s: ScanState, t: Text): ScanState
    decreases |t|
  {
    if t == [] then s else Scan(ScanUnit(s, t[0]), t[1..])
  }

  /** String literals are closed, bars and backslashes occur only within them, and a bar is
      never escaped. All JSON texts are like that. */
  predicate QuotesClose(t: Text) {
    Scan(Outside, t) == Outside
  }

  lemma {:induction false} ScanConcat(s: ScanState, a: Text, b: Text)
    ensures Scan(s, a + b) == Scan(Scan(s, a), b)
    decreases |a|
  {
    if a == [] {
      assert a + b == b;
    } else {
      assert (a + b)[1..] == a[1..] + b;
      ScanConcat(ScanUnit(s, a[0]), a[1..], b);
    }
  }

  lemma {:induction false} BadStays(t: Text)
    ensures Scan(Bad, t) == Bad
  {
    if t != [] {
      BadStays(t[1..]);
    }
  }

  /** No text is well quoted both from outside and from inside a string literal. */
  lemma {:induction false} NeverBoth(t: Text)
    ensures Scan(Outside, t) != Outside || Scan(Inside, t) != Outside
  {
    if t != [] {
      NeverBoth(t[1..]);
      BadStays(t[1..]);
    }
  }

  /** What follows a bar in a JSON text is not a JSON text. */
  lemma NotAfterBar(a: Text, b: Text)
    requires QuotesClose(a + [BAR] + b)
    ensures !QuotesClose(b)
  {
    ScanConcat(Outside, a + [BAR], b);
    ScanConcat(Outside, a, [BAR]);
    assert Scan(Scan(Outside, a), [BAR]) == ScanUnit(Scan(Outside, a), BAR);
    BadStays(b);
    NeverBoth(b);
  }

  // ----- one event

  /** Metadata is a JSON text and timestamps have no bars. */
  ghost predicate Lawful(e: AuditEvent) {
    QuotesClose(e.metadata) && NoBar(e.createdAt)
  }

  /** The fields that callers choose as they like. */
  function Heads(e: AuditEvent): seq<Text> {
    [e.tenantId, e.action, OrEmpty(e.subjectType), OrEmpty(e.subjectId)]
  }

  ghost predicate PlainFields(e: AuditEvent) {
    AllBarFree(Heads(e))
  }

  lemma BodySplits(e: AuditEvent)
    ensures Body(e) == Join(Heads(e)) + [BAR] + e.metadata + [BAR] + e.createdAt
  {
    JoinAppend(Heads(e), e.metadata);
    JoinAppend(Heads(e) + [e.metadata], e.createdAt);
    assert Heads(e) + [e.metadata] + [e.createdAt] == Fields(e);
  }

  /** A shorter last part is what follows some bar of the longer one. */
  lemma ShorterTail(x: Text, m: Text, x': Text, m': Text) returns (y: Text)
    requires x + [BAR] + m == x' + [BAR] + m' && |m'| < |m|
    ensures m == y + [BAR] + m'
  {
    var t := x + [BAR] + m;
    var k := |m| - |m'| - 1;
    y := m[..k];
    assert m == t[|x| + 1..];
    assert m' == t[|x'| + 1..] && t[|x'|] == BAR;
    assert m[k] == t[|x'|] && m[k + 1..] == m';
  }

  lemma SameMetadata(x: Text, m: Text, x': Text, m': Text)
    requires x + [BAR] + m == x' + [BAR] + m' && QuotesClose(m) && QuotesClose(m')
    ensures x == x' && m == m'
  {
    if |m'| < |m| {
      var y := ShorterTail(x, m, x', m');
      NotAfterBar(y, m');
    } else if |m| < |m'| {
      var y := ShorterTail(x', m', x, m);
      NotAfterBar(y, m);
    }
    var t := x + [BAR] + m;
    assert t[..|x|] == x && t[..|x'|] == x' && t[|x| + 1..] == m && t[|x'| + 1..] == m';
  }

  /** With plain fields on one side, equal hashed content means equal fields. */
  lemma SameBodyFields(e: AuditEvent, other: AuditEvent)
    requires Lawful(e) && Lawful(other) && PlainFields(e) && Body(e) == Body(other)
    ensures Fields(e) == Fields(other)
  {
    BodySplits(e);
    BodySplits(other);
    TailUnique(Join(Heads(e)) + [BAR] + e.metadata, e.createdAt, Join(Heads(other)) + [BAR] + other.metadata, other.createdAt);
    SameMetadata(Join(Heads(e)), e.metadata, Join(Heads(other)), other.metadata);
    JoinInjective(Heads(e), Heads(other));
    assert Fields(e) == Heads(e) + [e.metadata, e.createdAt];
    assert Fields(other) == Heads(other) + [other.metadata, other.createdAt];
  }

  /** A bar in a field that callers choose leaves room for another event: other fields, same
      hashed content, same metadata, timestamp and hashes. */
  lemma OtherFields(e: AuditEvent) returns (other: AuditEvent)
    requires !PlainFields(e)
    ensures Body(other) == Body(e) && Fields(other) != Fields(e)
    ensures other == e.(tenantId := other.tenantId, action := other.action,
                        subjectType := other.subjectType, subjectId := other.subjectId)
  {
    var heads := OtherCut(Heads(e));
    other := e.(tenantId := heads[0], action := heads[1], subjectType := Some(heads[2]), subjectId := Some(heads[3]));
    assert Heads(other) == heads;
    BodySplits(e);
    BodySplits(other);
    assert Fields(e)[..4] == Heads(e) && Fields(other)[..4] == Heads(other);
  }

  /** Up to missing and empty subjects, the hashed content of an event stands for one
      combination of fields if and only if tenant, action and subject have no bar in them,
      whatever the metadata holds. */
  lemma TextFieldsIdentifiedExactly(e: AuditEvent)
    requires Lawful(e)
    ensures PlainFields(e) <==>
      forall other :: Lawful(other) && Body(other) == Body(e) ==> Fields(other) == Fields(e)
  {
    if PlainFields(e) {
      forall other | Lawful(other) && Body(other) == Body(e) ensures Fields(other) == Fields(e) {
        SameBodyFields(e, other);
      }
    } else {
      var other := OtherFields(e);
    }
  }

  /** The stored fields agree, missing and empty subjects told apart. */
  ghost predicate SameFields(a: AuditEvent, b: AuditEvent) {
    && a.tenantId == b.tenantId && a.action == b.action
    && a.subjectType == b.subjectType && a.subjectId == b.subjectId
    && a.metadata == b.metadata && a.createdAt == b.createdAt
  }

  /** The subject's type and id are present and not empty. */
  ghost predicate NamesSubject(e: AuditEvent) {
    OrEmpty(e.subjectType) != [] && OrEmpty(e.subjectId) != []
  }

  /** Nothing else has the hashed content of such an event. */
  ghost predicate Unambiguous(e: AuditEvent) {
    PlainFields(e) && NamesSubject(e)
  }

  lemma FieldsApart(a: AuditEvent, b: AuditEvent)
    ensures Fields(a) == Fields(b) && NamesSubject(a) ==> SameFields(a, b)
    ensures SameFields(a, b) ==> Fields(a) == Fields(b)
  {
    var f, g := Fields(a), Fields(b);
    if f == g {
      assert f[0] == g[0] && f[1] == g[1] && f[2] == g[2] && f[3] == g[3] && f[4] == g[4] && f[5] == g[5];
    }
  }

  /** A missing subject is hashed like an empty one. */
  function OtherEmpty(t: Option<Text>): Option<Text> {
    if t == None then Some([]) else None
  }

  /** An event that is not unambiguous has a double: other fields, same hashed content, same
      timestamp, metadata and hashes. */
  lemma Double(e: AuditEvent) returns (other: AuditEvent)
    requires !Unambiguous(e)
    ensures Body(other) == Body(e) && !SameFields(other, e)
    ensures other == e.(tenantId := other.tenantId, action := other.action,
                        subjectType := other.subjectType, subjectId := other.subjectId)
  {
    if !PlainFields(e) {
      other := OtherFields(e);
      FieldsApart(other, e);
    } else if OrEmpty(e.subjectType) == [] {
      other := e.(subjectType := OtherEmpty(e.subjectType));
      assert Fields(other) == Fields(e);
    } else {
      other := e.(subjectId := OtherEmpty(e.subjectId));
      assert Fields(other) == Fields(e);
    }
  }

  /** The hashed content of an event stands for one combination of stored fields if and only
      if tenant, action and subject have no bar in them and the subject is named. */
  lemma FieldsIdentifiedExactly(e: AuditEvent)
    requires Lawful(e)
    ensures Unambiguous(e) <==>
      forall other :: Lawful(other) && Body(other) == Body(e) ==> SameFields(other, e)
  {
    if Unambiguous(e) {
      forall other | Lawful(other) && Body(other) == Body(e) ensures SameFields(other, e) {
        SameBodyFields(e, other);
        FieldsApart(e, other);
      }
    } else {
      var other := Double(e);
    }
  }

  /** Over arbitrary texts, not only JSON texts and timestamps, it does so if and only if no
      field at all has a bar. */
  lemma TextsIdentifiedExactly(e: AuditEvent)
    ensures AllBarFree(Fields(e)) <==> forall other :: Body(other) == Body(e) ==> Fields(other) == Fields(e)
  {
    if AllBarFree(Fields(e)) {
      forall other | Body(other) == Body(e) ensures Fields(other) == Fields(e) {
        JoinInjective(Fields(e), Fields(other));
      }
    } else {
      var f := OtherCut(Fields(e));
      var other := e.(tenantId := f[0], action := f[1], subjectType := Some(f[2]), subjectId := Some(f[3]),
                      metadata := f[4], createdAt := f[5]);
      assert Fields(other) == f;
    }
  }

  // ----- whole logs

  ghost predicate LawfulLog(events: seq<AuditEvent>) {
    forall i :: 0 <= i < |events| ==> Lawful(events[i])
  }

  ghost predicate UnambiguousLog(events: seq<AuditEvent>) {
    forall i :: 0 <= i < |events| ==> Unambiguous(events[i])
  }

  ghost predicate PlainLog(events: seq<AuditEvent>) {
    forall i :: 0 <= i < |events| ==> PlainFields(events[i])
  }

  ghost predicate SameHashes(a: AuditEvent, b: AuditEvent) {
    a.previousHash == b.previousHash && a.eventHash == b.eventHash
  }

  /** Two logs agree on every stored field that is hashed, and on every hash. */
  ghost predicate SameLog(a: seq<AuditEvent>, b: seq<AuditEvent>) {
    |a| == |b| && forall i :: 0 <= i < |a| ==> SameFields(a[i], b[i]) && SameHashes(a[i], b[i])
  }

  /** Two logs agree likewise, except that missing and empty subjects count as the same. */
  ghost predicate SameTextLog(a: seq<AuditEvent>, b: seq<AuditEvent>) {
    |a| == |b| && forall i :: 0 <= i < |a| ==> Fields(a[i]) == Fields(b[i]) && SameHashes(a[i], b[i])
  }

  /** An accepted log that ends in the same hash as `a`. */
  ghost predicate Rival(hash: Text -> Text, a: seq<AuditEvent>, b: seq<AuditEvent>) {
    && a != [] && b != [] && Accepted(hash, b) && LawfulLog(b)
    && a[|a| - 1].eventHash == b[|b| - 1].eventHash
  }

  lemma PlainLogPinned(hash: Text -> Text, a: seq<AuditEvent>, b: seq<AuditEvent>)
    requires IsDigest(hash) && Accepted(hash, a) && LawfulLog(a) && PlainLog(a) && Rival(hash, a, b)
    ensures SameTextLog(a, b)
  {
    LastHashDeterminesLog(hash, a, b);
    forall i | 0 <= i < |a| ensures Fields(a[i]) == Fields(b[i]) && SameHashes(a[i], b[i]) {
      assert SameChecked(a[i], b[i]);
      SameBodyFields(a[i], b[i]);
    }
  }

  /** Replacing one event by another with the same hashed content gives another accepted log
      with the same last hash. */
  lemma Replaced(hash: Text -> Text, a: seq<AuditEvent>, i: nat, other: AuditEvent)
    requires Accepted(hash, a) && LawfulLog(a) && i < |a|
    requires Lawful(other) && Body(other) == Body(a[i]) && SameHashes(other, a[i])
    ensures Rival(hash, a, a[i := other])
  {
    var b := a[i := other];
    forall j | 0 <= j < |a| ensures SameChecked(a[j], b[j]) {
    }
    AcceptanceIgnoresTheRest(hash, a, b);
  }

  /** The last hash of an accepted log pins down every stored field that is hashed, event by
      event, if and only if every event names its subject and has no bar in tenant, action
      and subject. */
  lemma LogPinnedExactly(hash: Text -> Text, a: seq<AuditEvent>)
    requires IsDigest(hash) && a != [] && Accepted(hash, a) && LawfulLog(a)
    ensures UnambiguousLog(a) <==> forall b :: Rival(hash, a, b) ==> SameLog(a, b)
  {
    if UnambiguousLog(a) {
      forall b | Rival(hash, a, b) ensures SameLog(a, b) {
        PlainLogPinned(hash, a, b);
        forall i | 0 <= i < |a| ensures SameFields(a[i], b[i]) {
          FieldsApart(a[i], b[i]);
        }
      }
    } else {
      var i :| 0 <= i < |a| && !Unambiguous(a[i]);
      var other := Double(a[i]);
      Replaced(hash, a, i, other);
      assert !SameFields(a[i], a[i := other][i]);
    }
  }

  /** Up to missing and empty subjects it does so if and only if there is no such bar. */
  lemma LogTextPinnedExactly(hash: Text -> Text, a: seq<AuditEvent>)
    requires IsDigest(hash) && a != [] && Accepted(hash, a) && LawfulLog(a)
    ensures PlainLog(a) <==> forall b :: Rival(hash, a, b) ==> SameTextLog(a, b)
  {
    if PlainLog(a) {
      forall b | Rival(hash, a, b) ensures SameTextLog(a, b) {
        PlainLogPinned(hash, a, b);
      }
    } else {
      var i :| 0 <= i < |a| && !PlainFields(a[i]);
      var other := OtherFields(a[i]);
      Replaced(hash, a, i, other);
      assert Fields(a[i]) != Fields(a[i := other][i]);
    }
  }
}
