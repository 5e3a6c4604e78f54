/** Appending to the audit hash chain: when the log stays acceptable. */
module AuditAppend {
  import opened Wrappers
  import opened Sorting
  import opened JoinedText
  import opened AuditEvents
  import opened AuditOrder
  import opened AuditChain

  /** The event the tail lookup finds: of the latest ones, the first in the log. */
  function LatestIndex(events: seq<AuditEvent>): (i: nat)
    requires events != []
    ensures i < |events|
  {
    if |events| == 1 then 0
    else
      var n := |events| - 1;
      var i := LatestIndex(events[..n]);
      if NotAfter(events[n].createdAt, events[i].createdAt) then i else n
  }

  function LatestEventHash(events: seq<AuditEvent>): Option<Text> {
    if events == [] then None else events[LatestIndex(events)].eventHash
  }

  /** `draft` with its predecessor's hash and its own filled in. */
  function Emitted(hash: Text -> Text, events: seq<AuditEvent>, draft: AuditEvent): AuditEvent {
    var chained := draft.(previousHash := LatestEventHash(events));
    chained.(eventHash := Some(hash(Payload(chained))))
  }

  /** The log's last timestamp is its own alone. */
  ghost predicate LastStandsAlone(events: seq<AuditEvent>) {
    |events| > 1 ==> events[|events| - 2].createdAt != events[|events| - 1].createdAt
  }

  lemma {:induction false} LatestIsLatest(events: seq<AuditEvent>)
    requires events != []
    ensures forall j :: 0 <= j < |events| ==> NotAfter(events[j].createdAt, events[LatestIndex(events)].createdAt)
  {
    var n := |events| - 1;
    if n == 0 {
      NotAfterTotal(events[0].createdAt, events[0].createdAt);
    } else {
      var i := LatestIndex(events[..n]);
      LatestIsLatest(events[..n]);
      var latest := events[LatestIndex(events)].createdAt;
      NotAfterTotal(events[n].createdAt, events[i].createdAt);
      NotAfterTotal(latest, latest);
      forall j | 0 <= j < |events| ensures NotAfter(events[j].createdAt, latest) {
        if j < n {
          assert events[..n][j] == events[j];
          NotAfterTransitive(events[j].createdAt, events[i].createdAt, latest);
        }
      }
    }
  }

  lemma LatestStamp(events: seq<AuditEvent>)
    requires Chronological(events) && events != []
    ensures events[LatestIndex(events)].createdAt == events[|events| - 1].createdAt
  {
    var i, n := LatestIndex(events), |events| - 1;
    LatestIsLatest(events);
    if i < n {
      NotAfterAntisymmetric(events[i].createdAt, events[n].createdAt);
    }
  }

  lemma LatestIsLast(events: seq<AuditEvent>)
    requires Chronological(events) && events != []
    ensures LatestIndex(events) == |events| - 1 <==> LastStandsAlone(events)
  {
    var n := |events| - 1;
    if n > 0 {
      LatestStamp(events[..n]);
      var before, last := events[n - 1].createdAt, events[n].createdAt;
      assert events[LatestIndex(events[..n])].createdAt == before;
      NotAfterTotal(last, last);
      if NotAfter(last, before) { NotAfterAntisymmetric(last, before); }
    }
  }

  // ----- the tail of the stored rows

  /** The event the tail lookup finds. */
  function Latest(events: seq<AuditEvent>): AuditEvent
    requires events != []
  {
    events[LatestIndex(events)]
  }

  lemma LatestOneMore(events: seq<AuditEvent>, e: AuditEvent)
    requires events != []
    ensures Latest(events + [e]) == if NotAfter(e.createdAt, Latest(events).createdAt) then Latest(events) else e
  {
    assert (events + [e])[..|events|] == events;
  }

  /** Placing an event among sorted ones and appending it lead to the same tail. */
  lemma {:induction false} LatestPlaced(events: seq<AuditEvent>, e: AuditEvent)
    requires events != []
    ensures Place(events, e) != []
    ensures Latest(Place(events, e)) == if NotAfter(e.createdAt, Latest(events).createdAt) then Latest(events) else e
  {
    var n := |events| - 1;
    var last := events[n];
    LatestOneMore(events, e);
    if !NotAfter(last.createdAt, e.createdAt) {
      NotAfterTotal(last.createdAt, e.createdAt);
      assert events == events[..n] + [last];
      if n == 0 {
        assert Place(events[..n], e) == [e];
        LatestOneMore([e], last);
      } else {
        LatestPlaced(events[..n], e);
        LatestOneMore(Place(events[..n], e), last);
        LatestOneMore(events[..n], last);
        LatestBetween(last, e, Latest(events[..n]));
      }
    }
  }

  /** Which of three events comes out latest, when `e` is before `last`. */
  lemma LatestBetween(last: AuditEvent, e: AuditEvent, prior: AuditEvent)
    requires NotAfter(e.createdAt, last.createdAt)
    ensures NotAfter(last.createdAt, prior.createdAt) ==> NotAfter(e.createdAt, prior.createdAt)
  {
    if NotAfter(last.createdAt, prior.createdAt) {
      NotAfterTransitive(e.createdAt, last.createdAt, prior.createdAt);
    }
  }

  /** The tail lookup does not depend on the order in which rows of different timestamps are
      stored. */
  lemma {:induction false} LatestScanned(rows: seq<AuditEvent>)
    requires rows != []
    ensures ScanOrder(rows) != [] && Latest(ScanOrder(rows)) == Latest(rows)
  {
    var n := |rows| - 1;
    assert rows == rows[..n] + [rows[n]];
    if n > 0 {
      LatestScanned(rows[..n]);
      LatestPlaced(ScanOrder(rows[..n]), rows[n]);
      LatestOneMore(rows[..n], rows[n]);
    }
  }

  // ----- one append

  /** No event of the sorted log is later than the draft. */
  ghost predicate NotEarlier(events: seq<AuditEvent>, draft: AuditEvent) {
    events != [] ==> NotAfter(events[|events| - 1].createdAt, draft.createdAt)
  }

  /** The same tail hash for rows and sorted log. */
  lemma TailScanned(rows: seq<AuditEvent>)
    ensures LatestEventHash(ScanOrder(rows)) == LatestEventHash(rows)
  {
    if rows != [] {
      LatestScanned(rows);
    }
  }

  lemma EmittedSealed(hash: Text -> Text, rows: seq<AuditEvent>, draft: AuditEvent)
    ensures var e := Emitted(hash, rows, draft);
      && Sealed(hash, e) && e.previousHash == LatestEventHash(rows)
      && draft == e.(previousHash := draft.previousHash, eventHash := draft.eventHash)
  {
  }

  /** An accepted log that ends in `e` is an accepted log with a rightly linked event after it. */
  lemma AcceptedOneMore(hash: Text -> Text, events: seq<AuditEvent>, e: AuditEvent)
    requires Sealed(hash, e)
    ensures Accepted(hash, events + [e]) <==> Accepted(hash, events) && e.previousHash == Before(events, |events|)
  {
    var log, n := events + [e], |events|;
    forall i: nat | i < n ensures GoodAt(hash, log, i) <==> GoodAt(hash, events, i) {
      assert i > 0 ==> log[i - 1] == events[i - 1];
    }
    assert GoodAt(hash, log, n) <==> e.previousHash == Before(log, n);
  }

  /** The tail is the last event just when that one's timestamp is its own alone. */
  lemma TailIsLast(hash: Text -> Text, events: seq<AuditEvent>)
    requires IsDigest(hash) && Accepted(hash, events) && Chronological(events)
    ensures LatestEventHash(events) == Before(events, |events|) <==> LastStandsAlone(events)
  {
    if events != [] {
      LatestIsLast(events);
      if LatestEventHash(events) == Before(events, |events|) {
        HashesDistinct(hash, events, LatestIndex(events), |events| - 1);
      }
    }
  }

  /** An event that goes in before the tail it names breaks the chain. */
  lemma EarlierNeverAccepted(hash: Text -> Text, events: seq<AuditEvent>, e: AuditEvent)
    requires IsDigest(hash) && Chronological(events) && !NotEarlier(events, e)
    requires e.previousHash == LatestEventHash(events)
    ensures !Accepted(hash, Place(events, e))
  {
    var k := PlaceSplits(events, e);
    var log, j := Place(events, e), LatestIndex(events);
    LatestIsLatest(events);
    LatestStamp(events);
    assert k <= j && log[k] == e && log[j + 1] == events[j];
    if Accepted(hash, log) {
      AcceptedHash(hash, log, k);
      AcceptedHash(hash, log, j + 1);
      assert GoodAt(hash, log, k);
      if k > 0 {
        HashesDistinct(hash, log, k - 1, j + 1);
      }
    }
  }

  /** Appending gives an accepted log if and only if the log was accepted, its last timestamp
      is its own alone, and the draft is not stamped earlier. */
  lemma EmitAcceptedExactly(hash: Text -> Text, rows: seq<AuditEvent>, draft: AuditEvent)
    requires IsDigest(hash)
    ensures var log := ScanOrder(rows);
      Accepted(hash, ScanOrder(rows + [Emitted(hash, rows, draft)])) <==>
        Accepted(hash, log) && LastStandsAlone(log) && NotEarlier(log, draft)
  {
    var log, e := ScanOrder(rows), Emitted(hash, rows, draft);
    ScanOneMore(rows, e);
    ScanChronological(rows);
    TailScanned(rows);
    EmittedSealed(hash, rows, draft);
    if NotEarlier(log, draft) {
      assert Place(log, e) == log + [e];
      AcceptedOneMore(hash, log, e);
      if Accepted(hash, log) {
        TailIsLast(hash, log);
      }
    } else {
      EarlierNeverAccepted(hash, log, e);
    }
  }

  // ----- any number of appends

  /** The rows after appending all drafts to an empty log. */
  function EmitAll(hash: Text -> Text, drafts: seq<AuditEvent>): seq<AuditEvent> {
    if drafts == [] then []
    else
      var n := |drafts| - 1;
      var rows := EmitAll(hash, drafts[..n]);
      rows + [Emitted(hash, rows, drafts[n])]
  }

  /** The timestamp after position `i` is later, or the same if it is the last one. */
  ghost predicate StepRight(drafts: seq<AuditEvent>, i: nat) {
    i + 1 < |drafts| ==>
      && NotAfter(drafts[i].createdAt, drafts[i + 1].createdAt)
      && (i + 2 < |drafts| ==> drafts[i].createdAt != drafts[i + 1].createdAt)
  }

  /** Timestamps never go back, and no two but the last two are equal. */
  ghost predicate RisingButLast(drafts: seq<AuditEvent>) {
    forall i: nat {:trigger StepRight(drafts, i)} :: StepRight(drafts, i)
  }

  ghost predicate Rising(drafts: seq<AuditEvent>) {
    RisingButLast(drafts) && LastStandsAlone(drafts)
  }

  lemma {:induction false} EmitAllStamps(hash: Text -> Text, drafts: seq<AuditEvent>)
    ensures |EmitAll(hash, drafts)| == |drafts|
    ensures forall i :: 0 <= i < |drafts| ==> EmitAll(hash, drafts)[i].createdAt == drafts[i].createdAt
  {
    if drafts != [] {
      EmitAllStamps(hash, drafts[..|drafts| - 1]);
    }
  }

  /** Timestamps that never go back from one to the next never go back at all. */
  lemma {:induction false} StepwiseChronological(events: seq<AuditEvent>)
    requires forall i :: 0 < i < |events| ==> NotAfter(events[i - 1].createdAt, events[i].createdAt)
    ensures Chronological(events)
  {
    if |events| > 1 {
      var n := |events| - 1;
      var before := events[..n];
      forall i | 0 < i < n ensures NotAfter(before[i - 1].createdAt, before[i].createdAt) {
        assert before[i - 1] == events[i - 1] && before[i] == events[i];
      }
      StepwiseChronological(before);
      forall i | 0 <= i < n ensures NotAfter(events[i].createdAt, events[n].createdAt) {
        if i < n - 1 {
          assert NotAfter(before[i].createdAt, before[n - 1].createdAt);
          NotAfterTransitive(events[i].createdAt, events[n - 1].createdAt, events[n].createdAt);
        }
      }
    }
  }

  /** What the next append finds when all has gone well: the rows are scanned as stored. */
  lemma RisingRows(hash: Text -> Text, drafts: seq<AuditEvent>, next: AuditEvent)
    requires RisingButLast(drafts)
    ensures var log := ScanOrder(EmitAll(hash, drafts));
      && (LastStandsAlone(log) <==> LastStandsAlone(drafts))
      && (NotEarlier(log, next) <==> NotEarlier(drafts, next))
  {
    var rows := EmitAll(hash, drafts);
    EmitAllStamps(hash, drafts);
    forall i | 0 < i < |rows| ensures NotAfter(rows[i - 1].createdAt, rows[i].createdAt) {
      assert StepRight(drafts, i - 1);
    }
    StepwiseChronological(rows);
    ScanSorted(rows);
  }

  /** The log of any number of appends is accepted if and only if the timestamps of the
      drafts never go back and no two of them but the last two are equal. */
  lemma {:induction false} EmittedLogAcceptedExactly(hash: Text -> Text, drafts: seq<AuditEvent>)
    requires IsDigest(hash)
    ensures Accepted(hash, ScanOrder(EmitAll(hash, drafts))) <==> RisingButLast(drafts)
  {
    if drafts != [] {
      var n := |drafts| - 1;
      var before, next := drafts[..n], drafts[n];
      EmittedLogAcceptedExactly(hash, before);
      EmitAcceptedExactly(hash, EmitAll(hash, before), next);
      assert before + [next] == drafts;
      if RisingButLast(before) {
        RisingRows(hash, before, next);
        if LastStandsAlone(before) && NotEarlier(before, next) { RisingExtends(before, next); }
      }
      if RisingButLast(drafts) { RisingShrinks(before, next); }
    }
  }

  lemma RisingExtends(before: seq<AuditEvent>, next: AuditEvent)
    requires RisingButLast(before) && LastStandsAlone(before) && NotEarlier(before, next)
    ensures RisingButLast(before + [next])
  {
    forall i: nat ensures StepRight(before + [next], i) {
      assert StepRight(before, i);
    }
  }

  lemma RisingShrinks(before: seq<AuditEvent>, next: AuditEvent)
    requires RisingButLast(before + [next])
    ensures RisingButLast(before) && LastStandsAlone(before) && NotEarlier(before, next)
  {
    var drafts, n := before + [next], |before|;
    forall i: nat ensures StepRight(before, i) {
      assert StepRight(drafts, i);
    }
    if n > 0 { assert StepRight(drafts, n - 1); }
    if n > 1 { assert StepRight(drafts, n - 2); }
  }

  /** One process, whose clock advances with every reading, always leaves an accepted log. */
  lemma OneProcessAccepted(hash: Text -> Text, drafts: seq<AuditEvent>)
    requires IsDigest(hash) && Rising(drafts)
    ensures Accepted(hash, ScanOrder(EmitAll(hash, drafts)))
  {
    EmittedLogAcceptedExactly(hash, drafts);
  }

  /** A clock that starts again breaks it: after two appends, a third one that is stamped
      like the first is scanned before the event it names. */
  lemma RestartBreaks(hash: Text -> Text, first: AuditEvent, second: AuditEvent, again: AuditEvent)
    requires IsDigest(hash) && Rising([first, second]) && again.createdAt == first.createdAt
    ensures Accepted(hash, ScanOrder(EmitAll(hash, [first, second])))
    ensures !Accepted(hash, ScanOrder(EmitAll(hash, [first, second, again])))
  {
    EmittedLogAcceptedExactly(hash, [first, second]);
    EmittedLogAcceptedExactly(hash, [first, second, again]);
    assert StepRight([first, second], 0);
    if RisingButLast([first, second, again]) {
      assert StepRight([first, second, again], 1);
      NotAfterAntisymmetric(first.createdAt, second.createdAt);
    }
  }

  /** So do clocks that agree: of three processes that each append one event at the same
      reading, the third links past the second. */
  lemma ThirdCopyBreaks(hash: Text -> Text, one: AuditEvent, two: AuditEvent, three: AuditEvent)
    requires IsDigest(hash) && one.createdAt == two.createdAt == three.createdAt
    ensures Accepted(hash, ScanOrder(EmitAll(hash, [one, two])))
    ensures !Accepted(hash, ScanOrder(EmitAll(hash, [one, two, three])))
  {
    NotAfterTotal(one.createdAt, one.createdAt);
    forall i: nat ensures StepRight([one, two], i) {
    }
    EmittedLogAcceptedExactly(hash, [one, two]);
    EmittedLogAcceptedExactly(hash, [one, two, three]);
    assert !StepRight([one, two, three], 0);
  }
}
