/** The audit hash chain: scanning a log, and what an accepted log pins down. */
module AuditChain {
  import opened Wrappers
  import opened Sorting
  import opened JoinedText
  import opened AuditEvents
  import opened AuditOrder

  // ----- verification

  datatype Reason = PreviousHashBroken | HashMismatch

  datatype ChainResult = ChainResult(ok: bool, eventsChecked: nat, failureEventId: Option<Text>, reason: Option<Reason>)

  /** What the event at position `i` must name as its predecessor. */
  function Before(events: seq<AuditEvent>, i: nat): Option<Text>
    requires i <= |events|
  {
    if i == 0 then None else events[i - 1].eventHash
  }

  predicate Linked(events: seq<AuditEvent>, i: nat)
    requires i < |events|
  {
    events[i].previousHash == Before(events, i)
  }

  predicate Sealed(hash: Text -> Text, e: AuditEvent) {
    hash(Payload(e)) == OrEmpty(e.eventHash)
  }

  ghost predicate GoodAt(hash: Text -> Text, events: seq<AuditEvent>, i: nat) {
    i < |events| && Linked(events, i) && Sealed(hash, events[i])
  }

  ghost predicate Accepted(hash: Text -> Text, events: seq<AuditEvent>) {
    forall i: nat :: i < |events| ==> GoodAt(hash, events, i)
  }

  ghost predicate FirstViolation(hash: Text -> Text, events: seq<AuditEvent>, i: nat) {
    i < |events| && !GoodAt(hash, events, i) && forall j: nat :: j < i ==> GoodAt(hash, events, j)
  }

  /** The violation at `i`, by its event's id; a broken link is noticed before a bad hash. */
  ghost predicate Reports(events: seq<AuditEvent>, i: nat, failureEventId: Option<Text>, reason: Option<Reason>)
    requires i < |events|
  {
    && failureEventId == Some(events[i].id)
    && reason == Some(if Linked(events, i) then HashMismatch else PreviousHashBroken)
  }

  /** The events that are verified: those of the window, in the order of their timestamps. */
  function Checked(rows: seq<AuditEvent>, from: Option<Text>, to: Option<Text>): seq<AuditEvent> {
    ScanOrder(Selected(rows, from, to))
  }

  /** A bound that is given and not empty keeps out what is earlier, or later, than it. */
  ghost predicate Within(from: Option<Text>, to: Option<Text>, e: AuditEvent) {
    && (from.Some? && from.value != [] ==> NotAfter(from.value, e.createdAt))
    && (to.Some? && to.value != [] ==> NotAfter(e.createdAt, to.value))
  }

  ghost function RowsWithin(rows: seq<AuditEvent>, from: Option<Text>, to: Option<Text>): set<int> {
    set i | 0 <= i < |rows| && Within(from, to, rows[i])
  }

  lemma {:induction false} SelectedCount(rows: seq<AuditEvent>, from: Option<Text>, to: Option<Text>)
    ensures |Selected(rows, from, to)| == |RowsWithin(rows, from, to)|
  {
    if rows == [] {
      assert RowsWithin(rows, from, to) == {};
    } else {
      var n := |rows| - 1;
      SelectedCount(rows[..n], from, to);
      GrowsByOne(RowsWithin(rows[..n], from, to), RowsWithin(rows, from, to), n, Within(from, to, rows[n]));
    }
  }

  lemma {:induction false} PlaceMembers(events: seq<AuditEvent>, e: AuditEvent)
    ensures |Place(events, e)| == |events| + 1
    ensures forall x :: x in Place(events, e) <==> x == e || x in events
  {
    if events != [] {
      var n := |events| - 1;
      PlaceMembers(events[..n], e);
      assert events == events[..n] + [events[n]];
    }
  }

  lemma {:induction false} ScanMembers(rows: seq<AuditEvent>)
    ensures |ScanOrder(rows)| == |rows|
    ensures forall x :: x in ScanOrder(rows) <==> x in rows
  {
    if rows != [] {
      var n := |rows| - 1;
      ScanMembers(rows[..n]);
      PlaceMembers(ScanOrder(rows[..n]), rows[n]);
      assert rows == rows[..n] + [rows[n]];
    }
  }

  /** What is verified are the rows within the window, each of them once. */
  lemma CheckedAreWithin(rows: seq<AuditEvent>, from: Option<Text>, to: Option<Text>)
    ensures |Checked(rows, from, to)| == |RowsWithin(rows, from, to)|
    ensures forall i :: 0 <= i < |Checked(rows, from, to)| ==>
      Checked(rows, from, to)[i] in rows && Within(from, to, Checked(rows, from, to)[i])
  {
    SelectedCount(rows, from, to);
    SelectedMembers(rows, from, to);
    ScanMembers(Selected(rows, from, to));
    forall i | 0 <= i < |Checked(rows, from, to)|
      ensures Checked(rows, from, to)[i] in rows && Within(from, to, Checked(rows, from, to)[i])
    {
      assert Checked(rows, from, to)[i] in Checked(rows, from, to);
    }
  }

  /** Scans the selected and sorted rows; a rejected log names its earliest violating event.
      Only rows within the window are counted and blamed. */
  method VerifyAuditChain(hash: Text -> Text, rows: seq<AuditEvent>, from: Option<Text>, to: Option<Text>)
      returns (r: ChainResult)
    ensures r.ok <==> Accepted(hash, Checked(rows, from, to))
    ensures r.eventsChecked == |Checked(rows, from, to)|
    ensures r.eventsChecked == |RowsWithin(rows, from, to)|
    ensures r.ok ==> r.failureEventId == None && r.reason == None
    ensures !r.ok ==> exists e :: e in rows && Within(from, to, e) && r.failureEventId == Some(e.id)
    ensures !r.ok ==> exists i: nat ::
      FirstViolation(hash, Checked(rows, from, to), i) && Reports(Checked(rows, from, to), i, r.failureEventId, r.reason)
  {
    CheckedAreWithin(rows, from, to);
    var events := ScanOrder(Selected(rows, from, to));
    var ok, failureEventId, reason := true, None, None;
    var previousHash: Option<Text> := None;
    var i := 0;
    while i < |events| && ok
      invariant i <= |events|
      invariant ok ==> previousHash == Before(events, i) && failureEventId == None && reason == None
      invariant ok ==> forall j: nat :: j < i ==> GoodAt(hash, events, j)
      invariant !ok ==> FirstViolation(hash, events, i) && Reports(events, i, failureEventId, reason)
      decreases |events| - i, ok
    {
      var event := events[i];
      if event.previousHash != previousHash {
        ok, failureEventId, reason := false, Some(event.id), Some(PreviousHashBroken);
      } else if hash(Payload(event)) != OrEmpty(event.eventHash) {
        ok, failureEventId, reason := false, Some(event.id), Some(HashMismatch);
      } else {
        assert GoodAt(hash, events, i);
        previousHash := event.eventHash;
        i := i + 1;
      }
    }
    r := ChainResult(ok, |events|, failureEventId, reason);
    if !ok {
      assert events[i] in rows && Within(from, to, events[i]);
    }
  }

  // ----- what acceptance pins down

  lemma TailUnique(a: Text, x: Text, b: Text, y: Text)
    requires NoBar(x) && NoBar(y) && a + [BAR] + x == b + [BAR] + y
    ensures a == b && x == y
  {
    var t := a + [BAR] + x;
    assert t[|a|] == BAR && t[|b|] == BAR;
    assert forall i :: |a| < i < |t| ==> t[i] == x[i - |a| - 1] != BAR;
    assert forall i :: |b| < i < |t| ==> t[i] == y[i - |b| - 1] != BAR;
    assert |a| == |b|;
    assert t[..|a|] == a && t[..|b|] == b;
    assert t[|a| + 1..] == x && t[|b| + 1..] == y;
  }

  /** The hashed content and the predecessor of two events with the same payload agree. */
  lemma SamePayload(a: AuditEvent, b: AuditEvent)
    requires NoBar(OrEmpty(a.previousHash)) && NoBar(OrEmpty(b.previousHash)) && Payload(a) == Payload(b)
    ensures Body(a) == Body(b) && OrEmpty(a.previousHash) == OrEmpty(b.previousHash)
  {
    TailUnique(Body(a), OrEmpty(a.previousHash), Body(b), OrEmpty(b.previousHash));
  }

  lemma AcceptedHash(hash: Text -> Text, events: seq<AuditEvent>, i: nat)
    requires IsDigest(hash) && Accepted(hash, events) && i < |events|
    ensures events[i].eventHash == Some(hash(Payload(events[i]))) && NoBar(OrEmpty(events[i].eventHash))
    ensures NoBar(OrEmpty(events[i].previousHash))
    ensures OrEmpty(events[i].previousHash) == [] <==> i == 0
  {
    assert GoodAt(hash, events, i);
    if i > 0 {
      assert GoodAt(hash, events, i - 1);
    }
  }

  lemma AcceptedPrefix(hash: Text -> Text, events: seq<AuditEvent>, n: nat)
    requires Accepted(hash, events) && n <= |events|
    ensures Accepted(hash, events[..n])
  {
    forall i: nat | i < n ensures GoodAt(hash, events[..n], i) {
      assert GoodAt(hash, events, i);
    }
  }

  /** Two events agree on everything the scan looks at. */
  ghost predicate SameChecked(a: AuditEvent, b: AuditEvent) {
    Body(a) == Body(b) && a.previousHash == b.previousHash && a.eventHash == b.eventHash
  }

  /** Events of accepted logs with the same hash agree, and come first in their logs
      together. */
  lemma SameHashSameEvent(hash: Text -> Text, a: seq<AuditEvent>, i: nat, b: seq<AuditEvent>, j: nat)
    requires IsDigest(hash) && Accepted(hash, a) && Accepted(hash, b) && i < |a| && j < |b|
    requires a[i].eventHash == b[j].eventHash
    ensures SameChecked(a[i], b[j]) && (i == 0 <==> j == 0)
    ensures i > 0 && j > 0 ==> a[i - 1].eventHash == b[j - 1].eventHash
  {
    AcceptedHash(hash, a, i);
    AcceptedHash(hash, b, j);
    SamePayload(a[i], b[j]);
    assert GoodAt(hash, a, i) && GoodAt(hash, b, j);
    if i > 0 && j > 0 {
      AcceptedHash(hash, a, i - 1);
      AcceptedHash(hash, b, j - 1);
    }
  }

  /** Two accepted, non-empty logs that end in the same hash are the same log: equally
      long, with the same hashed content and the same hashes, event by event. */
  lemma {:induction false} LastHashDeterminesLog(hash: Text -> Text, a: seq<AuditEvent>, b: seq<AuditEvent>)
    requires IsDigest(hash) && Accepted(hash, a) && Accepted(hash, b)
    requires a != [] && b != [] && a[|a| - 1].eventHash == b[|b| - 1].eventHash
    ensures |a| == |b| && forall i :: 0 <= i < |a| ==> SameChecked(a[i], b[i])
    decreases |a|
  {
    var m, n := |a| - 1, |b| - 1;
    SameHashSameEvent(hash, a, m, b, n);
    if m > 0 {
      AcceptedPrefix(hash, a, m);
      AcceptedPrefix(hash, b, n);
      LastHashDeterminesLog(hash, a[..m], b[..n]);
      forall i | 0 <= i < |a| ensures SameChecked(a[i], b[i]) {
        if i < m {
          assert SameChecked(a[..m][i], b[..n][i]);
        }
      }
    }
  }

  /** And it pins down no more than that: the id and the acting user may differ freely. */
  lemma AcceptanceIgnoresTheRest(hash: Text -> Text, a: seq<AuditEvent>, b: seq<AuditEvent>)
    requires |a| == |b| && forall i :: 0 <= i < |a| ==> SameChecked(a[i], b[i])
    ensures Accepted(hash, a) <==> Accepted(hash, b)
  {
    forall i: nat | i < |a| ensures GoodAt(hash, a, i) <==> GoodAt(hash, b, i) {
      assert i > 0 ==> SameChecked(a[i - 1], b[i - 1]);
      assert SameChecked(a[i], b[i]);
    }
  }

  /** No two positions of an accepted log carry the same hash. */
  lemma HashesDistinct(hash: Text -> Text, events: seq<AuditEvent>, i: nat, j: nat)
    requires IsDigest(hash) && Accepted(hash, events) && i < |events| && j < |events|
    requires events[i].eventHash == events[j].eventHash
    ensures i == j
  {
    AcceptedPrefix(hash, events, i + 1);
    AcceptedPrefix(hash, events, j + 1);
    LastHashDeterminesLog(hash, events[..i + 1], events[..j + 1]);
  }

  // ----- windows

  /** Verifying a window of an accepted log accepts it if and only if the window takes in
      the first event, or no event at all. */
  lemma WindowAcceptedExactly(hash: Text -> Text, rows: seq<AuditEvent>, from: Option<Text>, to: Option<Text>)
    requires IsDigest(hash) && Accepted(hash, ScanOrder(rows))
    ensures Accepted(hash, Checked(rows, from, to)) <==>
      Checked(rows, from, to) == [] || (rows != [] && InWindow(from, to, ScanOrder(rows)[0]))
  {
    ScanChronological(rows);
    ScanSelected(rows, from, to);
    WindowOfAccepted(hash, ScanOrder(rows), from, to);
  }

  lemma WindowOfAccepted(hash: Text -> Text, log: seq<AuditEvent>, from: Option<Text>, to: Option<Text>)
    requires IsDigest(hash) && Accepted(hash, log) && Chronological(log)
    ensures var window := Selected(log, from, to);
      Accepted(hash, window) <==> window == [] || (log != [] && InWindow(from, to, log[0]))
  {
    var window := Selected(log, from, to);
    SelectedMembers(log, from, to);
    if window != [] {
      assert window[0] in window;
      var k :| 0 <= k < |log| && log[k] == window[0];
      AcceptedHash(hash, log, k);
      if InWindow(from, to, log[0]) {
        WindowPrefix(log, from, to);
        AcceptedPrefix(hash, log, |window|);
        assert log[..|window|] == window;
      } else {
        assert k > 0 && window[0].previousHash != None;
        assert !GoodAt(hash, window, 0);
      }
    }
  }
}
