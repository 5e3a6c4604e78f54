/** The order in which a log is scanned: the stored rows, sorted by timestamp, rows with the
    same timestamp in the order in which they are stored; and windows on a log. */
module AuditOrder {
  import opened Wrappers
  import opened Sorting
  import opened JoinedText
  import opened AuditEvents

  ghost predicate Chronological(events: seq<AuditEvent>) {
    forall i, j :: 0 <= i < j < |events| ==> NotAfter(events[i].createdAt, events[j].createdAt)
  }

  /** `e` in its place among sorted events: after everything that is not later. */
  function Place(events: seq<AuditEvent>, e: AuditEvent): seq<AuditEvent> {
    if events == [] then [e]
    else
      var n := |events| - 1;
      if NotAfter(events[n].createdAt, e.createdAt) then events + [e] else Place(events[..n], e) + [events[n]]
  }

  /** A stable sort by timestamp. */
  function ScanOrder(rows: seq<AuditEvent>): seq<AuditEvent> {
    if rows == [] then [] else Place(ScanOrder(rows[..|rows| - 1]), rows[|rows| - 1])
  }

  lemma ScanOneMore(rows: seq<AuditEvent>, e: AuditEvent)
    ensures ScanOrder(rows + [e]) == Place(ScanOrder(rows), e)
  {
    assert (rows + [e])[..|rows|] == rows;
  }

  /** Placing splits the events at one position, and goes last just when nothing is later. */
  lemma {:induction false} PlaceSplits(events: seq<AuditEvent>, e: AuditEvent) returns (k: nat)
    requires Chronological(events)
    ensures k <= |events| && Place(events, e) == events[..k] + [e] + events[k..]
    ensures forall i :: 0 <= i < k ==> NotAfter(events[i].createdAt, e.createdAt)
    ensures forall i :: k <= i < |events| ==> !NotAfter(events[i].createdAt, e.createdAt)
  {
    k := |events|;
    if events != [] {
      var n := |events| - 1;
      if NotAfter(events[n].createdAt, e.createdAt) {
        forall i | 0 <= i < n ensures NotAfter(events[i].createdAt, e.createdAt) {
          NotAfterTransitive(events[i].createdAt, events[n].createdAt, e.createdAt);
        }
        assert events[..k] + [e] + events[k..] == events + [e];
      } else {
        k := PlaceSplits(events[..n], e);
        assert events[..n][..k] == events[..k] && events[..n][k..] + [events[n]] == events[k..];
      }
    }
  }

  lemma PlaceChronological(events: seq<AuditEvent>, e: AuditEvent)
    requires Chronological(events)
    ensures Chronological(Place(events, e))
  {
    var k := PlaceSplits(events, e);
    forall i | k <= i < |events| ensures NotAfter(e.createdAt, events[i].createdAt) {
      NotAfterTotal(events[i].createdAt, e.createdAt);
    }
  }

  lemma {:induction false} ScanChronological(rows: seq<AuditEvent>)
    ensures Chronological(ScanOrder(rows))
  {
    if rows != [] {
      ScanChronological(rows[..|rows| - 1]);
      PlaceChronological(ScanOrder(rows[..|rows| - 1]), rows[|rows| - 1]);
    }
  }

  /** The events with timestamp `t`, in order. */
  function Stamped(events: seq<AuditEvent>, t: Text): seq<AuditEvent> {
    if events == [] then []
    else
      var n := |events| - 1;
      if events[n].createdAt == t then Stamped(events[..n], t) + [events[n]] else Stamped(events[..n], t)
  }

  lemma {:induction false} PlaceStable(events: seq<AuditEvent>, e: AuditEvent, t: Text)
    ensures Stamped(Place(events, e), t) == if e.createdAt == t then Stamped(events, t) + [e] else Stamped(events, t)
  {
    if events != [] {
      var n := |events| - 1;
      if NotAfter(events[n].createdAt, e.createdAt) {
        assert (events + [e])[..n + 1] == events;
      } else {
        PlaceStable(events[..n], e, t);
        NotAfterTotal(e.createdAt, e.createdAt);
        assert (Place(events[..n], e) + [events[n]])[..|Place(events[..n], e)|] == Place(events[..n], e);
      }
    }
  }

  lemma {:induction false} ScanStable(rows: seq<AuditEvent>, t: Text)
    ensures Stamped(ScanOrder(rows), t) == Stamped(rows, t)
  {
    if rows != [] {
      var n := |rows| - 1;
      ScanStable(rows[..n], t);
      PlaceStable(ScanOrder(rows[..n]), rows[n], t);
    }
  }

  lemma {:induction false} StampedMembers(events: seq<AuditEvent>, t: Text)
    ensures forall e :: e in Stamped(events, t) <==> e in events && e.createdAt == t
  {
    if events != [] {
      var n := |events| - 1;
      StampedMembers(events[..n], t);
      assert events == events[..n] + [events[n]];
    }
  }

  /** A sorted list of events is determined by the events of each timestamp, in order: the
      scan order is the only stable sort of the rows. */
  lemma {:induction false} StableSortUnique(a: seq<AuditEvent>, b: seq<AuditEvent>)
    requires Chronological(a) && Chronological(b) && forall t :: Stamped(a, t) == Stamped(b, t)
    ensures a == b
  {
    if a == [] || b == [] {
      NoneStamped(a, b);
      NoneStamped(b, a);
    } else {
      var m, n := |a| - 1, |b| - 1;
      SameLastStamp(a, b);
      SameLastStamp(b, a);
      NotAfterAntisymmetric(a[m].createdAt, b[n].createdAt);
      var last := a[m].createdAt;
      assert Stamped(a, last)[|Stamped(a, last)| - 1] == a[m];
      assert Stamped(b, last)[|Stamped(b, last)| - 1] == b[n];
      assert a[m] == b[n];
      forall t ensures Stamped(a[..m], t) == Stamped(b[..n], t) {
        assert Stamped(a, t) == Stamped(b, t);
        if t == last {
          assert Stamped(a[..m], t) == Stamped(a, t)[..|Stamped(a, t)| - 1];
          assert Stamped(b[..n], t) == Stamped(b, t)[..|Stamped(b, t)| - 1];
        }
      }
      StableSortUnique(a[..m], b[..n]);
      assert a == a[..m] + [a[m]] && b == b[..n] + [b[n]];
    }
  }

  lemma NoneStamped(a: seq<AuditEvent>, b: seq<AuditEvent>)
    requires forall t :: Stamped(a, t) == Stamped(b, t)
    ensures a == [] ==> b == []
  {
    if b != [] {
      var t := b[0].createdAt;
      StampedMembers(a, t);
      StampedMembers(b, t);
      assert b[0] in b && Stamped(a, t) == Stamped(b, t);
    }
  }

  lemma SameLastStamp(a: seq<AuditEvent>, b: seq<AuditEvent>)
    requires Chronological(b) && a != [] && b != [] && forall t :: Stamped(a, t) == Stamped(b, t)
    ensures NotAfter(a[|a| - 1].createdAt, b[|b| - 1].createdAt)
  {
    var e := a[|a| - 1];
    SameMember(a, b, e);
    var i :| 0 <= i < |b| && b[i] == e;
    NotAfterTotal(e.createdAt, e.createdAt);
  }

  lemma SameMember(a: seq<AuditEvent>, b: seq<AuditEvent>, e: AuditEvent)
    requires e in a && Stamped(a, e.createdAt) == Stamped(b, e.createdAt)
    ensures e in b
  {
    StampedMembers(a, e.createdAt);
    StampedMembers(b, e.createdAt);
  }

  /** Rows that are stored in the order of their timestamps are scanned as they are stored. */
  lemma ScanSorted(rows: seq<AuditEvent>)
    requires Chronological(rows)
    ensures ScanOrder(rows) == rows
  {
    ScanChronological(rows);
    forall t ensures Stamped(ScanOrder(rows), t) == Stamped(rows, t) {
      ScanStable(rows, t);
    }
    StableSortUnique(ScanOrder(rows), rows);
  }

  // ----- windows

  /** The event is selected; a missing or empty bound selects everything on its side. */
  predicate InWindow(from: Option<Text>, to: Option<Text>, e: AuditEvent) {
    && (OrEmpty(from) != [] ==> NotAfter(from.value, e.createdAt))
    && (OrEmpty(to) != [] ==> NotAfter(e.createdAt, to.value))
  }

  function Selected(events: seq<AuditEvent>, from: Option<Text>, to: Option<Text>): seq<AuditEvent> {
    if events == [] then []
    else
      var n := |events| - 1;
      if InWindow(from, to, events[n]) then Selected(events[..n], from, to) + [events[n]]
      else Selected(events[..n], from, to)
  }

  lemma SelectedOneMore(events: seq<AuditEvent>, e: AuditEvent, from: Option<Text>, to: Option<Text>)
    ensures Selected(events + [e], from, to)
      == if InWindow(from, to, e) then Selected(events, from, to) + [e] else Selected(events, from, to)
  {
    assert (events + [e])[..|events|] == events;
  }

  lemma {:induction false} SelectedMembers(events: seq<AuditEvent>, from: Option<Text>, to: Option<Text>)
    ensures forall e :: e in Selected(events, from, to) <==> e in events && InWindow(from, to, e)
  {
    if events != [] {
      var n := |events| - 1;
      SelectedMembers(events[..n], from, to);
      assert events == events[..n] + [events[n]];
    }
  }

  lemma {:induction false} PlaceSelected(events: seq<AuditEvent>, e: AuditEvent, from: Option<Text>, to: Option<Text>)
    requires Chronological(events)
    ensures Selected(Place(events, e), from, to)
      == if InWindow(from, to, e) then Place(Selected(events, from, to), e) else Selected(events, from, to)
  {
    if events != [] {
      var n := |events| - 1;
      var last := events[n];
      if NotAfter(last.createdAt, e.createdAt) {
        SelectedOneMore(events, e, from, to);
        PlaceLast(events, e, from, to);
      } else {
        PlaceSelected(events[..n], e, from, to);
        SelectedOneMore(Place(events[..n], e), last, from, to);
        PlaceBefore(Selected(events[..n], from, to), e, last);
      }
    }
  }

  lemma PlaceBefore(events: seq<AuditEvent>, e: AuditEvent, last: AuditEvent)
    ensures !NotAfter(last.createdAt, e.createdAt) ==> Place(events + [last], e) == Place(events, e) + [last]
  {
    assert (events + [last])[..|events|] == events;
  }

  lemma PlaceLast(events: seq<AuditEvent>, e: AuditEvent, from: Option<Text>, to: Option<Text>)
    requires Chronological(events) && events != [] && NotAfter(events[|events| - 1].createdAt, e.createdAt)
    ensures Place(Selected(events, from, to), e) == Selected(events, from, to) + [e]
  {
    var s := Selected(events, from, to);
    if s != [] {
      SelectedMembers(events, from, to);
      assert s[|s| - 1] in s;
      var i :| 0 <= i < |events| && events[i] == s[|s| - 1];
      var last := events[|events| - 1];
      if i < |events| - 1 {
        NotAfterTransitive(events[i].createdAt, last.createdAt, e.createdAt);
      }
    }
  }

  /** Selecting before sorting is selecting after sorting. */
  lemma {:induction false} ScanSelected(rows: seq<AuditEvent>, from: Option<Text>, to: Option<Text>)
    ensures ScanOrder(Selected(rows, from, to)) == Selected(ScanOrder(rows), from, to)
  {
    if rows != [] {
      var n := |rows| - 1;
      var before := rows[..n];
      ScanSelected(before, from, to);
      ScanChronological(before);
      PlaceSelected(ScanOrder(before), rows[n], from, to);
      ScanOneMore(Selected(before, from, to), rows[n]);
    }
  }

  /** A window that takes in the first of the sorted events takes in a prefix of them. */
  lemma {:induction false} WindowPrefix(events: seq<AuditEvent>, from: Option<Text>, to: Option<Text>)
    requires Chronological(events) && events != [] && InWindow(from, to, events[0])
    ensures Selected(events, from, to) <= events
  {
    var n := |events| - 1;
    if InWindow(from, to, events[n]) {
      AllSelected(events, from, to);
    } else if n > 0 {
      WindowPrefix(events[..n], from, to);
    }
  }

  lemma WindowBetween(from: Option<Text>, to: Option<Text>, first: AuditEvent, e: AuditEvent, last: AuditEvent)
    requires InWindow(from, to, first) && InWindow(from, to, last)
    requires (e == first || NotAfter(first.createdAt, e.createdAt)) && NotAfter(e.createdAt, last.createdAt)
    ensures InWindow(from, to, e)
  {
    if OrEmpty(from) != [] && e != first {
      NotAfterTransitive(from.value, first.createdAt, e.createdAt);
    }
    if OrEmpty(to) != [] {
      NotAfterTransitive(e.createdAt, last.createdAt, to.value);
    }
  }

  lemma {:induction false} AllSelected(events: seq<AuditEvent>, from: Option<Text>, to: Option<Text>)
    requires Chronological(events) && events != []
    requires InWindow(from, to, events[0]) && InWindow(from, to, events[|events| - 1])
    ensures Selected(events, from, to) == events
  {
    var n := |events| - 1;
    if n > 0 {
      WindowBetween(from, to, events[0], events[n - 1], events[n]);
      AllSelected(events[..n], from, to);
    }
    assert events == events[..n] + [events[n]];
  }
}
