/** Texts joined with a vertical bar, as batch keys and audit payloads are. */
module JoinedText {
  import opened Sorting

  type Text = seq<CodeUnit>

  const BAR: CodeUnit := 0x7C

  predicate NoBar(t: Text) {
    BAR !in t
  }

  function Bars(t: Text): nat {
    multiset(t)[BAR]
  }

  function Join(parts: seq<Text>): Text {
    if parts == [] then []
    else if |parts| == 1 then parts[0]
    else parts[0] + [BAR] + Join(parts[1..])
  }

  lemma JoinStep(parts: seq<Text>)
    requires |parts| > 1
    ensures Join(parts) == parts[0] + [BAR] + Join(parts[1..])
  {
  }

  /** A bar inside a part might as well separate two parts. */
  lemma BarsAreAlike(a: Text, b: Text, m: Text, tail: Text)
    ensures a + [BAR] + ((b + [BAR] + m) + [BAR] + tail) == (a + [BAR] + b) + [BAR] + (m + [BAR] + tail)
  {
    var ab, bm := a + [BAR] + b, b + [BAR] + m;
    var l, r := a + [BAR] + (bm + [BAR] + tail), ab + [BAR] + (m + [BAR] + tail);
    assert |l| == |r|;
    forall i | 0 <= i < |l| ensures l[i] == r[i] {
    }
  }

  lemma FirstBar(t: Text) returns (a: Text, b: Text)
    requires !NoBar(t)
    ensures t == a + [BAR] + b
  {
    var i :| 0 <= i < |t| && t[i] == BAR;
    a, b := t[..i], t[i + 1..];
  }

  function SumBars(parts: seq<Text>): nat {
    if parts == [] then 0 else Bars(parts[0]) + SumBars(parts[1..])
  }

  /** Joining adds one bar between each two parts. */
  lemma {:induction false} JoinBars(parts: seq<Text>)
    requires parts != []
    ensures Bars(Join(parts)) == |parts| - 1 + SumBars(parts)
  {
    if |parts| > 1 {
      JoinBars(parts[1..]);
    } else {
      assert SumBars(parts[1..]) == 0;
    }
  }

  lemma NoBarIffNone(t: Text)
    ensures NoBar(t) <==> Bars(t) == 0
  {
    assert BAR in t <==> BAR in multiset(t);
  }

  lemma {:induction false} NoBarsInParts(parts: seq<Text>)
    ensures SumBars(parts) == 0 <==> forall i :: 0 <= i < |parts| ==> NoBar(parts[i])
  {
    if parts != [] {
      NoBarIffNone(parts[0]);
      NoBarsInParts(parts[1..]);
      if SumBars(parts) == 0 {
        forall i | 0 <= i < |parts| ensures NoBar(parts[i]) {
          if i > 0 { assert parts[i] == parts[1..][i - 1]; }
        }
      } else if SumBars(parts[1..]) != 0 {
        var i :| 0 <= i < |parts[1..]| && !NoBar(parts[1..][i]);
        assert !NoBar(parts[i + 1]);
      }
    }
  }

  /** A bar-free head ends at the first bar. */
  lemma HeadUnique(a: Text, x: Text, b: Text, y: Text)
    requires NoBar(a) && NoBar(b) && a + [BAR] + x == b + [BAR] + y
    ensures a == b && x == y
  {
    var t := a + [BAR] + x;
    assert t[|a|] == BAR && t[|b|] == BAR;
    assert forall i :: 0 <= i < |a| ==> t[i] == a[i];
    assert forall i :: 0 <= i < |b| ==> t[i] == b[i];
    assert |a| == |b|;
    assert t[..|a|] == a && t[..|b|] == b;
    assert t[|a| + 1..] == x && t[|b| + 1..] == y;
  }

  /** Bar-free parts can be read back from their join. */
  lemma {:induction false} JoinInjective(p: seq<Text>, q: seq<Text>)
    requires |p| == |q| && Join(p) == Join(q)
    requires forall i :: 0 <= i < |p| ==> NoBar(p[i])
    ensures p == q
  {
    if p != [] {
      JoinBars(p);
      JoinBars(q);
      NoBarsInParts(p);
      NoBarsInParts(q);
      BarFreePartsEqual(p, q);
    }
  }

  lemma {:induction false} BarFreePartsEqual(p: seq<Text>, q: seq<Text>)
    requires |p| == |q| > 0 && Join(p) == Join(q)
    requires forall i :: 0 <= i < |p| ==> NoBar(p[i]) && NoBar(q[i])
    ensures p == q
  {
    if |p| > 1 {
      HeadUnique(p[0], Join(p[1..]), q[0], Join(q[1..]));
      BarFreePartsEqual(p[1..], q[1..]);
    }
    assert p == [p[0]] + p[1..] && q == [q[0]] + q[1..];
  }

  // ----- when a join can be read back

  ghost predicate AllBarFree(parts: seq<Text>) {
    forall i :: 0 <= i < |parts| ==> NoBar(parts[i])
  }

  lemma {:induction false} JoinAppend(parts: seq<Text>, x: Text)
    requires parts != []
    ensures Join(parts + [x]) == Join(parts) + [BAR] + x
  {
    assert (parts + [x])[1..] == parts[1..] + [x];
    if |parts| > 1 {
      JoinAppend(parts[1..], x);
      JoinStep(parts + [x]);
      assert Join(parts + [x]) == parts[0] + [BAR] + (Join(parts[1..]) + [BAR] + x);
    } else {
      JoinStep(parts + [x]);
    }
  }

  lemma RegroupTail(a: Text, b: Text, x: Text, y: Text, tail: Text)
    requires a + [BAR] + b == x + [BAR] + y
    ensures a + [BAR] + (b + [BAR] + tail) == x + [BAR] + (y + [BAR] + tail)
  {
    assert a + [BAR] + (b + [BAR] + tail) == (a + [BAR] + b) + [BAR] + tail;
    assert x + [BAR] + (y + [BAR] + tail) == (x + [BAR] + y) + [BAR] + tail;
  }

  /** Cutting two neighbours at another bar gives another list with the same join. */
  lemma {:induction false} Recut(parts: seq<Text>, i: nat, x: Text, y: Text)
    requires i + 1 < |parts| && x + [BAR] + y == parts[i] + [BAR] + parts[i + 1]
    ensures Join(parts[i := x][i + 1 := y]) == Join(parts)
  {
    var other := parts[i := x][i + 1 := y];
    JoinStep(parts);
    JoinStep(other);
    if i > 0 {
      Recut(parts[1..], i - 1, x, y);
      assert other[1..] == parts[1..][i - 1 := x][i := y];
    } else if |parts| == 2 {
      assert parts[1..] == [parts[1]] && other[1..] == [y];
    } else {
      JoinStep(parts[1..]);
      JoinStep(other[1..]);
      assert other[1..][1..] == parts[1..][1..];
      RegroupTail(parts[0], parts[1], x, y, Join(parts[1..][1..]));
    }
  }

  /** A list with a bar in some part is not the only one with its join. */
  lemma OtherCut(parts: seq<Text>) returns (other: seq<Text>)
    requires |parts| > 1 && !AllBarFree(parts)
    ensures |other| == |parts| && Join(other) == Join(parts) && other != parts
  {
    var i :| 0 <= i < |parts| && !NoBar(parts[i]);
    var a, b := FirstBar(parts[i]);
    if i + 1 < |parts| {
      var y := b + [BAR] + parts[i + 1];
      assert a + [BAR] + y == parts[i] + [BAR] + parts[i + 1];
      Recut(parts, i, a, y);
      other := parts[i := a][i + 1 := y];
      assert |other[i]| < |parts[i]|;
    } else {
      var x := parts[i - 1] + [BAR] + a;
      assert x + [BAR] + b == parts[i - 1] + [BAR] + parts[i];
      Recut(parts, i - 1, x, b);
      other := parts[i - 1 := x][i := b];
      assert |other[i]| < |parts[i]|;
    }
  }

  /** Two or more parts can be read back from their join if and only if none has a bar. */
  lemma JoinIdentifiesExactly(parts: seq<Text>)
    requires |parts| > 1
    ensures AllBarFree(parts) <==>
      forall other: seq<Text> :: |other| == |parts| && Join(other) == Join(parts) ==> other == parts
  {
    if AllBarFree(parts) {
      forall other: seq<Text> | |other| == |parts| && Join(other) == Join(parts) ensures other == parts {
        JoinInjective(parts, other);
      }
    } else {
      var other := OtherCut(parts);
    }
  }
}
