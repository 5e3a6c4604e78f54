/** UTF-16 identifiers, the order the planner sorts them in, and the stable sort
    that both the planner and the outcome list go through. */
module Sorting {

  newtype CodeUnit = x: int | 0 <= x < 0x1_0000

  type Id = seq<CodeUnit>

  /** `a` does not sort after `b` when strings are compared code unit by code unit. */
  predicate NotAfter(a: Id, b: Id) {
    a == [] || (b != [] && (a[0] < b[0] || (a[0] == b[0] && NotAfter(a[1..], b[1..]))))
  }

  ghost predicate Sorted(leq: (Id, Id) -> bool, s: seq<Id>) {
    forall i, j :: 0 <= i < j < |s| ==> leq(s[i], s[j])
  }

  predicate NoRepeats(s: seq<Id>) {
    forall i, j :: 0 <= i < j < |s| ==> s[i] != s[j]
  }

  ghost function Elements(s: seq<Id>): set<Id> {
    set x | x in s
  }

  function Insert(leq: (Id, Id) -> bool, x: Id, s: seq<Id>): seq<Id> {
    if s == [] || leq(x, s[0]) then [x] + s else [s[0]] + Insert(leq, x, s[1..])
  }

  /** A stable sort by an arbitrary comparator. */
  function SortBy(leq: (Id, Id) -> bool, s: seq<Id>): seq<Id> {
    if s == [] then [] else Insert(leq, s[0], SortBy(leq, s[1..]))
  }

  lemma {:induction false} InsertAdds(leq: (Id, Id) -> bool, x: Id, s: seq<Id>)
    ensures multiset(Insert(leq, x, s)) == multiset{x} + multiset(s)
  {
    if s != [] && !leq(x, s[0]) {
      InsertAdds(leq, x, s[1..]);
      assert s == [s[0]] + s[1..];
    }
  }

  /** Whatever the comparator answers, the result is a rearrangement of the input. */
  lemma {:induction false} SortByRearranges(leq: (Id, Id) -> bool, s: seq<Id>)
    ensures multiset(SortBy(leq, s)) == multiset(s)
  {
    if s != [] {
      SortByRearranges(leq, s[1..]);
      InsertAdds(leq, s[0], SortBy(leq, s[1..]));
      assert s == [s[0]] + s[1..];
    }
  }

  lemma ConcatAssociative<T>(a: seq<T>, b: seq<T>, c: seq<T>)
    ensures (a + b) + c == a + (b + c)
  {
  }

  // The code-unit order is a total order.

  lemma {:induction false} NotAfterTotal(a: Id, b: Id)
    ensures NotAfter(a, b) || NotAfter(b, a)
  {
    if a != [] && b != [] {
      NotAfterTotal(a[1..], b[1..]);
    }
  }

  lemma {:induction false} NotAfterAntisymmetric(a: Id, b: Id)
    requires NotAfter(a, b) && NotAfter(b, a)
    ensures a == b
  {
    if a != [] && b != [] {
      NotAfterAntisymmetric(a[1..], b[1..]);
      assert a == [a[0]] + a[1..];
    }
  }

  lemma {:induction false} NotAfterTransitive(a: Id, b: Id, c: Id)
    requires NotAfter(a, b) && NotAfter(b, c)
    ensures NotAfter(a, c)
  {
    if a != [] && a[0] == b[0] == c[0] {
      NotAfterTransitive(a[1..], b[1..], c[1..]);
    }
  }

  /** `a` is a prefix of `b`, or has the smaller code unit where they first differ. */
  ghost predicate Precedes(a: Id, b: Id, k: nat) {
    && k <= |a| && k <= |b| && a[..k] == b[..k]
    && (k == |a| || (k < |b| && a[k] < b[k]))
  }

  lemma {:induction false} NotAfterMeaning(a: Id, b: Id)
    ensures NotAfter(a, b) <==> exists k: nat :: Precedes(a, b, k)
  {
    if a == [] {
      assert Precedes(a, b, 0);
    } else if b != [] && a[0] == b[0] {
      NotAfterMeaning(a[1..], b[1..]);
      if k: nat :| Precedes(a[1..], b[1..], k) {
        assert a[..k + 1] == [a[0]] + a[1..][..k] && b[..k + 1] == [b[0]] + b[1..][..k];
        assert Precedes(a, b, k + 1);
      }
      if k: nat :| Precedes(a, b, k) {
        assert k > 0;
        assert a[1..][..k - 1] == a[..k][1..] && b[1..][..k - 1] == b[..k][1..];
        assert Precedes(a[1..], b[1..], k - 1);
      }
    } else if b != [] {
      assert a[0] < b[0] ==> Precedes(a, b, 0);
      forall k: nat | Precedes(a, b, k) ensures a[0] < b[0] {
        if k > 0 { assert a[..k][0] == b[..k][0]; }
      }
    }
  }

  lemma {:induction false} InsertMembers(leq: (Id, Id) -> bool, x: Id, s: seq<Id>)
    ensures forall y :: y in Insert(leq, x, s) <==> y == x || y in s
  {
    if s != [] && !leq(x, s[0]) {
      InsertMembers(leq, x, s[1..]);
      assert s == [s[0]] + s[1..];
    }
  }

  lemma {:induction false} InsertKeepsSorted(x: Id, s: seq<Id>)
    requires Sorted(NotAfter, s)
    ensures Sorted(NotAfter, Insert(NotAfter, x, s))
  {
    if s == [] {
    } else if NotAfter(x, s[0]) {
      forall j | 0 <= j < |s| ensures NotAfter(x, s[j]) {
        if j > 0 { NotAfterTransitive(x, s[0], s[j]); }
      }
    } else {
      NotAfterTotal(x, s[0]);
      InsertKeepsSorted(x, s[1..]);
      InsertMembers(NotAfter, x, s[1..]);
      var r := Insert(NotAfter, x, s[1..]);
      forall j | 0 <= j < |r| ensures NotAfter(s[0], r[j]) {
        assert r[j] in r;
      }
    }
  }

  lemma {:induction false} SortBySorts(s: seq<Id>)
    ensures Sorted(NotAfter, SortBy(NotAfter, s))
  {
    if s != [] {
      SortBySorts(s[1..]);
      InsertKeepsSorted(s[0], SortBy(NotAfter, s[1..]));
    }
  }

  // Sorting by a comparator that need not tell different identifiers apart.

  /** Any two are comparable, and the order is transitive. */
  ghost predicate Consistent(leq: (Id, Id) -> bool) {
    && (forall a, b {:trigger leq(a, b)} :: leq(a, b) || leq(b, a))
    && (forall a, b, c {:trigger leq(a, b), leq(b, c)} :: leq(a, b) && leq(b, c) ==> leq(a, c))
  }

  /** `x` comes before `y` in `s`. */
  ghost predicate ComesBefore(s: seq<Id>, x: Id, y: Id) {
    exists i, j :: 0 <= i < j < |s| && s[i] == x && s[j] == y
  }

  /** Sorted, and equals in the order in which `s` has them. */
  ghost predicate StablySorted(leq: (Id, Id) -> bool, s: seq<Id>, t: seq<Id>) {
    forall i, j :: 0 <= i < j < |t| ==> leq(t[i], t[j]) && (leq(t[j], t[i]) ==> ComesBefore(s, t[i], t[j]))
  }

  lemma BeforeInTail(s: seq<Id>, x: Id, y: Id)
    requires s != []
    ensures ComesBefore(s[1..], x, y) ==> ComesBefore(s, x, y)
    ensures y in s[1..] ==> ComesBefore(s, s[0], y)
  {
    if i, j :| 0 <= i < j < |s[1..]| && s[1..][i] == x && s[1..][j] == y {
      assert s[i + 1] == x && s[j + 1] == y;
    }
    if j :| 0 <= j < |s[1..]| && s[1..][j] == y {
      assert s[j + 1] == y;
    }
  }

  /** Inserting the first of `s` among the sorted others. */
  lemma {:induction false} InsertStable(leq: (Id, Id) -> bool, s: seq<Id>, x: Id, t: seq<Id>)
    requires Consistent(leq) && StablySorted(leq, s, t) && forall y :: y in t ==> ComesBefore(s, x, y)
    ensures StablySorted(leq, s, Insert(leq, x, t))
  {
    if t == [] {
    } else if leq(x, t[0]) {
      var u := [x] + t;
      forall i, j | 0 <= i < j < |u| ensures leq(u[i], u[j]) && (leq(u[j], u[i]) ==> ComesBefore(s, u[i], u[j])) {
        if i == 0 {
          assert u[j] == t[j - 1] && t[j - 1] in t;
          assert j > 1 ==> leq(t[0], t[j - 1]);
        } else {
          assert u[i] == t[i - 1] && u[j] == t[j - 1];
        }
      }
    } else {
      var rest := Insert(leq, x, t[1..]);
      forall i, j | 0 <= i < j < |t[1..]|
        ensures leq(t[1..][i], t[1..][j]) && (leq(t[1..][j], t[1..][i]) ==> ComesBefore(s, t[1..][i], t[1..][j]))
      {
        assert t[1..][i] == t[i + 1] && t[1..][j] == t[j + 1];
      }
      InsertStable(leq, s, x, t[1..]);
      InsertMembers(leq, x, t[1..]);
      assert leq(t[0], x);
      var u := [t[0]] + rest;
      forall i, j | 0 <= i < j < |u| ensures leq(u[i], u[j]) && (leq(u[j], u[i]) ==> ComesBefore(s, u[i], u[j])) {
        assert u[j] == rest[j - 1] && rest[j - 1] in rest;
        if i == 0 {
          if u[j] != x {
            var h :| 0 <= h < |t[1..]| && t[1..][h] == u[j];
            assert t[h + 1] == u[j];
          }
        } else {
          assert u[i] == rest[i - 1];
        }
      }
    }
  }

  /** Whatever consistent comparator is used, the result is sorted by it, and stably so. */
  lemma {:induction false} SortByStable(leq: (Id, Id) -> bool, s: seq<Id>)
    requires Consistent(leq)
    ensures StablySorted(leq, s, SortBy(leq, s))
  {
    if s != [] {
      var t := SortBy(leq, s[1..]);
      SortByStable(leq, s[1..]);
      SortByRearranges(leq, s[1..]);
      SameMembers(s[1..], t);
      forall y | y in t ensures ComesBefore(s, s[0], y) {
        BeforeInTail(s, s[0], y);
      }
      forall i, j | 0 <= i < j < |t| && leq(t[j], t[i]) ensures ComesBefore(s, t[i], t[j]) {
        BeforeInTail(s, t[i], t[j]);
      }
      InsertStable(leq, s, s[0], t);
    }
  }

  // Repetition-free sequences and their rearrangements.

  lemma MultiplicityOfRepeat(s: seq<Id>, i: nat, j: nat)
    requires i < j < |s| && s[i] == s[j]
    ensures multiset(s)[s[i]] >= 2
  {
    assert s == s[..j] + [s[j]] + s[j + 1..];
    assert s[i] in s[..j];
  }

  lemma {:induction false} NoRepeatsMultiplicity(s: seq<Id>, x: Id)
    requires NoRepeats(s)
    ensures multiset(s)[x] <= 1
  {
    if s != [] {
      NoRepeatsMultiplicity(s[1..], x);
      assert s == [s[0]] + s[1..];
      assert s[0] !in s[1..];
    }
  }

  lemma RearrangementNoRepeats(s: seq<Id>, t: seq<Id>)
    requires multiset(s) == multiset(t) && NoRepeats(s)
    ensures NoRepeats(t)
  {
    forall i, j | 0 <= i < j < |t| ensures t[i] != t[j] {
      if t[i] == t[j] {
        MultiplicityOfRepeat(t, i, j);
        NoRepeatsMultiplicity(s, t[i]);
      }
    }
  }

  lemma SameMembers(s: seq<Id>, t: seq<Id>)
    requires multiset(s) == multiset(t)
    ensures forall x :: x in s <==> x in t
  {
    forall x ensures x in s <==> x in t {
      assert x in s <==> x in multiset(s);
      assert x in t <==> x in multiset(t);
    }
  }

  /** What callers know of a sorted list: same members, still repetition-free. */
  lemma SortByFacts(leq: (Id, Id) -> bool, s: seq<Id>)
    ensures forall x :: x in SortBy(leq, s) <==> x in s
    ensures |SortBy(leq, s)| == |s|
    ensures NoRepeats(s) ==> NoRepeats(SortBy(leq, s))
  {
    SortByRearranges(leq, s);
    SameMembers(s, SortBy(leq, s));
    assert |multiset(s)| == |s| && |multiset(SortBy(leq, s))| == |SortBy(leq, s)|;
    if NoRepeats(s) {
      RearrangementNoRepeats(s, SortBy(leq, s));
    }
  }

  /** `b` is `a` with `n` added, if it is to be added. */
  lemma GrowsByOne(a: set<int>, b: set<int>, n: int, added: bool)
    requires n !in a && a <= b && b - a == if added then {n} else {}
    ensures |b| == |a| + if added then 1 else 0
  {
    assert b == a + (b - a);
  }

  lemma {:induction false} ListOf(s: set<Id>) returns (t: seq<Id>)
    ensures NoRepeats(t) && forall x :: x in t <==> x in s
  {
    t := [];
    if s != {} {
      var x :| x in s;
      var rest := ListOf(s - {x});
      t := [x] + rest;
    }
  }

  /** Every finite set has its sorted list. */
  lemma SortedListOf(s: set<Id>) returns (t: seq<Id>)
    ensures Sorted(NotAfter, t) && NoRepeats(t) && forall x :: x in t <==> x in s
  {
    var list := ListOf(s);
    t := SortBy(NotAfter, list);
    SortBySorts(list);
    SortByFacts(NotAfter, list);
  }

  lemma HasMember(t: seq<Id>)
    ensures t != [] ==> exists x :: x in t
  {
    if t != [] {
      assert t[0] in t;
    }
  }

  lemma MembersExist(t: seq<Id>)
    ensures t != [] ==> Elements(t) != {}
  {
    if t != [] {
      assert t[0] in Elements(t);
    }
  }

  /** A sorted repetition-free list is determined by its set of members. */
  lemma {:induction false} SortedListUnique(s: seq<Id>, t: seq<Id>)
    requires Sorted(NotAfter, s) && Sorted(NotAfter, t) && NoRepeats(s) && NoRepeats(t)
    requires forall x :: x in s <==> x in t
    ensures s == t
  {
    if s == [] {
      HasMember(t);
    } else {
      assert s[0] in t && t != [] && t[0] in s;
      if s[0] != t[0] {
        NotAfterAntisymmetric(s[0], t[0]);
      }
      forall x ensures x in s[1..] <==> x in t[1..] {
        assert s == [s[0]] + s[1..] && t == [t[0]] + t[1..];
        assert s[0] !in s[1..] && t[0] !in t[1..];
        assert x in s <==> x == s[0] || x in s[1..];
        assert x in t <==> x == t[0] || x in t[1..];
      }
      SortedListUnique(s[1..], t[1..]);
      assert s == [s[0]] + s[1..] && t == [t[0]] + t[1..];
    }
  }
}
