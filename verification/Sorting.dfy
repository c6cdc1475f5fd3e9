/** ORDER BY: insertion sort under a strict order, and why its result is the only possible one. */
module Sorting {

  /** Irreflexive and transitive. */
  ghost predicate StrictOrder<T(!new)>(lt: (T, T) -> bool) {
    && (forall x :: !lt(x, x))
    && (forall x, y, z :: lt(x, y) && lt(y, z) ==> lt(x, z))
  }

  /** Different elements of the sequence are comparable, and none occurs twice. */
  ghost predicate Comparable<T(!new)>(s: seq<T>, lt: (T, T) -> bool) {
    forall i, j :: 0 <= i < j < |s| ==> lt(s[i], s[j]) || lt(s[j], s[i])
  }

  predicate Sorted<T>(s: seq<T>, lt: (T, T) -> bool) {
    forall i, j :: 0 <= i < j < |s| ==> lt(s[i], s[j])
  }

  function Insert<T>(x: T, s: seq<T>, lt: (T, T) -> bool): seq<T> {
    if s == [] || lt(x, s[0]) then [x] + s else [s[0]] + Insert(x, s[1..], lt)
  }

  function Sort<T>(s: seq<T>, lt: (T, T) -> bool): seq<T> {
    if s == [] then [] else Insert(s[0], Sort(s[1..], lt), lt)
  }

  lemma {:induction false} InsertMembers<T(!new)>(x: T, s: seq<T>, lt: (T, T) -> bool)
    ensures |Insert(x, s, lt)| == |s| + 1
    ensures forall y :: y in Insert(x, s, lt) <==> y == x || y in s
  {
    if s != [] && !lt(x, s[0]) {
      InsertMembers(x, s[1..], lt);
      assert s == [s[0]] + s[1..];
    }
  }

  lemma {:induction false} SortMembers<T(!new)>(s: seq<T>, lt: (T, T) -> bool)
    ensures |Sort(s, lt)| == |s|
    ensures forall y :: y in Sort(s, lt) <==> y in s
  {
    if s != [] {
      SortMembers(s[1..], lt);
      InsertMembers(s[0], Sort(s[1..], lt), lt);
      assert s == [s[0]] + s[1..];
    }
  }

  lemma {:induction false} InsertSorted<T(!new)>(x: T, s: seq<T>, lt: (T, T) -> bool)
    requires StrictOrder(lt) && Sorted(s, lt)
    requires forall i :: 0 <= i < |s| ==> lt(x, s[i]) || lt(s[i], x)
    ensures Sorted(Insert(x, s, lt), lt)
  {
    if s != [] && !lt(x, s[0]) {
      InsertSorted(x, s[1..], lt);
      InsertMembers(x, s[1..], lt);
      var t := Insert(x, s[1..], lt);
      forall j | 0 <= j < |t|
        ensures lt(s[0], t[j])
      {
        assert t[j] in t;
      }
    }
  }

  lemma {:induction false} SortSorted<T(!new)>(s: seq<T>, lt: (T, T) -> bool)
    requires StrictOrder(lt) && Comparable(s, lt)
    ensures Sorted(Sort(s, lt), lt)
  {
    if s != [] {
      SortSorted(s[1..], lt);
      SortMembers(s[1..], lt);
      var t := Sort(s[1..], lt);
      forall i | 0 <= i < |t|
        ensures lt(s[0], t[i]) || lt(t[i], s[0])
      {
        assert t[i] in t;
        var k :| 0 <= k < |s[1..]| && s[1..][k] == t[i];
        assert s[k + 1] == t[i];
      }
      InsertSorted(s[0], t, lt);
    }
  }

  /** Two sorted sequences with the same members are equal. */
  lemma {:induction false} SortedUnique<T(!new)>(a: seq<T>, b: seq<T>, lt: (T, T) -> bool)
    requires StrictOrder(lt) && Sorted(a, lt) && Sorted(b, lt)
    requires forall x :: x in a <==> x in b
    ensures a == b
  {
    assert b == [] || b[0] in b;
    if a != [] {
      assert a[0] in a && a[0] in b;
      assert b[0] in b && b[0] in a;
      HeadsAgree(a, b, lt);
      forall x
        ensures x in a[1..] <==> x in b[1..]
      {
        TailMembers(a, lt, x);
        TailMembers(b, lt, x);
      }
      SortedUnique(a[1..], b[1..], lt);
    }
  }

  lemma HeadsAgree<T(!new)>(a: seq<T>, b: seq<T>, lt: (T, T) -> bool)
    requires StrictOrder(lt) && Sorted(a, lt) && Sorted(b, lt) && a != [] && b != []
    requires a[0] in b && b[0] in a
    ensures a[0] == b[0]
  {
    var i :| 0 <= i < |b| && b[i] == a[0];
    var j :| 0 <= j < |a| && a[j] == b[0];
  }

  lemma TailMembers<T(!new)>(a: seq<T>, lt: (T, T) -> bool, x: T)
    requires StrictOrder(lt) && Sorted(a, lt) && a != []
    ensures x in a[1..] <==> x in a && x != a[0]
  {
    if x in a[1..] {
      var i :| 0 <= i < |a[1..]| && a[1..][i] == x;
      assert lt(a[0], a[i + 1]);
    } else if x in a {
      var i :| 0 <= i < |a| && a[i] == x;
      assert a == [a[0]] + a[1..];
    }
  }

  /** A sorted sequence that holds exactly the members of another up to some point is its prefix. */
  lemma {:induction false} SortedPrefix<T(!new)>(a: seq<T>, b: seq<T>, lt: (T, T) -> bool)
    requires StrictOrder(lt) && Sorted(a, lt) && Sorted(b, lt)
    requires forall x :: x in a ==> x in b
    requires forall x, y :: x in b && y in a && lt(x, y) ==> x in a
    ensures a <= b
  {
    if a != [] {
      assert a[0] in a && a[0] in b;
      var i :| 0 <= i < |b| && b[i] == a[0];
      assert b[0] in b;
      if i > 0 {
        assert lt(b[0], a[0]);
        assert b[0] in a;
      }
      HeadsAgree(a, b, lt);
      forall x
        ensures x in a[1..] ==> x in b[1..]
        ensures forall y :: x in b[1..] && y in a[1..] && lt(x, y) ==> x in a[1..]
      {
        TailMembers(a, lt, x);
        TailMembers(b, lt, x);
      }
      SortedPrefix(a[1..], b[1..], lt);
    }
  }
}
