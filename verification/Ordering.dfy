/** Listing a finite set in increasing order, for any order on its elements. */
module Ordering {
  ghost predicate Orders<T(!new)>(less: (T, T) -> bool, s: set<T>) {
    && (forall x, y :: x in s && y in s ==> x == y || less(x, y) || less(y, x))
    && (forall x, y :: x in s && y in s && less(x, y) ==> !less(y, x))
    && (forall x, y, z :: x in s && y in s && z in s && less(x, y) && less(y, z) ==> less(x, z))
  }

  ghost predicate IsLeast<T(!new)>(less: (T, T) -> bool, m: T, s: set<T>) {
    m in s && forall x :: x in s ==> x == m || less(m, x)
  }

  lemma {:induction false} LeastExists<T(!new)>(less: (T, T) -> bool, s: set<T>)
    requires s != {} && Orders(less, s)
    ensures exists m :: IsLeast(less, m, s)
    decreases |s|
  {
    var x :| x in s;
    if s == {x} {
      assert IsLeast(less, x, s);
    } else {
      LeastExists(less, s - {x});
      var m :| IsLeast(less, m, s - {x});
      assert IsLeast(less, if less(x, m) then x else m, s);
    }
  }

  lemma LeastIsUnique<T(!new)>(less: (T, T) -> bool, a: T, b: T, s: set<T>)
    requires Orders(less, s) && IsLeast(less, a, s) && IsLeast(less, b, s)
    ensures a == b
  {
    assert a in s && b in s;
  }

  // The elements of a set, least first.
  ghost function Sorted<T(!new)>(less: (T, T) -> bool, s: set<T>): seq<T>
    requires Orders(less, s)
    decreases |s|
  {
    if s == {} then [] else
    LeastExists(less, s);
    var m :| IsLeast(less, m, s);
    [m] + Sorted(less, s - {m})
  }

  lemma SortedFrom<T(!new)>(less: (T, T) -> bool, m: T, s: set<T>)
    requires Orders(less, s) && IsLeast(less, m, s)
    ensures Sorted(less, s) == [m] + Sorted(less, s - {m})
  {
    var k :| IsLeast(less, k, s) && Sorted(less, s) == [k] + Sorted(less, s - {k});
    LeastIsUnique(less, k, m, s);
  }

  function Insert<T>(less: (T, T) -> bool, x: T, xs: seq<T>): seq<T>
    decreases xs
  {
    if xs == [] || less(x, xs[0]) then [x] + xs else [xs[0]] + Insert(less, x, xs[1..])
  }

  lemma {:induction false} SortedInsert<T(!new)>(less: (T, T) -> bool, x: T, s: set<T>)
    requires x !in s && Orders(less, s + {x})
    ensures Sorted(less, s + {x}) == Insert(less, x, Sorted(less, s))
    decreases |s|
  {
    var t := s + {x};
    if s == {} {
      assert IsLeast(less, x, t);
      SortedFrom(less, x, t);
      assert t - {x} == {};
    } else {
      LeastExists(less, s);
      var m :| IsLeast(less, m, s);
      SortedFrom(less, m, s);
      if less(x, m) {
        assert IsLeast(less, x, t);
        SortedFrom(less, x, t);
        assert t - {x} == s;
      } else {
        assert IsLeast(less, m, t);
        SortedFrom(less, m, t);
        assert t - {m} == (s - {m}) + {x};
        SortedInsert(less, x, s - {m});
      }
    }
  }

  // The listing holds each element once, in increasing order.
  lemma {:induction false} SortedMeans<T(!new)>(less: (T, T) -> bool, s: set<T>)
    requires Orders(less, s)
    ensures forall x :: x in Sorted(less, s) <==> x in s
    ensures |Sorted(less, s)| == |s|
    ensures forall i, j :: 0 <= i < j < |Sorted(less, s)| ==> less(Sorted(less, s)[i], Sorted(less, s)[j])
    decreases |s|
  {
    if s != {} {
      LeastExists(less, s);
      var m :| IsLeast(less, m, s);
      SortedFrom(less, m, s);
      SortedMeans(less, s - {m});
    }
  }
}
