/**
 Sorting the contents of an unordered collection. A strictly sorted sequence is determined by
 the set of its elements, so a sort by a strict total order hides the iteration order of the
 collection it started from.
 */
module Ordering {
  import opened Prelude

  ghost predicate StrictTotalOn<T(!new)>(xs: set<T>, less: (T, T) -> bool) {
    && (forall x | x in xs :: !less(x, x))
    && (forall x, y | x in xs && y in xs && x != y :: less(x, y) || less(y, x))
    && (forall x, y, z | x in xs && y in xs && z in xs && less(x, y) && less(y, z) :: less(x, z))
  }

  ghost predicate Sorted<T>(s: seq<T>, less: (T, T) -> bool) {
    forall i, j | 0 <= i < j < |s| :: less(s[i], s[j])
  }

  /** A strictly sorted sequence is determined by its elements. */
  lemma {:induction false} SortedUnique<T(!new)>(a: seq<T>, b: seq<T>, less: (T, T) -> bool)
    requires StrictTotalOn(Elements(a), less)
    requires Sorted(a, less) && Sorted(b, less)
    requires Elements(a) == Elements(b)
    ensures a == b
    decreases |a|
  {
    assert forall i | 0 <= i < |a| :: a[i] in Elements(b);
    assert forall i | 0 <= i < |b| :: b[i] in Elements(a);
    if a == [] {
      assert b == [];
    } else {
      assert a[0] in Elements(b) && b != [];
      assert a[0] == b[0];
      forall x
        ensures x in Elements(a[1..]) <==> x in Elements(a) && x != a[0]
        ensures x in Elements(b[1..]) <==> x in Elements(b) && x != b[0]
      {
        TailElements(a, less, x);
        TailElements(b, less, x);
      }
      SortedUnique(a[1..], b[1..], less);
      assert a == [a[0]] + a[1..] && b == [b[0]] + b[1..];
    }
  }

  lemma TailElements<T(!new)>(s: seq<T>, less: (T, T) -> bool, x: T)
    requires s != [] && Sorted(s, less) && StrictTotalOn(Elements(s), less)
    ensures x in Elements(s[1..]) <==> x in Elements(s) && x != s[0]
  {
    if x in Elements(s) && x != s[0] {
      var i :| 0 <= i < |s| && s[i] == x;
      assert s[1..][i - 1] == x;
    }
    if x in s[1..] {
      var i :| 0 <= i < |s| - 1 && s[1..][i] == x;
      assert s[i + 1] == x && x in Elements(s);
    }
  }

  /** Put `x` before the first element that is not smaller than it. */
  function Insert<T>(x: T, s: seq<T>, less: (T, T) -> bool): (r: seq<T>)
    ensures multiset(r) == multiset(s) + multiset{x}
    ensures |r| == |s| + 1
  {
    if s == [] || !less(s[0], x) then
      [x] + s
    else
      assert s == [s[0]] + s[1..];
      [s[0]] + Insert(x, s[1..], less)
  }

  lemma {:induction false} InsertSorts<T(!new)>(x: T, s: seq<T>, less: (T, T) -> bool)
    requires StrictTotalOn(Elements(s) + {x}, less) && x !in s
    requires Sorted(s, less)
    ensures Sorted(Insert(x, s, less), less)
    ensures Elements(Insert(x, s, less)) == Elements(s) + {x}
  {
    InsertElements(x, s, less);
    if s == [] {
    } else if !less(s[0], x) {
      assert s[0] in Elements(s);
      forall i | 0 <= i < |s| ensures less(x, s[i]) {
        assert s[i] in Elements(s);
      }
    } else {
      var rest := s[1..];
      assert Elements(rest) <= Elements(s);
      InsertSorts(x, rest, less);
      InsertElements(x, rest, less);
      var tail := Insert(x, rest, less);
      forall i | 0 <= i < |tail| ensures less(s[0], tail[i]) {
        assert tail[i] in Elements(rest) + {x};
      }
    }
  }

  lemma InsertElements<T(!new)>(x: T, s: seq<T>, less: (T, T) -> bool)
    ensures Elements(Insert(x, s, less)) == Elements(s) + {x}
  {
    var r := Insert(x, s, less);
    assert forall y :: y in r <==> y in multiset(r);
    assert forall y :: y in s <==> y in multiset(s);
    assert forall y :: y in Elements(r) <==> y in Elements(s) || y == x;
  }

  lemma InsertStep<T(!new)>(x: T, rest: seq<T>, xs: set<T>, less: (T, T) -> bool)
    requires x in xs && StrictTotalOn(xs, less) && Sorted(rest, less) && Elements(rest) == xs - {x}
    ensures Sorted(Insert(x, rest, less), less) && Elements(Insert(x, rest, less)) == xs
  {
    assert x !in Elements(rest) && Elements(rest) + {x} == xs;
    InsertSorts(x, rest, less);
  }

  /** The canonical listing of a set: insert its elements one by one, in some order. */
  ghost function SortedSeq<T(!new)>(xs: set<T>, less: (T, T) -> bool): seq<T> {
    if xs == {} then [] else
      var x :| x in xs;
      Insert(x, SortedSeq(xs - {x}, less), less)
  }

  lemma {:induction false} SortedSeqSorts<T(!new)>(xs: set<T>, less: (T, T) -> bool)
    requires StrictTotalOn(xs, less)
    ensures Sorted(SortedSeq(xs, less), less) && Elements(SortedSeq(xs, less)) == xs
  {
    if xs != {} {
      var x :| x in xs && SortedSeq(xs, less) == Insert(x, SortedSeq(xs - {x}, less), less);
      SortedSeqSorts(xs - {x}, less);
      InsertStep(x, SortedSeq(xs - {x}, less), xs, less);
    }
  }

  /** Any strictly sorted listing of the set is the canonical one. */
  lemma SortedIsCanonical<T(!new)>(s: seq<T>, xs: set<T>, less: (T, T) -> bool)
    requires StrictTotalOn(xs, less) && Sorted(s, less) && Elements(s) == xs
    ensures s == SortedSeq(xs, less)
  {
    SortedSeqSorts(xs, less);
    SortedUnique(s, SortedSeq(xs, less), less);
  }

  /** Collect an unordered set in some iteration order and sort it. */
  method Sort<T(!new, ==)>(xs: set<T>, less: (T, T) -> bool) returns (s: seq<T>)
    requires StrictTotalOn(xs, less)
    ensures s == SortedSeq(xs, less) && Sorted(s, less) && Elements(s) == xs
  {
    s := [];
    var left := xs;
    while left != {}
      invariant left <= xs
      invariant Sorted(s, less) && Elements(s) == xs - left
      decreases |left|
    {
      var x :| x in left;
      assert StrictTotalOn(xs - left + {x}, less) && xs - left + {x} - {x} == xs - left;
      InsertStep(x, s, xs - left + {x}, less);
      s := Insert(x, s, less);
      left := left - {x};
    }
    SortedIsCanonical(s, xs, less);
  }
}
