/** Stable sorting by a caller-supplied comparator, as sort.SliceStable is used in the repository.
    The library's algorithm is not part of the model: an insertion sort gives the stable result, and
    SortedUnique shows that under a total order no other ordered arrangement exists. */
module Sorting {
  import opened Model

  /** `less` orders any two different elements of `s`, consistently. */
  ghost predicate TotalOrderOn<T(!new)>(less: (T, T) -> bool, s: seq<T>) {
    && (forall x :: x in s ==> !less(x, x))
    && (forall x, y :: x in s && y in s && x != y ==> less(x, y) || less(y, x))
    && (forall x, y, z :: x in s && y in s && z in s && less(x, y) && less(y, z) ==> less(x, z))
  }

  ghost predicate Ordered<T>(less: (T, T) -> bool, s: seq<T>) {
    forall i, j :: 0 <= i < j < |s| ==> less(s[i], s[j])
  }

  /** Puts `x` in front of the first element it precedes, hence behind its equals. */
  function Insert<T>(less: (T, T) -> bool, x: T, s: seq<T>): seq<T> {
    if s == [] then [x]
    else if less(x, s[0]) then [x] + s
    else [s[0]] + Insert(less, x, s[1..])
  }

  function StableSort<T>(less: (T, T) -> bool, s: seq<T>): seq<T> {
    if s == [] then [] else Insert(less, s[|s| - 1], StableSort(less, s[..|s| - 1]))
  }

  lemma {:induction false} InsertPermutes<T>(less: (T, T) -> bool, x: T, s: seq<T>)
    ensures multiset(Insert(less, x, s)) == multiset{x} + multiset(s)
  {
    if s != [] {
      assert s == [s[0]] + s[1..];
      if !less(x, s[0]) {
        InsertPermutes(less, x, s[1..]);
      }
    }
  }

  lemma {:induction false} SortPermutes<T>(less: (T, T) -> bool, s: seq<T>)
    ensures multiset(StableSort(less, s)) == multiset(s)
  {
    if s != [] {
      var before := s[..|s| - 1];
      SortPermutes(less, before);
      InsertPermutes(less, s[|s| - 1], StableSort(less, before));
      assert s == before + [s[|s| - 1]];
    }
  }

  /** Permutations have the same members. */
  lemma SameMembers<T>(a: seq<T>, b: seq<T>)
    requires multiset(a) == multiset(b)
    ensures |a| == |b|
    ensures forall x :: x in a <==> x in b
  {
    assert |a| == |multiset(a)| == |multiset(b)| == |b|;
    assert forall x :: x in a <==> x in multiset(a);
  }

  lemma {:induction false} CountedOnce<T>(a: seq<T>, x: T)
    requires Distinct(a)
    ensures multiset(a)[x] <= 1
  {
    if a != [] {
      assert a == [a[0]] + a[1..];
      CountedOnce(a[1..], x);
    }
  }

  lemma CountedTwice<T>(b: seq<T>, i: nat, j: nat)
    requires i < j < |b|
    ensures b[i] == b[j] ==> multiset(b)[b[i]] >= 2
  {
    assert b == b[..i] + [b[i]] + b[i + 1..j] + [b[j]] + b[j + 1..];
  }

  /** A permutation of distinct elements is distinct. */
  lemma PermutedDistinct<T>(a: seq<T>, b: seq<T>)
    requires multiset(a) == multiset(b) && Distinct(a)
    ensures Distinct(b)
  {
    forall i, j | 0 <= i < j < |b|
      ensures b[i] != b[j]
    {
      CountedOnce(a, b[i]);
      CountedTwice(b, i, j);
    }
  }

  lemma {:induction false} InsertKeepsOrder<T(!new)>(less: (T, T) -> bool, x: T, s: seq<T>, all: seq<T>)
    requires TotalOrderOn(less, all) && x in all && x !in s && (forall y :: y in s ==> y in all)
    requires Ordered(less, s)
    ensures Ordered(less, Insert(less, x, s))
  {
    if s != [] && !less(x, s[0]) {
      InsertKeepsOrder(less, x, s[1..], all);
      InsertPermutes(less, x, s[1..]);
      var rest := Insert(less, x, s[1..]);
      forall j | 0 <= j < |rest|
        ensures less(s[0], rest[j])
      {
        assert rest[j] in multiset(rest);
        assert rest[j] == x || rest[j] in s[1..];
      }
    } else if s != [] {
      assert s[0] in all;
    }
  }

  lemma {:induction false} SortOrders<T(!new)>(less: (T, T) -> bool, s: seq<T>, all: seq<T>)
    requires TotalOrderOn(less, all) && Distinct(s) && (forall y :: y in s ==> y in all)
    ensures Ordered(less, StableSort(less, s))
  {
    if s != [] {
      var before, x := s[..|s| - 1], s[|s| - 1];
      SortOrders(less, before, all);
      SortPermutes(less, before);
      SameMembers(StableSort(less, before), before);
      InsertKeepsOrder(less, x, StableSort(less, before), all);
    }
  }

  lemma LeastAgrees<T(!new)>(less: (T, T) -> bool, a: seq<T>, b: seq<T>, all: seq<T>)
    requires TotalOrderOn(less, all) && (forall y :: y in a ==> y in all)
    requires a != [] && multiset(a) == multiset(b) && Ordered(less, a) && Ordered(less, b)
    ensures b != [] && a[0] == b[0]
  {
    SameMembers(a, b);
    assert a[0] in b && b[0] in a;
    var i :| 0 <= i < |b| && b[i] == a[0];
    var j :| 0 <= j < |a| && a[j] == b[0];
    var x, y := a[0], b[0];
    assert i == 0 || less(y, x);
    assert j == 0 || less(x, y);
    assert !less(x, x);
  }

  lemma TailsPermute<T>(a: seq<T>, b: seq<T>)
    requires a != [] && b != [] && a[0] == b[0] && multiset(a) == multiset(b)
    ensures multiset(a[1..]) == multiset(b[1..])
  {
    assert a == [a[0]] + a[1..] && b == [b[0]] + b[1..];
    assert multiset(a[1..]) == multiset(a) - multiset{a[0]};
    assert multiset(b[1..]) == multiset(b) - multiset{b[0]};
  }

  /** An ordered arrangement of given elements is unique. */
  lemma {:induction false} SortedUnique<T(!new)>(less: (T, T) -> bool, a: seq<T>, b: seq<T>, all: seq<T>)
    requires TotalOrderOn(less, all) && (forall y :: y in a ==> y in all)
    requires multiset(a) == multiset(b) && Ordered(less, a) && Ordered(less, b)
    ensures a == b
  {
    if a == [] {
      SameMembers(a, b);
    } else {
      LeastAgrees(less, a, b, all);
      TailsPermute(a, b);
      SortedUnique(less, a[1..], b[1..], all);
      assert a == [a[0]] + a[1..] && b == [b[0]] + b[1..];
    }
  }
}
