// Insertion sort over a total order, standing for Python's built-in sort.
module Sorting {

  ghost predicate TotalOrder<T(!new)>(le: (T, T) -> bool) {
    && (forall a, b :: le(a, b) || le(b, a))
    && (forall a, b :: le(a, b) && le(b, a) ==> a == b)
    && (forall a, b, c :: le(a, b) && le(b, c) ==> le(a, c))
  }

  ghost predicate SortedBy<T>(xs: seq<T>, le: (T, T) -> bool) {
    forall i, j :: 0 <= i < j < |xs| ==> le(xs[i], xs[j])
  }

  function InsertBy<T>(x: T, xs: seq<T>, le: (T, T) -> bool): (r: seq<T>)
    ensures |r| == |xs| + 1
  {
    if xs == [] then [x]
    else if le(x, xs[0]) then [x] + xs
    else [xs[0]] + InsertBy(x, xs[1..], le)
  }

  function SortBy<T>(xs: seq<T>, le: (T, T) -> bool): (r: seq<T>)
    ensures |r| == |xs|
  {
    if xs == [] then [] else InsertBy(xs[|xs| - 1], SortBy(xs[..|xs| - 1], le), le)
  }

  lemma {:induction false} InsertBySorted<T(!new)>(x: T, xs: seq<T>, le: (T, T) -> bool)
    requires TotalOrder(le) && SortedBy(xs, le)
    ensures SortedBy(InsertBy(x, xs, le), le)
    ensures multiset(InsertBy(x, xs, le)) == multiset(xs) + multiset{x}
  {
    if xs != [] {
      assert xs == [xs[0]] + xs[1..];
      if !le(x, xs[0]) {
        InsertBySorted(x, xs[1..], le);
        SortedCons(xs[0], InsertBy(x, xs[1..], le), xs[1..], x, le);
      }
    }
  }

  lemma {:induction false} SortedCons<T>(y: T, r: seq<T>, ys: seq<T>, x: T, le: (T, T) -> bool)
    requires SortedBy(r, le) && multiset(r) == multiset(ys) + multiset{x}
    requires le(y, x) && forall z :: z in ys ==> le(y, z)
    ensures SortedBy([y] + r, le)
  {
    forall i | 0 <= i < |r|
      ensures le(y, r[i])
    {
      assert r[i] in multiset(r);
    }
  }

  /** The result is sorted and is a permutation of the input. */
  lemma {:induction false} SortBySorted<T(!new)>(xs: seq<T>, le: (T, T) -> bool)
    requires TotalOrder(le)
    ensures SortedBy(SortBy(xs, le), le) && multiset(SortBy(xs, le)) == multiset(xs)
  {
    if xs != [] {
      var n := |xs| - 1;
      assert SortBy(xs, le) == InsertBy(xs[n], SortBy(xs[..n], le), le);
      assert xs == xs[..n] + [xs[n]];
      hide InsertBy, SortBy, TotalOrder, SortedBy;
      SortBySorted(xs[..n], le);
      InsertBySorted(xs[n], SortBy(xs[..n], le), le);
    }
  }

  lemma {:induction false} SortByMembers<T(!new)>(xs: seq<T>, le: (T, T) -> bool, x: T)
    requires TotalOrder(le)
    ensures x in SortBy(xs, le) <==> x in xs
  {
    SortBySorted(xs, le);
    assert x in multiset(SortBy(xs, le)) <==> x in multiset(xs);
  }

  ghost predicate Distinct<T>(xs: seq<T>) {
    forall i, j :: 0 <= i < j < |xs| ==> xs[i] != xs[j]
  }

  lemma {:induction false} DistinctCounts<T>(xs: seq<T>)
    requires Distinct(xs)
    ensures forall x :: x in xs ==> multiset(xs)[x] == 1
  {
    if xs != [] {
      var n := |xs| - 1;
      DistinctCounts(xs[..n]);
      assert xs == xs[..n] + [xs[n]];
    }
  }

  lemma {:induction false} CountsDistinct<T>(xs: seq<T>)
    requires forall x :: x in xs ==> multiset(xs)[x] == 1
    ensures Distinct(xs)
  {
    forall i, j | 0 <= i < j < |xs|
      ensures xs[i] != xs[j]
    {
      assert xs == xs[..j] + ([xs[j]] + xs[j + 1..]);
      assert multiset(xs) == multiset(xs[..j]) + (multiset{xs[j]} + multiset(xs[j + 1..]));
      assert xs[i] in xs[..j];
      assert multiset(xs)[xs[i]] == 1;
    }
  }

  lemma {:induction false} SortByDistinct<T(!new)>(xs: seq<T>, le: (T, T) -> bool)
    requires TotalOrder(le) && Distinct(xs)
    ensures Distinct(SortBy(xs, le))
  {
    SortBySorted(xs, le);
    DistinctCounts(xs);
    forall x | x in SortBy(xs, le)
      ensures multiset(SortBy(xs, le))[x] == 1
    {
      SortByMembers(xs, le, x);
    }
    CountsDistinct(SortBy(xs, le));
  }

  /** A sorted sequence is determined by its elements. */
  lemma {:induction false} SortedUnique<T(!new)>(a: seq<T>, b: seq<T>, le: (T, T) -> bool)
    requires TotalOrder(le) && SortedBy(a, le) && SortedBy(b, le) && multiset(a) == multiset(b)
    ensures a == b
  {
    SameLength(a, b);
    if a != [] {
      SortedHeads(a, b, le);
      hide TotalOrder;
      SortedUnique(a[1..], b[1..], le);
      assert a == [a[0]] + a[1..] && b == [b[0]] + b[1..];
    }
  }

  lemma {:induction false} SameLength<T>(a: seq<T>, b: seq<T>)
    requires multiset(a) == multiset(b)
    ensures |a| == |b|
  {
    assert |multiset(a)| == |a| && |multiset(b)| == |b|;
  }

  /** Sorted sequences with the same elements start alike. */
  lemma {:induction false} SortedHeads<T(!new)>(a: seq<T>, b: seq<T>, le: (T, T) -> bool)
    requires TotalOrder(le) && SortedBy(a, le) && SortedBy(b, le) && multiset(a) == multiset(b) && a != [] && |b| == |a|
    ensures a[0] == b[0] && multiset(a[1..]) == multiset(b[1..]) && SortedBy(a[1..], le) && SortedBy(b[1..], le)
  {
    HeadIsLeast(a, b[0], le);
    HeadIsLeast(b, a[0], le);
    assert le(a[0], b[0]) && le(b[0], a[0]);
    hide SortedBy;
    WithoutHead(a);
    WithoutHead(b);
  }

  lemma {:induction false} WithoutHead<T>(a: seq<T>)
    requires a != []
    ensures multiset(a[1..]) == multiset(a) - multiset{a[0]} && a[0] in multiset(a)
  {
    assert a == [a[0]] + a[1..];
  }

  lemma {:induction false} HeadIsLeast<T(!new)>(a: seq<T>, x: T, le: (T, T) -> bool)
    requires TotalOrder(le) && SortedBy(a, le) && a != [] && x in multiset(a)
    ensures le(a[0], x)
  {
    var i :| 0 <= i < |a| && a[i] == x;
    assert le(a[0], a[0]);
  }
}
