// The Fisher-Yates shuffle: what the draws make of a sequence, and that every
// ordering comes from exactly one sequence of draws.
module FisherYates {
  import opened Sorting

  /** The draws a shuffle of `n` items makes: step `i` picks a position at or before `i`. */
  predicate Steps(draws: seq<nat>, n: nat) {
    |draws| == n && forall i :: 0 <= i < n ==> draws[i] <= i
  }

  /** `a[i], a[j] = a[j], a[i]`. */
  function Swapped<T>(a: seq<T>, i: nat, j: nat): (r: seq<T>)
    requires i < |a| && j < |a|
    ensures |r| == |a|
  {
    a[i := a[j]][j := a[i]]
  }

  /** The shuffled sequence: the last position is swapped with a drawn one, then the rest is shuffled. */
  function Shuffled<T>(a: seq<T>, draws: seq<nat>): (r: seq<T>)
    requires Steps(draws, |a|)
    ensures |r| == |a|
    decreases |a|
  {
    if a == [] then []
    else
      var n := |a| - 1;
      var s := Swapped(a, n, draws[n]);
      Shuffled(s[..n], draws[..n]) + [s[n]]
  }

  lemma {:induction false} SwappedBag<T>(a: seq<T>, i: nat, j: nat)
    requires i < |a| && j < |a|
    ensures multiset(Swapped(a, i, j)) == multiset(a)
  {
  }

  lemma {:induction false} SwappedParts<T>(a: seq<T>, n: nat, j: nat)
    requires n + 1 == |a| && j <= n
    ensures var s := Swapped(a, n, j); s[n] == a[j] && multiset(a) == multiset(s[..n]) + multiset{a[j]}
  {
    SwappedBag(a, n, j);
    var s := Swapped(a, n, j);
    assert s == s[..n] + [s[n]];
  }

  /** A shuffle keeps every item. */
  lemma {:induction false} ShuffledBag<T>(a: seq<T>, draws: seq<nat>)
    requires Steps(draws, |a|)
    ensures multiset(Shuffled(a, draws)) == multiset(a)
    decreases |a|
  {
    if a != [] {
      var n := |a| - 1;
      SwappedParts(a, n, draws[n]);
      ShuffledBag(Swapped(a, n, draws[n])[..n], draws[..n]);
    }
  }

  lemma {:induction false} DistinctParts<T>(a: seq<T>, s: seq<T>, x: T)
    requires Distinct(a) && multiset(a) == multiset(s) + multiset{x}
    ensures Distinct(s)
  {
    DistinctCounts(a);
    forall y | y in s
      ensures multiset(s)[y] == 1
    {
      assert y in multiset(s) && y in multiset(a);
      assert multiset(a)[y] == multiset(s)[y] + multiset{x}[y];
    }
    CountsDistinct(s);
  }

  /** The same item is at one position only. */
  lemma {:induction false} SamePosition<T>(a: seq<T>, i: nat, j: nat)
    requires Distinct(a) && i < |a| && j < |a| && a[i] == a[j]
    ensures i == j
  {
  }

  /** What the last step of a shuffle decides. */
  lemma {:induction false} LastStep<T>(a: seq<T>, draws: seq<nat>, order: seq<T>)
    requires a != [] && Steps(draws, |a|) && Shuffled(a, draws) == order
    ensures var n := |a| - 1;
      && |order| == |a| && a[draws[n]] == order[n] && Steps(draws[..n], n)
      && Shuffled(Swapped(a, n, draws[n])[..n], draws[..n]) == order[..n]
  {
    var n := |a| - 1;
    var s := Swapped(a, n, draws[n]);
    assert order == Shuffled(s[..n], draws[..n]) + [s[n]];
    assert order[..n] == Shuffled(s[..n], draws[..n]);
  }

  /** Every ordering of distinct items comes from exactly one sequence of draws. */
  lemma {:induction false} OneDealing<T(!new)>(a: seq<T>, order: seq<T>) returns (draws: seq<nat>)
    requires Distinct(a) && multiset(order) == multiset(a)
    ensures Steps(draws, |a|) && Shuffled(a, draws) == order && Comes(a, draws, order)
    decreases |a|
  {
    assert |multiset(order)| == |order| && |multiset(a)| == |a|;
    if a == [] {
      draws := [];
      NoDraws(a, order);
    } else {
      var n := |a| - 1;
      var p := LastFrom(a, order);
      var s := Swapped(a, n, p)[..n];
      hide *;
      var before := OneDealing(s, order[..n]);
      draws := before + [p];
      DealLast(a, before, p, order);
      forall other | Steps(other, |a|) && Shuffled(a, other) == order
        ensures other == draws
      {
        OnlyDealing(a, before, p, order, other);
      }
      ComesIs(a, draws, order);
    }
  }

  /** Which position the last item of an ordering was drawn from. */
  lemma {:induction false} LastFrom<T(!new)>(a: seq<T>, order: seq<T>) returns (p: nat)
    requires a != [] && |order| == |a| && Distinct(a) && multiset(order) == multiset(a)
    ensures p < |a| && a[p] == order[|a| - 1]
    ensures Distinct(Swapped(a, |a| - 1, p)[..|a| - 1]) && multiset(order[..|a| - 1]) == multiset(Swapped(a, |a| - 1, p)[..|a| - 1])
  {
    var n := |a| - 1;
    assert order == order[..n] + [order[n]];
    assert order[n] in multiset(a);
    p :| p < |a| && a[p] == order[n];
    SwappedParts(a, n, p);
    var s := Swapped(a, n, p)[..n];
    DistinctParts(a, s, a[p]);
    assert multiset(order[..n]) == multiset(order) - multiset{order[n]};
    assert multiset(s) == multiset(a) - multiset{a[p]};
  }

  /** No other draws give this ordering. */
  ghost predicate Comes<T(!new)>(a: seq<T>, draws: seq<nat>, order: seq<T>) {
    forall other :: Steps(other, |a|) && Shuffled(a, other) == order ==> other == draws
  }

  lemma {:induction false} ComesIs<T(!new)>(a: seq<T>, draws: seq<nat>, order: seq<T>)
    requires forall other :: Steps(other, |a|) && Shuffled(a, other) == order ==> other == draws
    ensures Comes(a, draws, order)
  {
  }

  lemma {:induction false} NoDraws<T(!new)>(a: seq<T>, order: seq<T>)
    requires a == [] && order == []
    ensures Steps([], |a|) && Shuffled(a, []) == order && Comes(a, [], order)
  {
  }

  lemma {:induction false} OnlyDealing<T(!new)>(a: seq<T>, before: seq<nat>, p: nat, order: seq<T>, other: seq<nat>)
    requires a != [] && |order| == |a| && p < |a| && Distinct(a) && order[|a| - 1] == a[p]
    requires Steps(other, |a|) && Shuffled(a, other) == order
    requires Comes(Swapped(a, |a| - 1, p)[..|a| - 1], before, order[..|a| - 1])
    ensures other == before + [p]
  {
    var n := |a| - 1;
    LastStep(a, other, order);
    SamePosition(a, other[n], p);
    assert other == other[..n] + [other[n]];
    hide Shuffled, Distinct, Swapped;
  }

  lemma {:induction false} DealLast<T>(a: seq<T>, before: seq<nat>, p: nat, order: seq<T>)
    requires a != [] && p < |a| == |order| && Steps(before, |a| - 1) && order[|a| - 1] == a[p]
    requires Shuffled(Swapped(a, |a| - 1, p)[..|a| - 1], before) == order[..|a| - 1]
    ensures Steps(before + [p], |a|) && Shuffled(a, before + [p]) == order
  {
    var n := |a| - 1;
    assert (before + [p])[..n] == before && (before + [p])[n] == p;
    assert order == order[..n] + [order[n]];
  }

  /** The loop, in place: positions from the last down, each swapped with the drawn one. */
  method ShuffleInPlace<T>(a: array<T>, draws: seq<nat>)
    requires Steps(draws, a.Length)
    modifies a
    ensures a[..] == Shuffled(old(a[..]), draws)
  {
    var i := a.Length;
    assert a[..i] + a[i..] == a[..] && a[..i] == a[..] && a[i..] == [] && draws[..i] == draws;
    while i > 1
      invariant 0 <= i <= a.Length && (a.Length >= 1 ==> i >= 1)
      invariant Shuffled(a[..i], draws[..i]) + a[i..] == Shuffled(old(a[..]), draws)
    {
      ghost var was := a[..];
      i := i - 1;
      var j := draws[i];
      a[i], a[j] := a[j], a[i];
      ShuffleStep(was, draws, i, a[..]);
    }
    OneItem(a[..i], draws[..i]);
    assert a[..] == a[..i] + a[i..];
  }

  lemma {:induction false} OneItem<T>(a: seq<T>, draws: seq<nat>)
    requires |a| <= 1 && Steps(draws, |a|)
    ensures Shuffled(a, draws) == a
  {
  }

  lemma {:induction false} ShuffleStep<T>(was: seq<T>, draws: seq<nat>, i: nat, now: seq<T>)
    requires i < |was| && Steps(draws, |was|) && now == Swapped(was, i, draws[i])
    ensures Shuffled(was[..i + 1], draws[..i + 1]) + was[i + 1..] == Shuffled(now[..i], draws[..i]) + now[i..]
  {
    var a := was[..i + 1];
    var s := Swapped(a, i, draws[i]);
    assert draws[..i + 1][..i] == draws[..i];
    assert s[..i] == now[..i] && [s[i]] + was[i + 1..] == now[i..];
  }
}
