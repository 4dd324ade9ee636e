// Sequences up to order: what an element-wise expansion of a sequence yields,
// as a multiset, depends only on the multiset of its elements.
module Bags {

  /** Everything the elements expand to. */
  function Bag<A, B>(xs: seq<A>, f: A -> seq<B>): multiset<B> {
    if xs == [] then multiset{} else Bag(xs[..|xs| - 1], f) + multiset(f(xs[|xs| - 1]))
  }

  /** A sequence without its element `j`. */
  function Without<A>(xs: seq<A>, j: nat): (r: seq<A>)
    requires j < |xs|
    ensures |r| == |xs| - 1
  {
    xs[..j] + xs[j + 1..]
  }

  lemma {:induction false} WithoutBag<A>(xs: seq<A>, j: nat)
    requires j < |xs|
    ensures multiset(xs) == multiset(Without(xs, j)) + multiset{xs[j]}
  {
    assert xs == xs[..j] + ([xs[j]] + xs[j + 1..]);
  }

  lemma {:induction false} BagWithout<A, B>(xs: seq<A>, j: nat, f: A -> seq<B>)
    requires j < |xs|
    ensures Bag(xs, f) == Bag(Without(xs, j), f) + multiset(f(xs[j]))
  {
    var n := |xs| - 1;
    if j < n {
      BagWithout(xs[..n], j, f);
      var w := Without(xs, j);
      assert w[..n - 1] == Without(xs[..n], j) && w[n - 1] == xs[n];
    } else {
      assert Without(xs, j) == xs[..n];
    }
  }

  /** Where a permutation keeps the last element, and what is left around it. */
  lemma {:induction false} Matching<A>(xs: seq<A>, ys: seq<A>) returns (j: nat)
    requires multiset(xs) == multiset(ys) && xs != []
    ensures j < |ys| && ys[j] == xs[|xs| - 1] && multiset(xs[..|xs| - 1]) == multiset(Without(ys, j))
  {
    var n := |xs| - 1;
    assert xs[n] in multiset(ys);
    j :| 0 <= j < |ys| && ys[j] == xs[n];
    WithoutBag(ys, j);
    assert xs == xs[..n] + [xs[n]];
    assert multiset(xs[..n]) == multiset(xs) - multiset{xs[n]};
    assert multiset(Without(ys, j)) == multiset(ys) - multiset{ys[j]};
  }

  /** Reordering the elements reorders the expansion. */
  lemma {:induction false} BagPermute<A, B>(xs: seq<A>, ys: seq<A>, f: A -> seq<B>)
    requires multiset(xs) == multiset(ys)
    ensures Bag(xs, f) == Bag(ys, f)
    decreases |xs|
  {
    assert |multiset(xs)| == |xs| && |multiset(ys)| == |ys|;
    if xs != [] {
      var n := |xs| - 1;
      var j := Matching(xs, ys);
      BagWithout(ys, j, f);
      hide Without;
      BagPermute(xs[..n], Without(ys, j), f);
    }
  }

  /** Expansions that agree as bags, element by element, agree altogether. */
  lemma {:induction false} BagAgree<A, B>(xs: seq<A>, f: A -> seq<B>, g: A -> seq<B>)
    requires forall i :: 0 <= i < |xs| ==> multiset(f(xs[i])) == multiset(g(xs[i]))
    ensures Bag(xs, f) == Bag(xs, g)
  {
    if xs != [] {
      BagAgree(xs[..|xs| - 1], f, g);
      assert multiset(f(xs[|xs| - 1])) == multiset(g(xs[|xs| - 1]));
    }
  }
}
