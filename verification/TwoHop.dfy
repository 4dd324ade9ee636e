// What a two-hop query means: every pair of consecutive matching edges is a
// candidate path, listed in slot order, and the top k are returned.
module TwoHop {
  import opened Ranking

  /** One matching edge. */
  datatype Hit = Hit(target: int, handle: int, score: int)

  function PathOf(first: Hit, second: Hit): Candidate {
    Candidate(first.score + second.score, first.handle, second.handle, second.target)
  }

  /** The paths that start with `first`. */
  function Extend(first: Hit, seconds: seq<Hit>): (r: seq<Candidate>)
    ensures |r| == |seconds| && forall i :: 0 <= i < |r| ==> r[i] == PathOf(first, seconds[i])
  {
    seq(|seconds|, i requires 0 <= i < |seconds| => PathOf(first, seconds[i]))
  }

  /** All paths, first hops in order and, for each, second hops in order. */
  function Paths(firsts: seq<Hit>, second: int -> seq<Hit>): seq<Candidate> {
    if firsts == [] then []
    else
      var n := |firsts| - 1;
      Paths(firsts[..n], second) + Extend(firsts[n], second(firsts[n].target))
  }

  lemma {:induction false} PathsSnoc(firsts: seq<Hit>, h: Hit, second: int -> seq<Hit>)
    ensures Paths(firsts + [h], second) == Paths(firsts, second) + Extend(h, second(h.target))
  {
    assert (firsts + [h])[..|firsts|] == firsts;
  }

  lemma {:induction false} ExtendSnoc(first: Hit, seconds: seq<Hit>, h: Hit)
    ensures Extend(first, seconds + [h]) == Extend(first, seconds) + [PathOf(first, h)]
  {
  }
}
