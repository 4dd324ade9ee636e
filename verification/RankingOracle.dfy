// The cleartext ranking: sort candidate tuples, then scan them once, skipping
// terminals already answered.  It computes the same rows as the greedy
// specification the circuit is proved against.
module RankingOracle {
  import opened Ranking
  import opened Sorting

  /** A candidate tuple, in the field order the cleartext evaluators sort by. */
  datatype Scored = Scored(negative: int, index: int, left: int, right: int, terminal: int)

  /** Lexicographic order on tuples. */
  predicate AtMost(a: Scored, b: Scored) {
    a.negative < b.negative || (a.negative == b.negative &&
    (a.index < b.index || (a.index == b.index &&
    (a.left < b.left || (a.left == b.left &&
    (a.right < b.right || (a.right == b.right &&
    a.terminal <= b.terminal)))))))
  }

  function Strip(x: Scored): Candidate {
    Candidate(-x.negative, x.left, x.right, x.terminal)
  }

  function StripAll(xs: seq<Scored>): (r: seq<Candidate>)
    ensures |r| == |xs| && forall i :: 0 <= i < |xs| ==> r[i] == Strip(xs[i])
  {
    seq(|xs|, i requires 0 <= i < |xs| => Strip(xs[i]))
  }

  ghost predicate Increasing(xs: seq<Scored>) {
    forall i, j :: 0 <= i < j < |xs| ==> xs[i].index < xs[j].index
  }

  // --- Sorting -----------------------------------------------------------

  /** Tuples are sorted by a total order. */
  lemma {:induction false} SortScored(xs: seq<Scored>)
    ensures SortedBy(SortBy(xs, AtMost), AtMost) && multiset(SortBy(xs, AtMost)) == multiset(xs)
  {
    AtMostIsTotal();
    SortBySorted(xs, AtMost);
  }

  lemma {:induction false} AtMostIsTotal()
    ensures TotalOrder(AtMost)
  {
  }

  function DropAt(xs: seq<Scored>, b: nat): seq<Scored>
    requires b < |xs|
  {
    xs[..b] + xs[b + 1..]
  }

  lemma {:induction false} InsertLater(x: Scored, y: Scored, ys: seq<Scored>)
    requires !AtMost(x, y)
    ensures InsertBy(x, [y] + ys, AtMost) == [y] + InsertBy(x, ys, AtMost)
  {
    assert ([y] + ys)[1..] == ys;
  }

  lemma {:induction false} SortSnoc(xs: seq<Scored>, x: Scored)
    ensures SortBy(xs + [x], AtMost) == InsertBy(x, SortBy(xs, AtMost), AtMost)
  {
    assert (xs + [x])[..|xs|] == xs;
  }

  /** Sorting in one more element, when the head of the sorted list is known. */
  lemma {:induction false} SortedHeadStep(p: seq<Scored>, x: Scored, c: nat)
    requires c < |p| && SortBy(p, AtMost) == [p[c]] + SortBy(DropAt(p, c), AtMost)
    ensures SortBy(p + [x], AtMost) == if AtMost(x, p[c]) then [x] + SortBy(p, AtMost) else [p[c]] + SortBy(DropAt(p + [x], c), AtMost)
  {
    SortSnoc(p, x);
    if !AtMost(x, p[c]) {
      InsertLater(x, p[c], SortBy(DropAt(p, c), AtMost));
      SortSnoc(DropAt(p, c), x);
      DropAtSnoc(p, x, c);
    }
  }

  /** The head of the sorted list is the first best candidate, and the tail sorts the others. */
  lemma {:induction false} SortedHead(xs: seq<Scored>)
    requires xs != [] && Increasing(xs)
    ensures var b := FirstBest(StripAll(xs)); SortBy(xs, AtMost) == [xs[b]] + SortBy(DropAt(xs, b), AtMost)
  {
    var n := |xs| - 1;
    var p, x := xs[..n], xs[n];
    if n == 0 {
      assert DropAt(xs, 0) == [];
    } else {
      assert xs == p + [x];
      assert Increasing(p);
      assert DropAt(xs, n) == p;
      hide *;
      SortedHead(p);
      var b, c := FirstBestSnoc(p, x);
      SortedHeadStep(p, x, c);
    }
  }

  lemma {:induction false} DropAtSnoc(p: seq<Scored>, x: Scored, c: nat)
    requires c < |p|
    ensures DropAt(p + [x], c) == DropAt(p, c) + [x]
  {
  }

  /** How a last candidate affects the choice, in terms of the tuple order. */
  lemma {:induction false} FirstBestSnoc(p: seq<Scored>, x: Scored) returns (b: nat, c: nat)
    requires p != [] && Increasing(p + [x])
    ensures b == FirstBest(StripAll(p + [x])) && c == FirstBest(StripAll(p)) && c < |p|
    ensures b == if AtMost(x, p[c]) then |p| else c
  {
    var xs := p + [x];
    b, c := FirstBest(StripAll(xs)), FirstBest(StripAll(p));
    assert StripAll(xs)[..|p|] == StripAll(p);
    assert xs[c].index < xs[|p|].index;
  }

  // --- Dropping a terminal -------------------------------------------------

  function Without(xs: seq<Scored>, t: int): (r: seq<Scored>) {
    if xs == [] then []
    else
      var n := |xs| - 1;
      Without(xs[..n], t) + if xs[n].terminal == t then [] else [xs[n]]
  }

  lemma {:induction false} WithoutHead(x: Scored, xs: seq<Scored>, t: int)
    ensures Without([x] + xs, t) == (if x.terminal == t then [] else [x]) + Without(xs, t)
  {
    var n := |xs|;
    if n > 0 {
      WithoutHead(x, xs[..n - 1], t);
      assert ([x] + xs)[..n] == [x] + xs[..n - 1];
    } else {
      assert ([x] + xs)[..0] == [];
    }
  }

  lemma {:induction false} WithoutMembers(xs: seq<Scored>, t: int, x: Scored)
    requires x in Without(xs, t)
    ensures x in xs && x.terminal != t
  {
    var n := |xs| - 1;
    if x in Without(xs[..n], t) {
      WithoutMembers(xs[..n], t, x);
    }
  }

  lemma {:induction false} WithoutIsIncreasing(xs: seq<Scored>, t: int)
    requires Increasing(xs)
    ensures Increasing(Without(xs, t))
  {
    if xs != [] {
      var n := |xs| - 1;
      WithoutIsIncreasing(xs[..n], t);
      forall i | 0 <= i < |Without(xs[..n], t)|
        ensures Without(xs[..n], t)[i].index < xs[n].index
      {
        WithoutMembers(xs[..n], t, Without(xs[..n], t)[i]);
      }
    }
  }

  lemma {:induction false} StripWithout(xs: seq<Scored>, t: int)
    ensures StripAll(Without(xs, t)) == WithoutTerminal(StripAll(xs), t)
  {
    if xs != [] {
      var n := |xs| - 1;
      StripWithout(xs[..n], t);
      assert StripAll(xs)[..n] == StripAll(xs[..n]);
    }
  }

  lemma {:induction false} WithoutInsert(x: Scored, xs: seq<Scored>, t: int)
    requires SortedBy(xs, AtMost)
    ensures Without(InsertBy(x, xs, AtMost), t) == if x.terminal == t then Without(xs, t) else InsertBy(x, Without(xs, t), AtMost)
  {
    if xs == [] {
      assert [x][..0] == [];
    } else if AtMost(x, xs[0]) {
      WithoutHead(x, xs, t);
      WithoutSmallest(x, xs, t);
    } else {
      var y, ys := xs[0], xs[1..];
      assert xs == [y] + ys;
      WithoutHead(y, ys, t);
      WithoutInsert(x, ys, t);
      WithoutHead(y, InsertBy(x, ys, AtMost), t);
      InsertLater(x, y, Without(ys, t));
      if y.terminal == t {
        assert Without(xs, t) == Without(ys, t);
        assert Without(InsertBy(x, xs, AtMost), t) == Without(InsertBy(x, ys, AtMost), t);
      }
    }
  }

  lemma {:induction false} WithoutSmallest(x: Scored, xs: seq<Scored>, t: int)
    requires xs != [] && SortedBy(xs, AtMost) && AtMost(x, xs[0])
    ensures InsertBy(x, Without(xs, t), AtMost) == [x] + Without(xs, t)
  {
    var w := Without(xs, t);
    if w != [] {
      WithoutMembers(xs, t, w[0]);
      var i :| 0 <= i < |xs| && xs[i] == w[0];
      assert i == 0 || AtMost(xs[0], xs[i]);
    }
  }

  /** Filtering a terminal and sorting commute. */
  lemma {:induction false} WithoutSort(xs: seq<Scored>, t: int)
    ensures Without(SortBy(xs, AtMost), t) == SortBy(Without(xs, t), AtMost)
  {
    if xs != [] {
      var n := |xs| - 1;
      var p, x := xs[..n], xs[n];
      assert xs == p + [x];
      WithoutSnoc(p, x, t);
      hide *;
      SortSnoc(p, x);
      SortScored(p);
      WithoutInsert(x, SortBy(p, AtMost), t);
      WithoutSort(p, t);
      SortSnoc(Without(p, t), x);
    }
  }

  lemma {:induction false} WithoutSnoc(p: seq<Scored>, x: Scored, t: int)
    ensures Without(p + [x], t) == if x.terminal == t then Without(p, t) else Without(p, t) + [x]
  {
    assert (p + [x])[..|p|] == p;
  }

  // --- The single scan of the sorted list ----------------------------------

  /** What the scan selects from `xs`, given the terminals already seen and the ranks left. */
  function Scan(xs: seq<Scored>, seen: set<int>, k: nat, dedup: bool): (r: seq<Scored>)
    ensures |r| <= k
  {
    if xs == [] || k == 0 then []
    else if dedup && xs[0].terminal in seen then Scan(xs[1..], seen, k, dedup)
    else [xs[0]] + Scan(xs[1..], seen + {xs[0].terminal}, k - 1, dedup)
  }

  /** A seen terminal may as well be removed from the list beforehand. */
  lemma {:induction false} ScanWithout(xs: seq<Scored>, seen: set<int>, t: int, k: nat)
    ensures Scan(xs, seen + {t}, k, true) == Scan(Without(xs, t), seen, k, true)
    decreases |xs|
  {
    if xs != [] && k > 0 {
      var x, rest := xs[0], xs[1..];
      assert xs == [x] + rest;
      WithoutHead(x, rest, t);
      var w := Without(rest, t);
      assert ([x] + w)[1..] == w;
      if x.terminal == t || x.terminal in seen {
        ScanWithout(rest, seen, t, k);
        if x.terminal == t {
          assert Without(xs, t) == w;
        }
      } else {
        ScanWithout(rest, seen + {x.terminal}, t, k - 1);
        assert seen + {t} + {x.terminal} == seen + {x.terminal} + {t};
      }
    }
  }

  lemma {:induction false} ScanIgnoresSeen(xs: seq<Scored>, seen: set<int>, seen': set<int>, k: nat)
    ensures Scan(xs, seen, k, false) == Scan(xs, seen', k, false)
  {
    if xs != [] && k > 0 {
      ScanIgnoresSeen(xs[1..], seen + {xs[0].terminal}, seen' + {xs[0].terminal}, k - 1);
    }
  }

  /** What is left to scan, in tuple form, once `xs[b]` has been selected. */
  function LeftOver(xs: seq<Scored>, b: nat, dedup: bool): seq<Scored>
    requires b < |xs|
  {
    if dedup then Without(xs, xs[b].terminal) else DropAt(xs, b)
  }

  lemma {:induction false} NothingToScan(xs: seq<Scored>, k: nat, dedup: bool)
    requires xs == [] || k == 0
    ensures StripAll(Scan(SortBy(xs, AtMost), {}, k, dedup)) == [] && Greedy(StripAll(xs), k, dedup) == []
  {
  }

  /** Both sides take the same first candidate and are left with the same rest. */
  lemma {:induction false} SameHead(xs: seq<Scored>, k: nat, dedup: bool) returns (x: Scored, left: seq<Scored>)
    requires xs != [] && Increasing(xs) && k > 0
    ensures Increasing(left)
    ensures Scan(SortBy(xs, AtMost), {}, k, dedup) == [x] + Scan(SortBy(left, AtMost), {}, k - 1, dedup)
    ensures Greedy(StripAll(xs), k, dedup) == [Strip(x)] + Greedy(StripAll(left), k - 1, dedup)
  {
    hide *;
    var b := FirstBest(StripAll(xs));
    x, left := xs[b], LeftOver(xs, b, dedup);
    LeftIsRemaining(xs, b, dedup);
    ScanHead(xs, k, dedup);
    GreedyStep(StripAll(xs), k, dedup);
  }

  /** Sorting and scanning once is choosing greedily, ties and duplicates included. */
  lemma {:induction false} ScanIsGreedy(xs: seq<Scored>, k: nat, dedup: bool)
    requires Increasing(xs)
    ensures StripAll(Scan(SortBy(xs, AtMost), {}, k, dedup)) == Greedy(StripAll(xs), k, dedup)
    decreases k
  {
    hide *;
    if xs == [] || k == 0 {
      NothingToScan(xs, k, dedup);
    } else {
      var x, left := SameHead(xs, k, dedup);
      ScanIsGreedy(left, k - 1, dedup);
      StripAllCons(x, Scan(SortBy(left, AtMost), {}, k - 1, dedup));
    }
  }

  lemma {:induction false} StripAllCons(x: Scored, xs: seq<Scored>)
    ensures StripAll([x] + xs) == [Strip(x)] + StripAll(xs)
  {
  }

  lemma {:induction false} LeftIsRemaining(xs: seq<Scored>, b: nat, dedup: bool)
    requires b < |xs| && Increasing(xs)
    ensures Increasing(LeftOver(xs, b, dedup))
    ensures StripAll(LeftOver(xs, b, dedup)) == Remaining(StripAll(xs), b, dedup)
  {
    if dedup {
      WithoutIsIncreasing(xs, xs[b].terminal);
      StripWithout(xs, xs[b].terminal);
    } else {
      assert StripAll(DropAt(xs, b)) == Remaining(StripAll(xs), b, false);
    }
  }

  lemma {:induction false} ScanHead(xs: seq<Scored>, k: nat, dedup: bool)
    requires xs != [] && Increasing(xs) && k > 0
    ensures var b := FirstBest(StripAll(xs));
      Scan(SortBy(xs, AtMost), {}, k, dedup) == [xs[b]] + Scan(SortBy(LeftOver(xs, b, dedup), AtMost), {}, k - 1, dedup)
  {
    var b := FirstBest(StripAll(xs));
    SortedHead(xs);
    WithoutDropAt(xs, b);
    ScanSortedCons(xs[b], DropAt(xs, b), LeftOver(xs, b, dedup), k, dedup);
  }

  lemma {:induction false} ScanSortedCons(x: Scored, rest: seq<Scored>, left: seq<Scored>, k: nat, dedup: bool)
    requires k > 0
    requires left == if dedup then Without(rest, x.terminal) else rest
    ensures Scan([x] + SortBy(rest, AtMost), {}, k, dedup) == [x] + Scan(SortBy(left, AtMost), {}, k - 1, dedup)
  {
    hide *;
    ScanCons(x, SortBy(rest, AtMost), k, dedup);
    if dedup {
      ScanWithout(SortBy(rest, AtMost), {}, x.terminal, k - 1);
      WithoutSort(rest, x.terminal);
      assert {} + {x.terminal} == {x.terminal};
    } else {
      ScanIgnoresSeen(SortBy(rest, AtMost), {x.terminal}, {}, k - 1);
    }
  }

  lemma {:induction false} ScanCons(x: Scored, xs: seq<Scored>, k: nat, dedup: bool)
    requires k > 0
    ensures Scan([x] + xs, {}, k, dedup) == [x] + Scan(xs, {x.terminal}, k - 1, dedup)
  {
    assert ([x] + xs)[1..] == xs;
    assert {} + {x.terminal} == {x.terminal};
  }

  lemma {:induction false} WithoutDropAt(xs: seq<Scored>, b: nat)
    requires b < |xs|
    ensures Without(DropAt(xs, b), xs[b].terminal) == Without(xs, xs[b].terminal)
  {
    var n := |xs| - 1;
    if b == n {
      assert DropAt(xs, b) == xs[..n];
    } else {
      WithoutDropAt(xs[..n], b);
      assert DropAt(xs, b)[..n - 1] == DropAt(xs[..n], b);
      assert DropAt(xs, b)[n - 1] == xs[n];
    }
  }

  // --- The evaluator's ranking code -----------------------------------------

  /** Scan the sorted list with a set of seen terminals and stop at `k`. */
  method Select(sorted: seq<Scored>, k: nat, dedup: bool) returns (selected: seq<Scored>)
    requires k > 0
    ensures selected == Scan(sorted, {}, k, dedup)
  {
    ScanEmpty(dedup);
    hide Scan;
    selected := [];
    var seen: set<int> := {};
    assert sorted[0..] == sorted;
    for i := 0 to |sorted|
      invariant |selected| < k
      invariant selected + Scan(sorted[i..], seen, k - |selected|, dedup) == Scan(sorted, {}, k, dedup)
    {
      var candidate := sorted[i];
      ScanUnfold(sorted[i..], seen, k - |selected|, dedup);
      assert sorted[i..][1..] == sorted[i + 1..];
      if dedup && candidate.terminal in seen {
        continue;
      }
      ghost var rest := Scan(sorted[i + 1..], seen + {candidate.terminal}, k - |selected| - 1, dedup);
      assert selected + ([candidate] + rest) == selected + [candidate] + rest;
      selected := selected + [candidate];
      seen := seen + {candidate.terminal};
      if |selected| == k {
        assert rest == [];
        break;
      }
    }
  }

  lemma {:induction false} ScanEmpty(dedup: bool)
    ensures forall seen, k :: Scan([], seen, k, dedup) == []
  {
  }

  lemma {:induction false} ScanUnfold(xs: seq<Scored>, seen: set<int>, k: nat, dedup: bool)
    requires xs != [] && k > 0
    ensures Scan(xs, seen, k, dedup) ==
      if dedup && xs[0].terminal in seen then Scan(xs[1..], seen, k, dedup)
      else [xs[0]] + Scan(xs[1..], seen + {xs[0].terminal}, k - 1, dedup)
  {
  }

  // --- The rows, on the tuples themselves ------------------------------------------------------

  /** A higher score (the tuples carry it negated), or the same score at an earlier position. */
  ghost predicate TupleBeats(xs: seq<Scored>, i: nat, j: nat) {
    && i < |xs| && j < |xs|
    && (xs[i].negative < xs[j].negative || (xs[i].negative == xs[j].negative && i < j))
  }

  ghost predicate TuplePassed(xs: seq<Scored>, k: nat, dedup: bool, picks: seq<nat>, i: nat) {
    || (|picks| == k && forall r :: 0 <= r < |picks| ==> TupleBeats(xs, picks[r], i))
    || (dedup && exists r :: 0 <= r < |picks| && TupleBeats(xs, picks[r], i) && xs[picks[r]].terminal == xs[i].terminal)
  }

  /** The `r`-th row is the picked tuple's own left handle, right handle and score. */
  ghost predicate TupleRow(xs: seq<Scored>, picks: seq<nat>, r: nat, row: Row) {
    if r < |picks| then
      && picks[r] < |xs| && row.valid == 1
      && row.left == xs[picks[r]].left && row.right == xs[picks[r]].right && row.score == -xs[picks[r]].negative
    else
      row.valid == 0 && row.left == 0 && row.right == 0 && row.score == 0
  }

  ghost predicate TuplesOrdered(xs: seq<Scored>, dedup: bool, i: nat, j: nat) {
    TupleBeats(xs, i, j) && (dedup ==> xs[i].terminal != xs[j].terminal)
  }

  ghost predicate PickedTuples(xs: seq<Scored>, k: nat, dedup: bool, picks: seq<nat>, rows: seq<Row>) {
    && |rows| == k && |picks| <= k
    && (forall r :: 0 <= r < k ==> TupleRow(xs, picks, r, rows[r]))
    && (forall r, s :: 0 <= r < s < |picks| ==> TuplesOrdered(xs, dedup, picks[r], picks[s]))
    && forall i: nat :: i < |xs| && i !in picks ==> TuplePassed(xs, k, dedup, picks, i)
  }

  ghost predicate TupleRows(xs: seq<Scored>, k: nat, dedup: bool, rows: seq<Row>) {
    exists picks: seq<nat> :: PickedTuples(xs, k, dedup, picks, rows)
  }

  lemma {:induction false} TopKIsTupleRows(xs: seq<Scored>, k: nat, dedup: bool)
    ensures TupleRows(xs, k, dedup, TopK(StripAll(xs), k, dedup))
  {
    var cs := StripAll(xs);
    var rows := TopK(cs, k, dedup);
    var picks := GreedyPicks(cs, k, dedup);
    PicksAt(cs, k, dedup, picks);
    TakenAt(cs, picks);
    hide Greedy, Picks, Taken;
    forall r | 0 <= r < k
      ensures TupleRow(xs, picks, r, rows[r])
    {
    }
    forall r, s | 0 <= r < s < |picks|
      ensures TuplesOrdered(xs, dedup, picks[r], picks[s])
    {
      PicksPair(cs, k, dedup, picks, r, s);
    }
    forall i: nat | i < |xs| && i !in picks
      ensures TuplePassed(xs, k, dedup, picks, i)
    {
      PicksPassed(cs, k, dedup, picks, i);
      assert forall r :: 0 <= r < |picks| && Beats(cs, picks[r], i) ==> TupleBeats(xs, picks[r], i);
    }
    hide TupleRow, TuplesOrdered, TuplePassed;
    assert PickedTuples(xs, k, dedup, picks, rows);
  }

  /** Sort, select, and pad to `k` rows. */
  method RankBySorting(candidates: seq<Scored>, k: nat, dedup: bool) returns (rows: seq<Row>)
    requires k > 0 && Increasing(candidates)
    ensures rows == TopK(StripAll(candidates), k, dedup)
    ensures TupleRows(candidates, k, dedup, rows)
  {
    TopKIsTupleRows(candidates, k, dedup);
    ScanIsGreedy(candidates, k, dedup);
    hide *;
    var selected := Select(SortBy(candidates, AtMost), k, dedup);
    rows := PadRows(selected, k);
    RowsAreTopK(candidates, selected, k, dedup);
  }

  lemma {:induction false} RowsAreTopK(candidates: seq<Scored>, selected: seq<Scored>, k: nat, dedup: bool)
    requires StripAll(selected) == Greedy(StripAll(candidates), k, dedup)
    ensures Rows(StripAll(selected), k) == TopK(StripAll(candidates), k, dedup)
  {
  }

  /** The selected tuples as rows, padded with zero rows. */
  method PadRows(selected: seq<Scored>, k: nat) returns (rows: seq<Row>)
    ensures rows == Rows(StripAll(selected), k)
  {
    rows := [];
    for rank := 0 to k
      invariant rows == Rows(StripAll(selected), k)[..rank]
    {
      if rank < |selected| {
        var c := selected[rank];
        rows := rows + [Row(1, c.left, c.right, -c.negative)];
      } else {
        rows := rows + [Row(0, 0, 0, 0)];
      }
    }
  }
}
