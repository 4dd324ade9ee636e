// Stable top-k with optional terminal deduplication: one specification, the
// data-oblivious circuit that computes it, and the sort-and-scan oracle.
module Ranking {
  import opened Gates

  datatype Candidate = Candidate(score: int, left: int, right: int, terminal: int)

  datatype Row = Row(valid: int, left: int, right: int, score: int)

  // ---------------------------------------------------------------------
  // Specification: candidates are listed in public slot order, so a position
  // in the sequence is the tie-break.
  // ---------------------------------------------------------------------

  /** The first candidate of maximal score. */
  function FirstBest(cs: seq<Candidate>): (b: nat)
    requires cs != []
    ensures b < |cs|
    ensures forall i :: 0 <= i < |cs| ==> cs[i].score <= cs[b].score
    ensures forall i :: 0 <= i < b ==> cs[i].score < cs[b].score
  {
    var n := |cs| - 1;
    if n == 0 then 0
    else
      var b := FirstBest(cs[..n]);
      if cs[n].score > cs[b].score then n else b
  }

  function WithoutTerminal(cs: seq<Candidate>, t: int): (r: seq<Candidate>)
    ensures |r| <= |cs|
  {
    if cs == [] then []
    else
      var n := |cs| - 1;
      WithoutTerminal(cs[..n], t) + if cs[n].terminal == t then [] else [cs[n]]
  }

  /** What is left after candidate `b` has been chosen. */
  function Remaining(cs: seq<Candidate>, b: nat, dedup: bool): (r: seq<Candidate>)
    requires b < |cs|
  {
    if dedup then WithoutTerminal(cs, cs[b].terminal) else cs[..b] + cs[b + 1..]
  }

  /** Repeatedly take the first best candidate. */
  function Greedy(cs: seq<Candidate>, k: nat, dedup: bool): (r: seq<Candidate>)
    ensures |r| <= k
    decreases k
  {
    if k == 0 || cs == [] then []
    else
      var b := FirstBest(cs);
      [cs[b]] + Greedy(Remaining(cs, b, dedup), k - 1, dedup)
  }

  lemma {:induction false} GreedyStep(cs: seq<Candidate>, k: nat, dedup: bool)
    requires cs != [] && k > 0
    ensures var b := FirstBest(cs); Greedy(cs, k, dedup) == [cs[b]] + Greedy(Remaining(cs, b, dedup), k - 1, dedup)
  {
  }

  const EMPTY_ROW := Row(0, 0, 0, 0)

  function RowOf(c: Candidate): Row {
    Row(1, c.left, c.right, c.score)
  }

  /** `k` output rows, padded with all-zero rows. */
  function Rows(chosen: seq<Candidate>, k: nat): (r: seq<Row>)
    ensures |r| == k
    ensures forall i :: 0 <= i < k ==>
      r[i] == if i < |chosen| then RowOf(chosen[i]) else EMPTY_ROW
  {
    seq(k, i requires 0 <= i < k => if i < |chosen| then RowOf(chosen[i]) else EMPTY_ROW)
  }

  function TopK(cs: seq<Candidate>, k: nat, dedup: bool): seq<Row> {
    Rows(Greedy(cs, k, dedup), k)
  }

  lemma {:induction false} RowsCons(c: Candidate, rest: seq<Candidate>, k: nat)
    requires k > 0
    ensures Rows([c] + rest, k) == [RowOf(c)] + Rows(rest, k - 1)
  {
  }

  /** One rank of the specification. */
  lemma {:induction false} TopKStep(cs: seq<Candidate>, k: nat, dedup: bool)
    requires k > 0
    ensures cs == [] ==> TopK(cs, k, dedup) == [EMPTY_ROW] + TopK(cs, k - 1, dedup)
    ensures cs != [] ==>
      TopK(cs, k, dedup) == [RowOf(cs[FirstBest(cs)])] + TopK(Remaining(cs, FirstBest(cs), dedup), k - 1, dedup)
  {
    if cs != [] {
      GreedyStep(cs, k, dedup);
      hide Greedy, FirstBest, Remaining, Rows;
      var b := FirstBest(cs);
      RowsCons(cs[b], Greedy(Remaining(cs, b, dedup), k - 1, dedup), k);
    } else {
      assert TopK(cs, k, dedup) == [EMPTY_ROW] + TopK(cs, k - 1, dedup);
    }
  }

  // ---------------------------------------------------------------------
  // What the greedy choice takes, position by position.
  // ---------------------------------------------------------------------

  /** A higher score, or the same score at an earlier position. */
  ghost predicate Beats(cs: seq<Candidate>, i: nat, j: nat) {
    i < |cs| && j < |cs| && (cs[i].score > cs[j].score || (cs[i].score == cs[j].score && i < j))
  }

  /** Candidate `i` was not taken because every pick beats it, or because a pick that beats it has its terminal. */
  ghost predicate Passed(cs: seq<Candidate>, k: nat, dedup: bool, picks: seq<nat>, i: nat) {
    || (|picks| == k && forall r :: 0 <= r < |picks| ==> Beats(cs, picks[r], i))
    || (dedup && exists r :: 0 <= r < |picks| && Beats(cs, picks[r], i) && cs[picks[r]].terminal == cs[i].terminal)
  }

  /** The picks, best first, and why every other candidate was passed over. */
  ghost predicate Picks(cs: seq<Candidate>, k: nat, dedup: bool, picks: seq<nat>) {
    && |picks| <= k && (forall r :: 0 <= r < |picks| ==> picks[r] < |cs|)
    && (forall r, s :: 0 <= r < s < |picks| ==>
          Beats(cs, picks[r], picks[s]) && (dedup ==> cs[picks[r]].terminal != cs[picks[s]].terminal))
    && forall i: nat :: i < |cs| && i !in picks ==> Passed(cs, k, dedup, picks, i)
  }

  /** The candidates a list keeps, by their positions in it. */
  ghost predicate Keeps(cs: seq<Candidate>, kept: seq<Candidate>, at: seq<nat>) {
    && |at| == |kept| && (forall i :: 0 <= i < |at| ==> at[i] < |cs| && cs[at[i]] == kept[i])
    && forall i, j :: 0 <= i < j < |at| ==> at[i] < at[j]
  }

  /** The positions of every candidate with another terminal. */
  ghost predicate Unlike(cs: seq<Candidate>, t: int, kept: seq<Candidate>, at: seq<nat>) {
    && Keeps(cs, kept, at)
    && (forall j :: 0 <= j < |at| ==> cs[at[j]].terminal != t)
    && forall i: nat :: i < |cs| && cs[i].terminal != t ==> i in at
  }

  lemma {:induction false} UnlikeSnoc(cs: seq<Candidate>, t: int, kept: seq<Candidate>, at: seq<nat>, c: Candidate)
    requires Unlike(cs, t, kept, at)
    ensures c.terminal == t ==> Unlike(cs + [c], t, kept, at)
    ensures c.terminal != t ==> Unlike(cs + [c], t, kept + [c], at + [|cs|])
  {
    assert forall i: nat :: i < |cs| ==> (cs + [c])[i] == cs[i];
    assert (at + [|cs|])[|at|] == |cs|;
  }

  lemma {:induction false} WithoutSteps(cs: seq<Candidate>, t: int)
    ensures WithoutTerminal([], t) == []
    ensures cs != [] ==>
      var n := |cs| - 1;
      && cs == cs[..n] + [cs[n]]
      && WithoutTerminal(cs, t) == if cs[n].terminal == t then WithoutTerminal(cs[..n], t) else WithoutTerminal(cs[..n], t) + [cs[n]]
  {
  }

  lemma {:induction false} WithoutKeeps(cs: seq<Candidate>, t: int) returns (at: seq<nat>)
    ensures Unlike(cs, t, WithoutTerminal(cs, t), at)
  {
    WithoutSteps(cs, t);
    if cs == [] {
      at := [];
    } else {
      hide *;
      var n := |cs| - 1;
      at := WithoutKeeps(cs[..n], t);
      UnlikeSnoc(cs[..n], t, WithoutTerminal(cs[..n], t), at, cs[n]);
      if cs[n].terminal != t {
        at := at + [n];
      }
    }
  }

  /** What is left after a choice: every position but the chosen one, and its terminal's under deduplication. */
  ghost predicate Others(cs: seq<Candidate>, b: nat, dedup: bool, kept: seq<Candidate>, at: seq<nat>) {
    && b < |cs| && Keeps(cs, kept, at)
    && (forall j :: 0 <= j < |at| ==> at[j] != b && (dedup ==> cs[at[j]].terminal != cs[b].terminal))
    && forall i: nat :: i < |cs| && i != b && (dedup ==> cs[i].terminal != cs[b].terminal) ==> i in at
  }

  lemma {:induction false} RemainingKeeps(cs: seq<Candidate>, b: nat, dedup: bool) returns (at: seq<nat>)
    requires b < |cs|
    ensures Others(cs, b, dedup, Remaining(cs, b, dedup), at)
  {
    if dedup {
      at := WithoutKeeps(cs, cs[b].terminal);
    } else {
      var kept := cs[..b] + cs[b + 1..];
      at := seq(|kept|, i requires 0 <= i => if i < b then i else i + 1);
      forall i: nat | i < |cs| && i != b
        ensures i in at
      {
        assert at[if i < b then i else i - 1] == i;
      }
    }
  }

  ghost predicate BeatsAll(cs: seq<Candidate>, b: nat) {
    b < |cs| && forall i: nat :: i < |cs| && i != b ==> Beats(cs, b, i)
  }

  lemma {:induction false} BestBeats(cs: seq<Candidate>)
    requires cs != []
    ensures BeatsAll(cs, FirstBest(cs))
  {
    var b := FirstBest(cs);
    hide FirstBest;
  }

  /** The greedy choice, by positions. */
  lemma {:induction false} GreedyPicks(cs: seq<Candidate>, k: nat, dedup: bool) returns (picks: seq<nat>)
    ensures Picks(cs, k, dedup, picks) && Greedy(cs, k, dedup) == Taken(cs, picks)
    decreases k, 1
  {
    if k > 0 && cs != [] {
      GreedyStep(cs, k, dedup);
      BestBeats(cs);
      picks := MorePicks(cs, k, dedup, FirstBest(cs));
    } else {
      picks := [];
      NoPicks(cs, k, dedup);
    }
  }

  lemma {:induction false} MorePicks(cs: seq<Candidate>, k: nat, dedup: bool, b: nat) returns (picks: seq<nat>)
    requires k > 0 && BeatsAll(cs, b) && b < |cs|
    requires Greedy(cs, k, dedup) == [cs[b]] + Greedy(Remaining(cs, b, dedup), k - 1, dedup)
    ensures Picks(cs, k, dedup, picks) && Greedy(cs, k, dedup) == Taken(cs, picks)
    decreases k, 0
  {
    hide *;
    var kept := Remaining(cs, b, dedup);
    var at := RemainingKeeps(cs, b, dedup);
    var rest := GreedyPicks(kept, k - 1, dedup);
    PicksCons(cs, k, dedup, b, kept, at, rest);
    picks := [b] + MapPicks(at, rest);
  }

  /** The candidates at the picks. */
  ghost function Taken(cs: seq<Candidate>, picks: seq<nat>): (r: seq<Candidate>) {
    seq(|picks|, i requires 0 <= i < |picks| => if picks[i] < |cs| then cs[picks[i]] else Candidate(0, 0, 0, 0))
  }

  lemma {:induction false} TakenCons(cs: seq<Candidate>, b: nat, kept: seq<Candidate>, at: seq<nat>, rest: seq<nat>)
    requires b < |cs| && |at| == |kept| && forall i :: 0 <= i < |at| ==> at[i] < |cs| && cs[at[i]] == kept[i]
    requires forall r :: 0 <= r < |rest| ==> rest[r] < |at|
    ensures Taken(cs, [b] + MapPicks(at, rest)) == [cs[b]] + Taken(kept, rest)
  {
  }

  lemma {:induction false} NoPicks(cs: seq<Candidate>, k: nat, dedup: bool)
    requires k == 0 || cs == []
    ensures Picks(cs, k, dedup, []) && Greedy(cs, k, dedup) == Taken(cs, [])
  {
  }

  lemma {:induction false} KeepsAt(cs: seq<Candidate>, kept: seq<Candidate>, at: seq<nat>)
    requires Keeps(cs, kept, at)
    ensures |at| == |kept| && forall i :: 0 <= i < |at| ==> at[i] < |cs| && cs[at[i]] == kept[i]
  {
  }

  function MapPicks(at: seq<nat>, picks: seq<nat>): (r: seq<nat>)
    requires forall i :: 0 <= i < |picks| ==> picks[i] < |at|
    ensures |r| == |picks| && forall i :: 0 <= i < |r| ==> r[i] == at[picks[i]]
  {
    seq(|picks|, i requires 0 <= i < |picks| => at[picks[i]])
  }

  /** Positions carried through keep their order. */
  lemma {:induction false} BeatsKept(cs: seq<Candidate>, kept: seq<Candidate>, at: seq<nat>, i: nat, j: nat)
    requires Keeps(cs, kept, at) && Beats(kept, i, j)
    ensures Beats(cs, at[i], at[j])
  {
  }

  lemma {:induction false} PicksAt(cs: seq<Candidate>, k: nat, dedup: bool, picks: seq<nat>)
    requires Picks(cs, k, dedup, picks)
    ensures |picks| <= k && forall r :: 0 <= r < |picks| ==> picks[r] < |cs|
  {
  }

  lemma {:induction false} PicksPair(cs: seq<Candidate>, k: nat, dedup: bool, picks: seq<nat>, r: nat, s: nat)
    requires Picks(cs, k, dedup, picks) && r < s < |picks|
    ensures picks[r] < |cs| && picks[s] < |cs| && Beats(cs, picks[r], picks[s])
    ensures dedup ==> cs[picks[r]].terminal != cs[picks[s]].terminal
  {
  }

  lemma {:induction false} PicksPassed(cs: seq<Candidate>, k: nat, dedup: bool, picks: seq<nat>, i: nat)
    requires Picks(cs, k, dedup, picks) && i < |cs| && i !in picks
    ensures Passed(cs, k, dedup, picks, i)
  {
  }

  lemma {:induction false} PickMapped(at: seq<nat>, picks: seq<nat>, j: nat)
    requires (forall i :: 0 <= i < |picks| ==> picks[i] < |at|) && j in picks
    ensures j < |at| && at[j] in MapPicks(at, picks)
  {
    var r :| 0 <= r < |picks| && picks[r] == j;
    assert MapPicks(at, picks)[r] == at[j];
  }

  lemma {:induction false} PicksAre(cs: seq<Candidate>, k: nat, dedup: bool, picks: seq<nat>)
    requires |picks| <= k && forall r :: 0 <= r < |picks| ==> picks[r] < |cs|
    requires forall r, s :: 0 <= r < s < |picks| ==>
      Beats(cs, picks[r], picks[s]) && (dedup ==> cs[picks[r]].terminal != cs[picks[s]].terminal)
    requires forall i: nat :: i < |cs| && i !in picks ==> Passed(cs, k, dedup, picks, i)
    ensures Picks(cs, k, dedup, picks)
  {
    hide Beats, Passed;
  }

  /** The best candidate in front of the picks among the rest. */
  lemma {:induction false} PicksCons(cs: seq<Candidate>, k: nat, dedup: bool, b: nat, kept: seq<Candidate>, at: seq<nat>, rest: seq<nat>)
    requires k > 0 && b < |cs| && Picks(kept, k - 1, dedup, rest)
    requires BeatsAll(cs, b)
    requires Others(cs, b, dedup, kept, at)
    ensures forall r :: 0 <= r < |rest| ==> rest[r] < |at|
    ensures Picks(cs, k, dedup, [b] + MapPicks(at, rest))
    ensures Taken(cs, [b] + MapPicks(at, rest)) == [cs[b]] + Taken(kept, rest)
  {
    PicksAt(kept, k - 1, dedup, rest);
    OthersKeep(cs, b, dedup, kept, at);
    KeepsAt(cs, kept, at);
    hide *;
    TakenCons(cs, b, kept, at, rest);
    var picks := [b] + MapPicks(at, rest);
    forall r, s | 0 <= r < s < |picks|
      ensures picks[r] < |cs| && picks[s] < |cs| && Beats(cs, picks[r], picks[s])
      ensures dedup ==> cs[picks[r]].terminal != cs[picks[s]].terminal
    {
      ConsPair(cs, k, dedup, b, kept, at, rest, r, s);
    }
    forall i: nat | i < |cs| && i !in picks
      ensures Passed(cs, k, dedup, picks, i)
    {
      ConsPassed(cs, k, dedup, b, kept, at, rest, i);
    }
    PicksAre(cs, k, dedup, picks);
  }

  lemma {:induction false} OthersKeep(cs: seq<Candidate>, b: nat, dedup: bool, kept: seq<Candidate>, at: seq<nat>)
    requires Others(cs, b, dedup, kept, at)
    ensures Keeps(cs, kept, at)
  {
  }

  lemma {:induction false} OtherAt(cs: seq<Candidate>, b: nat, dedup: bool, kept: seq<Candidate>, at: seq<nat>, j: nat)
    requires Others(cs, b, dedup, kept, at) && BeatsAll(cs, b) && j < |at|
    ensures b < |cs| && at[j] < |cs| && Beats(cs, b, at[j]) && (dedup ==> cs[at[j]].terminal != cs[b].terminal)
  {
  }

  lemma {:induction false} ConsPair(cs: seq<Candidate>, k: nat, dedup: bool, b: nat, kept: seq<Candidate>, at: seq<nat>, rest: seq<nat>, r: nat, s: nat)
    requires k > 0 && Picks(kept, k - 1, dedup, rest) && BeatsAll(cs, b) && Others(cs, b, dedup, kept, at)
    requires (forall i :: 0 <= i < |rest| ==> rest[i] < |at|) && r < s < 1 + |rest|
    ensures var picks := [b] + MapPicks(at, rest);
      && picks[r] < |cs| && picks[s] < |cs| && Beats(cs, picks[r], picks[s])
      && (dedup ==> cs[picks[r]].terminal != cs[picks[s]].terminal)
  {
    hide *;
    if r == 0 {
      OtherAt(cs, b, dedup, kept, at, rest[s - 1]);
    } else {
      OthersKeep(cs, b, dedup, kept, at);
      KeepsAt(cs, kept, at);
      PicksPair(kept, k - 1, dedup, rest, r - 1, s - 1);
      BeatsKept(cs, kept, at, rest[r - 1], rest[s - 1]);
    }
  }

  lemma {:induction false} ConsPassed(cs: seq<Candidate>, k: nat, dedup: bool, b: nat, kept: seq<Candidate>, at: seq<nat>, rest: seq<nat>, i: nat)
    requires k > 0 && Picks(kept, k - 1, dedup, rest) && BeatsAll(cs, b) && Others(cs, b, dedup, kept, at)
    requires (forall r :: 0 <= r < |rest| ==> rest[r] < |at|) && i < |cs| && i !in [b] + MapPicks(at, rest)
    ensures Passed(cs, k, dedup, [b] + MapPicks(at, rest), i)
  {
    OthersKeep(cs, b, dedup, kept, at);
    assert i != b by {
      assert ([b] + MapPicks(at, rest))[0] == b;
    }
    if i in at {
      var j :| 0 <= j < |at| && at[j] == i;
      OtherAt(cs, b, dedup, kept, at, j);
      hide *;
      PassedKept(cs, k, dedup, b, kept, at, rest, j);
    } else {
      OutsideAt(cs, b, dedup, kept, at, i);
      hide *;
      PassedTwin(cs, k, dedup, [b] + MapPicks(at, rest), i);
    }
  }

  lemma {:induction false} OutsideAt(cs: seq<Candidate>, b: nat, dedup: bool, kept: seq<Candidate>, at: seq<nat>, i: nat)
    requires Others(cs, b, dedup, kept, at) && BeatsAll(cs, b) && i < |cs| && i != b && i !in at
    ensures b < |cs| && dedup && Beats(cs, b, i) && cs[b].terminal == cs[i].terminal
  {
    hide Keeps, Beats;
  }

  lemma {:induction false} PassedTwin(cs: seq<Candidate>, k: nat, dedup: bool, picks: seq<nat>, i: nat)
    requires dedup && picks != [] && i < |cs| && picks[0] < |cs|
    requires Beats(cs, picks[0], i) && cs[picks[0]].terminal == cs[i].terminal
    ensures Passed(cs, k, dedup, picks, i)
  {
  }

  lemma {:induction false} PassedKept(cs: seq<Candidate>, k: nat, dedup: bool, b: nat, kept: seq<Candidate>, at: seq<nat>, rest: seq<nat>, j: nat)
    requires k > 0 && b < |cs| && Keeps(cs, kept, at) && Picks(kept, k - 1, dedup, rest) && j < |at|
    requires (forall r :: 0 <= r < |rest| ==> rest[r] < |at|) && at[j] !in [b] + MapPicks(at, rest)
    requires Beats(cs, b, at[j])
    ensures Passed(cs, k, dedup, [b] + MapPicks(at, rest), at[j])
  {
    var picks := [b] + MapPicks(at, rest);
    KeepsAt(cs, kept, at);
    assert j !in rest by {
      if j in rest {
        PickMapped(at, rest, j);
      }
    }
    PicksPassed(kept, k - 1, dedup, rest, j);
    hide Keeps, Picks, Beats;
    if dedup && exists r :: 0 <= r < |rest| && Beats(kept, rest[r], j) && kept[rest[r]].terminal == kept[j].terminal {
      var r :| 0 <= r < |rest| && Beats(kept, rest[r], j) && kept[rest[r]].terminal == kept[j].terminal;
      BeatsKept(cs, kept, at, rest[r], j);
      assert picks[r + 1] == at[rest[r]];
    } else {
      forall r | 0 <= r < |picks|
        ensures Beats(cs, picks[r], at[j])
      {
        if r > 0 {
          BeatsKept(cs, kept, at, rest[r - 1], j);
        }
      }
    }
  }

  // ---------------------------------------------------------------------
  // The circuit. One lane holds one query's candidate arrays.
  // ---------------------------------------------------------------------

  datatype Lane = Lane(valid: seq<int>, score: seq<int>, left: seq<int>, right: seq<int>, terminal: seq<int>)
  {
    ghost predicate WellFormed(n: nat) {
      && |valid| == |score| == |left| == |right| == |terminal| == n
      && forall i :: 0 <= i < n ==> IsBit(valid[i])
    }

    function At(i: nat): Candidate
      requires i < |score| && i < |left| && i < |right| && i < |terminal|
    {
      Candidate(score[i], left[i], right[i], terminal[i])
    }
  }

  ghost predicate Flags(s: seq<int>, n: nat) {
    |s| == n && forall i :: 0 <= i < n ==> IsBit(s[i])
  }

  /** The candidates among the first `m` that are valid and not yet selected, in slot order. */
  function Available(lane: Lane, selected: seq<int>, m: nat): (r: seq<Candidate>)
    requires m <= |lane.valid| == |lane.score| == |lane.left| == |lane.right| == |lane.terminal| == |selected|
    ensures |r| <= m
  {
    if m == 0 then []
    else
      Available(lane, selected, m - 1)
      + if lane.valid[m - 1] == 1 && selected[m - 1] == 0 then [lane.At(m - 1)] else []
  }

  /** The running maximum of one rank's forward scan. */
  datatype Incumbent = Incumbent(valid: int, score: int, left: int, right: int, terminal: int)

  const NO_INCUMBENT := Incumbent(0, 0, 0, 0, 0)

  /** The flag that candidate `i` displaces the incumbent. */
  function Better(lane: Lane, selected: seq<int>, i: nat, best: Incumbent): int
    requires i < |lane.valid| == |lane.score| == |selected|
  {
    lane.valid[i] * Not(selected[i]) * (Not(best.valid) + best.valid * Greater(lane.score[i], best.score))
  }

  function Displace(lane: Lane, selected: seq<int>, i: nat, best: Incumbent): Incumbent
    requires i < |lane.valid| == |lane.score| == |lane.left| == |lane.right| == |lane.terminal| == |selected|
  {
    var better := Better(lane, selected, i, best);
    Incumbent(
      IfElse(better, lane.valid[i] * Not(selected[i]), best.valid),
      IfElse(better, lane.score[i], best.score),
      IfElse(better, lane.left[i], best.left),
      IfElse(better, lane.right[i], best.right),
      IfElse(better, lane.terminal[i], best.terminal))
  }

  /** `w` is the index of the incumbent after scanning `m` candidates: the last set bit of `became`. */
  ghost predicate Winner(lane: Lane, selected: seq<int>, m: nat, best: Incumbent, became: seq<int>, w: nat)
  {
    && lane.WellFormed(|selected|) && w < m <= |selected| && m <= |became|
    && lane.valid[w] == 1 && selected[w] == 0
    && best == Incumbent(1, lane.score[w], lane.left[w], lane.right[w], lane.terminal[w])
    && became[w] == 1
    && (forall i :: w < i < m ==> became[i] == 0)
    && Available(lane, selected, m) != []
    && |Available(lane, selected, w)| == FirstBest(Available(lane, selected, m))
  }

  /** The state of the forward scan after `m` candidates. */
  ghost predicate Scanned(lane: Lane, selected: seq<int>, m: nat, best: Incumbent, became: seq<int>)
  {
    && lane.WellFormed(|selected|) && m <= |selected| && m <= |became|
    && (forall i :: 0 <= i < m ==> IsBit(became[i]))
    && IsBit(best.valid)
    && (best.valid == 0 ==>
          && best == NO_INCUMBENT
          && Available(lane, selected, m) == []
          && forall i :: 0 <= i < m ==> became[i] == 0)
    && (best.valid != 0 ==> HasWinner(lane, selected, m, best, became))
  }

  ghost predicate HasWinner(lane: Lane, selected: seq<int>, m: nat, best: Incumbent, became: seq<int>)
  {
    exists w: nat :: Winner(lane, selected, m, best, became, w)
  }

  /** Candidate `i` is available and beats the incumbent. */
  ghost predicate Takes(lane: Lane, selected: seq<int>, i: nat, best: Incumbent)
    requires i < |lane.valid| == |lane.score| == |selected|
  {
    lane.valid[i] == 1 && selected[i] == 0 && (best.valid == 0 || lane.score[i] > best.score)
  }

  function IncumbentOf(c: Candidate): Incumbent {
    Incumbent(1, c.score, c.left, c.right, c.terminal)
  }

  /** The outputs of one forward-scan step are the intended ones. */
  ghost predicate Gated(lane: Lane, n: nat, selected: seq<int>, i: nat, best: Incumbent, better: int, best': Incumbent) {
    && lane.WellFormed(n) && |selected| == n && i < n
    && better == (if Takes(lane, selected, i, best) then 1 else 0)
    && best' == if Takes(lane, selected, i, best) then IncumbentOf(lane.At(i)) else best
  }

  /** The gate arithmetic of one scan step, as a case split. */
  lemma {:induction false} DisplaceCases(lane: Lane, selected: seq<int>, i: nat, best: Incumbent)
    requires lane.WellFormed(|selected|) && i < |selected| && IsBit(selected[i]) && IsBit(best.valid)
    ensures Better(lane, selected, i, best) == if Takes(lane, selected, i, best) then 1 else 0
    ensures Displace(lane, selected, i, best)
         == if Takes(lane, selected, i, best) then IncumbentOf(lane.At(i)) else best
  {
  }

  lemma {:induction false} ScanStep(lane: Lane, selected: seq<int>, m: nat, best: Incumbent, became: seq<int>,
                 better: int, best': Incumbent, became': seq<int>)
    requires lane.WellFormed(|selected|) && Flags(selected, |selected|)
    requires m < |selected| && |became| == |became'| == |selected|
    requires Scanned(lane, selected, m, best, became)
    requires Gated(lane, |selected|, selected, m, best, better, best')
    requires became' == became[m := better]
    ensures Scanned(lane, selected, m + 1, best', became') && IsBit(best'.valid)
  {
    if Takes(lane, selected, m, best) {
      WinnerMoves(lane, selected, m, best, became, became');
    } else if best.valid != 0 {
      WinnerStays(lane, selected, m, best, became, became');
    }
  }

  lemma {:induction false} WinnerMoves(lane: Lane, selected: seq<int>, m: nat, best: Incumbent, became: seq<int>, became': seq<int>)
    requires lane.WellFormed(|selected|) && m < |selected| == |became|
    requires Scanned(lane, selected, m, best, became)
    requires Takes(lane, selected, m, best)
    requires became' == became[m := 1]
    ensures HasWinner(lane, selected, m + 1, IncumbentOf(lane.At(m)), became')
  {
    var a, a' := Available(lane, selected, m), Available(lane, selected, m + 1);
    assert a'[..|a'| - 1] == a;
    if best.valid != 0 {
      var w: nat :| Winner(lane, selected, m, best, became, w);
      AvailableAt(lane, selected, m, w);
    }
    assert FirstBest(a') == |a|;
    assert Winner(lane, selected, m + 1, IncumbentOf(lane.At(m)), became', m);
  }

  lemma {:induction false} WinnerStays(lane: Lane, selected: seq<int>, m: nat, best: Incumbent, became: seq<int>, became': seq<int>)
    requires lane.WellFormed(|selected|) && m < |selected| == |became|
    requires HasWinner(lane, selected, m, best, became)
    requires lane.valid[m] == 1 && selected[m] == 0 ==> lane.score[m] <= best.score
    requires became' == became[m := 0]
    ensures HasWinner(lane, selected, m + 1, best, became')
  {
    var w: nat :| Winner(lane, selected, m, best, became, w);
    AvailableAt(lane, selected, m, w);
    var a, a' := Available(lane, selected, m), Available(lane, selected, m + 1);
    if lane.valid[m] == 1 && selected[m] == 0 {
      assert a'[..|a'| - 1] == a;
    } else {
      assert a' == a;
    }
    assert Winner(lane, selected, m + 1, best, became', w);
  }

  /** An available candidate sits in the available list right after those before it. */
  lemma {:induction false} AvailableAt(lane: Lane, selected: seq<int>, m: nat, w: nat)
    requires lane.WellFormed(|selected|) && w < m <= |selected|
    requires lane.valid[w] == 1 && selected[w] == 0
    ensures var a := Available(lane, selected, m); var p := |Available(lane, selected, w)|;
      p < |a| && a[..p] == Available(lane, selected, w) && a[p] == lane.At(w)
  {
    if w < m - 1 {
      AvailableAt(lane, selected, m - 1, w);
      var a, p := Available(lane, selected, m), |Available(lane, selected, w)|;
      assert a[..p] == Available(lane, selected, m - 1)[..p];
    }
  }

  // --- Suppression of the rank's winner -----------------------------------

  ghost predicate LastSet(bits: seq<int>, w: nat) {
    w < |bits| && bits[w] == 1 && forall i :: w < i < |bits| ==> bits[i] == 0
  }

  /** The reverse pass, once the candidates from `c` on have been visited. */
  ghost predicate Reversed(became: seq<int>, before: seq<int>, after: seq<int>, later: int, c: nat) {
    && c <= |became| == |before| == |after|
    && IsBit(later)
    && (later == 0 ==> after == before && forall i :: c <= i < |became| ==> became[i] == 0)
    && (later == 1 ==> exists w: nat :: c <= w && LastSet(became, w) && after == before[w := before[w] + 1])
  }

  lemma {:induction false} ReverseStep(became: seq<int>, before: seq<int>, after: seq<int>, later: int, c: nat, winner: int)
    requires c < |became| == |before| == |after| && IsBit(became[c])
    requires Reversed(became, before, after, later, c + 1)
    requires winner == became[c] * Not(later)
    ensures Reversed(became, before, after[c := after[c] + winner], later + winner, c)
  {
    BitProduct(became[c], Not(later));
    if winner == 1 {
      assert LastSet(became, c);
    } else {
      assert after[c := after[c] + winner] == after;
    }
  }

  /** The flag of the last set bit of `became`, if there is one, has been raised. */
  ghost predicate WinnerMarked(became: seq<int>, before: seq<int>, after: seq<int>) {
    && |became| == |before| == |after|
    && (forall w: nat :: LastSet(became, w) ==> after == before[w := before[w] + 1])
    && ((forall i :: 0 <= i < |became| ==> became[i] == 0) ==> after == before)
  }

  /** What either suppression pass must do to the flags, in terms of the finished forward scan. */
  ghost predicate Suppressed(lane: Lane, selected: seq<int>, best: Incumbent, became: seq<int>, dedup: bool, after: seq<int>)
  {
    && |after| == |selected| == |became| == |lane.terminal|
    && if dedup then
         forall i :: 0 <= i < |selected| ==>
           after[i] == selected[i] + best.valid * Equal(lane.terminal[i], best.terminal)
       else
         WinnerMarked(became, selected, after)
  }

  /** Terminal suppression reaches every candidate with a suppressed terminal. */
  ghost predicate TerminalClosed(lane: Lane, selected: seq<int>)
    requires |selected| == |lane.terminal|
  {
    forall i, j | 0 <= i < |selected| && 0 <= j < |selected| && lane.terminal[i] == lane.terminal[j] ::
      selected[i] == 1 ==> selected[j] == 1
  }

  lemma {:induction false} AvailableFrame(lane: Lane, s: seq<int>, s': seq<int>, m: nat)
    requires lane.WellFormed(|s|) && |s'| == |s| && m <= |s|
    requires forall i :: 0 <= i < m ==> s[i] == s'[i]
    ensures Available(lane, s, m) == Available(lane, s', m)
  {
    if m > 0 {
      AvailableFrame(lane, s, s', m - 1);
    }
  }

  /** Selecting one available candidate removes exactly it. */
  lemma {:induction false} AvailableWithoutOne(lane: Lane, s: seq<int>, m: nat, w: nat)
    requires lane.WellFormed(|s|) && w < m <= |s|
    requires lane.valid[w] == 1 && s[w] == 0
    ensures var a, p := Available(lane, s, m), |Available(lane, s, w)|;
      p < |a| && Available(lane, s[w := 1], m) == a[..p] + a[p + 1..]
  {
    AvailableAt(lane, s, m, w);
    if w == m - 1 {
      AvailableFrame(lane, s, s[w := 1], w);
    } else {
      AvailableWithoutOne(lane, s, m - 1, w);
      AvailableAt(lane, s, m - 1, w);
      var a, p := Available(lane, s, m - 1), |Available(lane, s, w)|;
      if lane.valid[m - 1] == 1 && s[m - 1] == 0 {
        DropSnoc(a, p, lane.At(m - 1));
      }
    }
  }

  lemma {:induction false} DropSnoc(a: seq<Candidate>, p: nat, c: Candidate)
    requires p < |a|
    ensures (a + [c])[..p] + (a + [c])[p + 1..] == a[..p] + a[p + 1..] + [c]
  {
  }

  lemma {:induction false} WithoutTerminalAppend(cs: seq<Candidate>, c: Candidate, t: int)
    ensures WithoutTerminal(cs + [c], t) == WithoutTerminal(cs, t) + if c.terminal == t then [] else [c]
  {
    assert (cs + [c])[..|cs|] == cs;
  }

  /** Flagging every candidate with terminal `t` removes exactly those. */
  lemma {:induction false} AvailableWithoutTerminal(lane: Lane, s: seq<int>, s': seq<int>, m: nat, t: int)
    requires lane.WellFormed(|s|) && Flags(s, |s|) && Flags(s', |s|) && m <= |s|
    requires forall i :: 0 <= i < |s| ==> s'[i] == if lane.terminal[i] == t then 1 else s[i]
    ensures Available(lane, s', m) == WithoutTerminal(Available(lane, s, m), t)
  {
    if m > 0 {
      AvailableWithoutTerminal(lane, s, s', m - 1, t);
      var a := Available(lane, s, m - 1);
      if lane.valid[m - 1] == 1 && s[m - 1] == 0 {
        assert Available(lane, s, m) == a + [lane.At(m - 1)];
        WithoutTerminalAppend(a, lane.At(m - 1), t);
      } else {
        assert Available(lane, s, m) == a;
      }
    }
  }

  // --- One rank --------------------------------------------------------

  function OutputRow(best: Incumbent): Row {
    Row(best.valid, best.valid * best.left, best.valid * best.right, best.valid * best.score)
  }

  /** Before rank `r`: the rows so far, continued greedily, are the specified rows. */
  ghost predicate Ranked(lane: Lane, n: nat, k: nat, dedup: bool, r: nat, selected: seq<int>, rows: seq<Row>)
  {
    && lane.WellFormed(n) && r <= k
    && Flags(selected, n)
    && (dedup ==> TerminalClosed(lane, selected))
    && |rows| == r
    && rows + TopK(Available(lane, selected, n), k - r, dedup) == TopK(Valid(lane, n), k, dedup)
  }

  /** The valid candidates of a lane, in slot order. */
  function Valid(lane: Lane, n: nat): seq<Candidate>
    requires n == |lane.valid| == |lane.score| == |lane.left| == |lane.right| == |lane.terminal|
  {
    Available(lane, seq(n, _ => 0), n)
  }

  /** One slot of a lane comes before another: a higher score, or the same score at a lower index. */
  ghost predicate SlotBeats(lane: Lane, i: nat, j: nat) {
    && i < |lane.score| && j < |lane.score|
    && (lane.score[i] > lane.score[j] || (lane.score[i] == lane.score[j] && i < j))
  }

  /** Why slot `i` has no row. */
  ghost predicate SlotPassed(lane: Lane, n: nat, k: nat, dedup: bool, picks: seq<nat>, i: nat) {
    lane.WellFormed(n) && i < n && (
      || lane.valid[i] == 0
      || (|picks| == k && forall r :: 0 <= r < |picks| ==> SlotBeats(lane, picks[r], i))
      || (dedup && exists r :: 0 <= r < |picks| && picks[r] < n && SlotBeats(lane, picks[r], i) && lane.terminal[picks[r]] == lane.terminal[i]))
  }

  /** The `r`-th row is the picked slot's own left handle, right handle and score; beyond the picks all zeros. */
  ghost predicate SlotRow(lane: Lane, n: nat, picks: seq<nat>, r: nat, row: Row) {
    if r < |picks| then
      && lane.WellFormed(n) && picks[r] < n && lane.valid[picks[r]] == 1
      && row.valid == 1 && row.left == lane.left[picks[r]] && row.right == lane.right[picks[r]] && row.score == lane.score[picks[r]]
    else
      row.valid == 0 && row.left == 0 && row.right == 0 && row.score == 0
  }

  /** An earlier pick beats a later one, and under deduplication has another terminal. */
  ghost predicate SlotsOrdered(lane: Lane, n: nat, dedup: bool, i: nat, j: nat) {
    lane.WellFormed(n) && i < n && j < n && SlotBeats(lane, i, j) && (dedup ==> lane.terminal[i] != lane.terminal[j])
  }

  /** The rows of a lane, in terms of its arrays alone. */
  ghost predicate PickedRows(lane: Lane, n: nat, k: nat, dedup: bool, picks: seq<nat>, rows: seq<Row>) {
    && lane.WellFormed(n) && |rows| == k && |picks| <= k
    && (forall r :: 0 <= r < k ==> SlotRow(lane, n, picks, r, rows[r]))
    && (forall r, s :: 0 <= r < s < |picks| ==> SlotsOrdered(lane, n, dedup, picks[r], picks[s]))
    && forall i: nat :: i < n && i !in picks ==> SlotPassed(lane, n, k, dedup, picks, i)
  }

  ghost predicate LaneRows(lane: Lane, n: nat, k: nat, dedup: bool, rows: seq<Row>) {
    exists picks: seq<nat> :: PickedRows(lane, n, k, dedup, picks, rows)
  }

  /** The slots that are still available, in order. */
  lemma {:induction false} AvailableSlots(lane: Lane, selected: seq<int>, m: nat) returns (at: seq<nat>)
    requires m <= |lane.valid| == |lane.score| == |lane.left| == |lane.right| == |lane.terminal| == |selected|
    ensures |at| == |Available(lane, selected, m)| && forall i, j :: 0 <= i < j < |at| ==> at[i] < at[j]
    ensures forall i :: 0 <= i < |at| ==> at[i] < m && lane.valid[at[i]] == 1 && lane.At(at[i]) == Available(lane, selected, m)[i]
    ensures forall i: nat :: i < m && lane.valid[i] == 1 && selected[i] == 0 ==> i in at
  {
    at := [];
    if m > 0 {
      at := AvailableSlots(lane, selected, m - 1);
      if lane.valid[m - 1] == 1 && selected[m - 1] == 0 {
        at := at + [m - 1];
      }
    }
  }

  lemma {:induction false} ValidSlots(lane: Lane, n: nat) returns (at: seq<nat>)
    requires lane.WellFormed(n)
    ensures |at| == |Valid(lane, n)| && forall i, j :: 0 <= i < j < |at| ==> at[i] < at[j]
    ensures forall i :: 0 <= i < |at| ==> at[i] < n && lane.valid[at[i]] == 1 && lane.At(at[i]) == Valid(lane, n)[i]
    ensures forall i: nat :: i < n && lane.valid[i] == 1 ==> i in at
  {
    at := AvailableSlots(lane, seq(n, _ => 0), n);
    hide Available;
  }

  /** The specified rows are the rows of the lane. */
  lemma {:induction false} TopKIsLaneRows(lane: Lane, n: nat, k: nat, dedup: bool)
    requires lane.WellFormed(n)
    ensures LaneRows(lane, n, k, dedup, TopK(Valid(lane, n), k, dedup))
  {
    var cs := Valid(lane, n);
    var at := ValidSlots(lane, n);
    var chosen := GreedyPicks(cs, k, dedup);
    PicksAt(cs, k, dedup, chosen);
    var picks := MapPicks(at, chosen);
    hide *;
    TakenAt(cs, chosen);
    forall r | 0 <= r < k
      ensures r < |TopK(cs, k, dedup)| == k && SlotRow(lane, n, picks, r, TopK(cs, k, dedup)[r])
    {
      RowIsSlot(lane, n, k, dedup, picks, r);
    }
    assert |TopK(cs, k, dedup)| == k by {
      TopKSize(cs, k, dedup);
    }
    forall r, s | 0 <= r < s < |picks|
      ensures SlotsOrdered(lane, n, dedup, picks[r], picks[s])
    {
      PicksPair(cs, k, dedup, chosen, r, s);
      SlotsInOrder(lane, n, dedup, cs, at, chosen[r], chosen[s]);
    }
    forall i: nat | i < n && i !in picks
      ensures SlotPassed(lane, n, k, dedup, picks, i)
    {
      SlotIsPassed(lane, n, k, dedup, cs, at, chosen, i);
    }
    LaneRowsAre(lane, n, k, dedup, picks, TopK(cs, k, dedup));
  }

  lemma {:induction false} TakenAt(cs: seq<Candidate>, picks: seq<nat>)
    requires forall r :: 0 <= r < |picks| ==> picks[r] < |cs|
    ensures |Taken(cs, picks)| == |picks| && forall r :: 0 <= r < |picks| ==> Taken(cs, picks)[r] == cs[picks[r]]
  {
  }

  lemma {:induction false} TopKSize(cs: seq<Candidate>, k: nat, dedup: bool)
    ensures |TopK(cs, k, dedup)| == k
  {
  }

  lemma {:induction false} LaneRowsAre(lane: Lane, n: nat, k: nat, dedup: bool, picks: seq<nat>, rows: seq<Row>)
    requires lane.WellFormed(n) && |rows| == k && |picks| <= k
    requires forall r :: 0 <= r < k ==> SlotRow(lane, n, picks, r, rows[r])
    requires forall r, s :: 0 <= r < s < |picks| ==> SlotsOrdered(lane, n, dedup, picks[r], picks[s])
    requires forall i: nat :: i < n && i !in picks ==> SlotPassed(lane, n, k, dedup, picks, i)
    ensures LaneRows(lane, n, k, dedup, rows)
  {
    hide SlotRow, SlotPassed, SlotsOrdered;
    assert PickedRows(lane, n, k, dedup, picks, rows);
  }

  /** A row is the slot of its pick. */
  lemma {:induction false} RowIsSlot(lane: Lane, n: nat, k: nat, dedup: bool, picks: seq<nat>, r: nat)
    requires lane.WellFormed(n) && r < k
    requires |picks| == |Greedy(Valid(lane, n), k, dedup)|
    requires r < |picks| ==> picks[r] < n && lane.valid[picks[r]] == 1 && lane.At(picks[r]) == Greedy(Valid(lane, n), k, dedup)[r]
    ensures r < |TopK(Valid(lane, n), k, dedup)| && SlotRow(lane, n, picks, r, TopK(Valid(lane, n), k, dedup)[r])
  {
    hide Greedy, Valid;
  }

  lemma {:induction false} SlotsInOrder(lane: Lane, n: nat, dedup: bool, cs: seq<Candidate>, at: seq<nat>, i: nat, j: nat)
    requires lane.WellFormed(n) && |at| == |cs| && Beats(cs, i, j)
    requires forall a, b :: 0 <= a < b < |at| ==> at[a] < at[b]
    requires forall a :: 0 <= a < |at| ==> at[a] < n && lane.At(at[a]) == cs[a]
    ensures i < |cs| && j < |cs| && SlotBeats(lane, at[i], at[j]) && |lane.terminal| == n
    ensures lane.terminal[at[i]] == lane.terminal[at[j]] <==> cs[i].terminal == cs[j].terminal
    ensures (dedup ==> cs[i].terminal != cs[j].terminal) ==> SlotsOrdered(lane, n, dedup, at[i], at[j])
  {
  }

  lemma {:induction false} SlotIsPassed(lane: Lane, n: nat, k: nat, dedup: bool, cs: seq<Candidate>, at: seq<nat>, chosen: seq<nat>, i: nat)
    requires lane.WellFormed(n) && Picks(cs, k, dedup, chosen) && |at| == |cs| && i < n
    requires forall a, b :: 0 <= a < b < |at| ==> at[a] < at[b]
    requires forall j :: 0 <= j < |at| ==> at[j] < n && lane.At(at[j]) == cs[j]
    requires lane.valid[i] == 1 ==> i in at
    requires (forall r :: 0 <= r < |chosen| ==> chosen[r] < |at|) && i !in MapPicks(at, chosen)
    ensures SlotPassed(lane, n, k, dedup, MapPicks(at, chosen), i)
  {
    if lane.valid[i] == 1 {
      var picks := MapPicks(at, chosen);
      var j :| 0 <= j < |at| && at[j] == i;
      assert j !in chosen by {
        if j in chosen {
          PickMapped(at, chosen, j);
        }
      }
      PicksPassed(cs, k, dedup, chosen, j);
      hide Picks, Beats, SlotBeats;
      forall r | 0 <= r < |chosen| && Beats(cs, chosen[r], j)
        ensures SlotBeats(lane, picks[r], i) && lane.At(picks[r]) == cs[chosen[r]]
      {
        SlotsInOrder(lane, n, false, cs, at, chosen[r], j);
      }
      if dedup && exists r :: 0 <= r < |chosen| && Beats(cs, chosen[r], j) && cs[chosen[r]].terminal == cs[j].terminal {
        var r :| 0 <= r < |chosen| && Beats(cs, chosen[r], j) && cs[chosen[r]].terminal == cs[j].terminal;
        assert SlotBeats(lane, picks[r], i) && lane.terminal[picks[r]] == lane.terminal[i];
      }
    }
  }

  lemma {:induction false} RankStep(lane: Lane, n: nat, k: nat, dedup: bool, r: nat, selected: seq<int>, rows: seq<Row>,
                 best: Incumbent, became: seq<int>, after: seq<int>)
    requires lane.WellFormed(n) && r < k && |became| == n
    requires Ranked(lane, n, k, dedup, r, selected, rows)
    requires Scanned(lane, selected, n, best, became)
    requires Suppressed(lane, selected, best, became, dedup, after)
    ensures Ranked(lane, n, k, dedup, r + 1, after, rows + [OutputRow(best)])
  {
    OneRank(lane, n, k - r, dedup, selected, best, became, after);
    hide TopK, Available, OutputRow, Valid;
    var rest := TopK(Available(lane, after, n), k - r - 1, dedup);
    assert rows + [OutputRow(best)] + rest == rows + ([OutputRow(best)] + rest);
  }

  lemma {:induction false} OneRank(lane: Lane, n: nat, k: nat, dedup: bool, selected: seq<int>,
                best: Incumbent, became: seq<int>, after: seq<int>)
    requires lane.WellFormed(n) && k > 0 && |became| == n && Flags(selected, n)
    requires dedup ==> TerminalClosed(lane, selected)
    requires Scanned(lane, selected, n, best, became)
    requires Suppressed(lane, selected, best, became, dedup, after)
    ensures Flags(after, n) && (dedup ==> TerminalClosed(lane, after))
    ensures TopK(Available(lane, selected, n), k, dedup)
         == [OutputRow(best)] + TopK(Available(lane, after, n), k - 1, dedup)
  {
    TopKStep(Available(lane, selected, n), k, dedup);
    if best.valid == 0 {
      assert forall i :: 0 <= i < n ==> after[i] == selected[i];
      assert after == selected;
    } else {
      SuppressionRemoves(lane, n, dedup, selected, best, became, after);
    }
  }

  lemma {:induction false} SuppressionRemoves(lane: Lane, n: nat, dedup: bool, selected: seq<int>,
                           best: Incumbent, became: seq<int>, after: seq<int>)
    requires lane.WellFormed(n) && |became| == n && Flags(selected, n)
    requires dedup ==> TerminalClosed(lane, selected)
    requires Scanned(lane, selected, n, best, became) && best.valid == 1
    requires Suppressed(lane, selected, best, became, dedup, after)
    ensures Flags(after, n) && (dedup ==> TerminalClosed(lane, after))
    ensures var a := Available(lane, selected, n);
      && a != []
      && OutputRow(best) == RowOf(a[FirstBest(a)])
      && Available(lane, after, n) == Remaining(a, FirstBest(a), dedup)
  {
    var w: nat :| Winner(lane, selected, n, best, became, w);
    AvailableAt(lane, selected, n, w);
    if dedup {
      assert forall i :: 0 <= i < n && lane.terminal[i] == best.terminal ==> selected[i] == 0;
      assert forall i :: 0 <= i < n ==> after[i] == if lane.terminal[i] == best.terminal then 1 else selected[i];
      AvailableWithoutTerminal(lane, selected, after, n, best.terminal);
    } else {
      assert LastSet(became, w);
      AvailableWithoutOne(lane, selected, n, w);
    }
  }

  // ---------------------------------------------------------------------
  // The rendered circuit: the scalar form over arrays, and the SIMD form
  // whose vector operations act on one query per lane.
  // ---------------------------------------------------------------------

  /** The gates of one forward-scan step. */
  method ScanGates(lane: Lane, selected: seq<int>, i: nat, best: Incumbent) returns (better: int, displaced: Incumbent)
    requires lane.WellFormed(|selected|) && i < |selected| && IsBit(selected[i]) && IsBit(best.valid)
    ensures Gated(lane, |selected|, selected, i, best, better, displaced)
  {
    better := Better(lane, selected, i, best);
    displaced := Displace(lane, selected, i, best);
    DisplaceCases(lane, selected, i, best);
  }

  /** Forward maximum scan of one rank; `became` is written in place. */
  method ForwardScan(lane: Lane, n: nat, selected: array<int>, became: array<int>) returns (best: Incumbent)
    requires lane.WellFormed(n) && selected.Length == became.Length == n && selected != became
    requires Flags(selected[..], n)
    modifies became
    ensures Scanned(lane, selected[..], n, best, became[..])
  {
    best := NO_INCUMBENT;
    for candidate := 0 to n
      invariant Scanned(lane, selected[..], candidate, best, became[..])
    {
      ghost var was := became[..];
      var better, displaced := ScanGates(lane, selected[..], candidate, best);
      became[candidate] := better;
      ScanStep(lane, selected[..], candidate, best, was, better, displaced, became[..]);
      best := displaced;
    }
  }

  /** Mark the winner: the last set bit of `became`, recovered by a reverse pass. */
  method SuppressWinner(became: array<int>, selected: array<int>)
    requires became.Length == selected.Length && became != selected
    requires Flags(became[..], became.Length)
    modifies selected
    ensures WinnerMarked(became[..], old(selected[..]), selected[..])
  {
    var n := became.Length;
    var later := 0;
    for candidate := n downto 0
      invariant Reversed(became[..], old(selected[..]), selected[..], later, candidate)
    {
      ghost var was := selected[..];
      var winner := became[candidate] * (1 - later);
      ReverseStep(became[..], old(selected[..]), was, later, candidate, winner);
      selected[candidate] := selected[candidate] + winner;
      later := later + winner;
      assert selected[..] == was[candidate := was[candidate] + winner];
    }
    ReversedDone(became[..], old(selected[..]), selected[..], later);
  }

  /** Mark every candidate that shares the winner's terminal. */
  method SuppressTerminal(terminal: seq<int>, best: Incumbent, selected: array<int>)
    requires |terminal| == selected.Length
    modifies selected
    ensures forall i :: 0 <= i < selected.Length ==>
      selected[i] == old(selected[i]) + best.valid * Equal(terminal[i], best.terminal)
  {
    for candidate := 0 to selected.Length
      invariant forall i :: 0 <= i < candidate ==>
        selected[i] == old(selected[i]) + best.valid * Equal(terminal[i], best.terminal)
      invariant forall i :: candidate <= i < selected.Length ==> selected[i] == old(selected[i])
    {
      selected[candidate] := selected[candidate] + best.valid * Equal(terminal[candidate], best.terminal);
    }
  }

  /** One rank: scan, suppress, and output the incumbent. */
  method RankOnce(lane: Lane, n: nat, ghost k: nat, dedup: bool, ghost r: nat, selected: array<int>, became: array<int>, before: seq<Row>)
    returns (rows: seq<Row>)
    requires selected.Length == became.Length == n && selected != became && r < k
    requires Ranked(lane, n, k, dedup, r, selected[..], before)
    modifies selected, became
    ensures Ranked(lane, n, k, dedup, r + 1, selected[..], rows)
  {
    ghost var was := selected[..];
    RankedFlags(lane, n, k, dedup, r, was, before);
    hide *;
    var best := ForwardScan(lane, n, selected, became);
    ghost var marks := became[..];
    ScannedFlags(lane, was, n, best, marks);
    if dedup {
      SuppressTerminal(lane.terminal, best, selected);
    } else {
      SuppressWinner(became, selected);
    }
    SuppressedIs(lane, was, best, marks, dedup, selected[..]);
    RankStep(lane, n, k, dedup, r, was, before, best, marks, selected[..]);
    rows := before + [OutputRow(best)];
  }

  lemma {:induction false} SuppressedIs(lane: Lane, was: seq<int>, best: Incumbent, became: seq<int>, dedup: bool, after: seq<int>)
    requires |after| == |was| == |became| == |lane.terminal|
    requires dedup ==> forall i :: 0 <= i < |was| ==> after[i] == was[i] + best.valid * Equal(lane.terminal[i], best.terminal)
    requires !dedup ==> WinnerMarked(became, was, after)
    ensures Suppressed(lane, was, best, became, dedup, after)
  {
  }

  lemma {:induction false} RankedFlags(lane: Lane, n: nat, k: nat, dedup: bool, r: nat, selected: seq<int>, rows: seq<Row>)
    requires Ranked(lane, n, k, dedup, r, selected, rows)
    ensures lane.WellFormed(n) && Flags(selected, n) && |lane.terminal| == n
  {
  }

  lemma {:induction false} ScannedFlags(lane: Lane, selected: seq<int>, m: nat, best: Incumbent, became: seq<int>)
    requires Scanned(lane, selected, m, best, became) && |became| == m
    ensures Flags(became, m)
  {
  }

  /** The one-query ranking circuit. */
  method RankScalar(lane: Lane, n: nat, k: nat, dedup: bool) returns (rows: seq<Row>)
    requires lane.WellFormed(n)
    ensures rows == TopK(Valid(lane, n), k, dedup)
    ensures LaneRows(lane, n, k, dedup, rows)
  {
    var selected := new int[n](_ => 0);
    var became := new int[n](_ => 0);
    assert selected[..] == seq(n, _ => 0);
    NoneRanked(lane, n, k, dedup);
    TopKIsLaneRows(lane, n, k, dedup);
    rows := [];
    hide *;
    for rank := 0 to k
      invariant Ranked(lane, n, k, dedup, rank, selected[..], rows)
    {
      rows := RankOnce(lane, n, k, dedup, rank, selected, became, rows);
    }
    AllRanked(lane, n, k, dedup, selected[..], rows);
  }

  lemma {:induction false} NoneRanked(lane: Lane, n: nat, k: nat, dedup: bool)
    requires lane.WellFormed(n)
    ensures Ranked(lane, n, k, dedup, 0, seq(n, _ => 0), [])
  {
  }

  /** The batched ranking circuit: every instruction acts on all lanes at once. */
  method RankBatch(lanes: seq<Lane>, n: nat, k: nat, dedup: bool) returns (rows: seq<seq<Row>>)
    requires forall q :: 0 <= q < |lanes| ==> lanes[q].WellFormed(n)
    ensures |rows| == |lanes|
    ensures forall q :: 0 <= q < |lanes| ==> lanes[q].WellFormed(n) && rows[q] == TopK(Valid(lanes[q], n), k, dedup)
    ensures forall q :: 0 <= q < |lanes| ==> LaneRows(lanes[q], n, k, dedup, rows[q])
  {
    var Q := |lanes|;
    var selected := seq(Q, _ => seq(n, _ => 0));
    rows := seq(Q, _ => []);
    for rank := 0 to k
      invariant |selected| == |rows| == Q
      invariant forall q :: 0 <= q < Q ==> Ranked(lanes[q], n, k, dedup, rank, selected[q], rows[q])
    {
      var best, became := ForwardScanBatch(lanes, n, selected);
      var after := SuppressBatch(lanes, n, dedup, selected, best, became);
      forall q | 0 <= q < Q
        ensures Ranked(lanes[q], n, k, dedup, rank + 1, after[q], rows[q] + [OutputRow(best[q])])
      {
        RankStep(lanes[q], n, k, dedup, rank, selected[q], rows[q], best[q], became[q], after[q]);
      }
      selected := after;
      rows := AppendAll(rows, best);
    }
    forall q | 0 <= q < Q
      ensures rows[q] == TopK(Valid(lanes[q], n), k, dedup)
      ensures LaneRows(lanes[q], n, k, dedup, rows[q])
    {
      AllRanked(lanes[q], n, k, dedup, selected[q], rows[q]);
      TopKIsLaneRows(lanes[q], n, k, dedup);
    }
  }

  lemma {:induction false} AllRanked(lane: Lane, n: nat, k: nat, dedup: bool, selected: seq<int>, rows: seq<Row>)
    requires Ranked(lane, n, k, dedup, k, selected, rows)
    ensures rows == TopK(Valid(lane, n), k, dedup)
  {
    assert rows + TopK(Available(lane, selected, n), 0, dedup) == rows;
  }

  function AppendAll(rows: seq<seq<Row>>, best: seq<Incumbent>): (r: seq<seq<Row>>)
    requires |rows| == |best|
    ensures |r| == |rows| && forall q :: 0 <= q < |r| ==> r[q] == rows[q] + [OutputRow(best[q])]
  {
    seq(|rows|, q requires 0 <= q < |rows| => rows[q] + [OutputRow(best[q])])
  }

  /** A vector store: lane `q` of candidate row `i` becomes `values[q]`. */
  function StoreAll(rows: seq<seq<int>>, i: nat, values: seq<int>): (r: seq<seq<int>>)
    requires |rows| == |values| && forall q :: 0 <= q < |rows| ==> i < |rows[q]|
    ensures |r| == |rows| && forall q :: 0 <= q < |r| ==> r[q] == rows[q][i := values[q]]
  {
    seq(|rows|, q requires 0 <= q < |rows| => rows[q][i := values[q]])
  }

  /** A vector addition. */
  function AddAll(a: seq<int>, b: seq<int>): (r: seq<int>)
    requires |a| == |b|
    ensures |r| == |a| && forall q :: 0 <= q < |r| ==> r[q] == a[q] + b[q]
  {
    seq(|a|, q requires 0 <= q < |a| => a[q] + b[q])
  }

  /** A vector load of candidate row `i`. */
  function LoadAll(rows: seq<seq<int>>, i: nat): (r: seq<int>)
    requires forall q :: 0 <= q < |rows| ==> i < |rows[q]|
    ensures |r| == |rows| && forall q :: 0 <= q < |r| ==> r[q] == rows[q][i]
  {
    seq(|rows|, q requires 0 <= q < |rows| => rows[q][i])
  }

  /** Every lane's forward scan has visited `m` candidates. */
  ghost predicate AllScanned(lanes: seq<Lane>, n: nat, selected: seq<seq<int>>, m: nat,
                             best: seq<Incumbent>, became: seq<seq<int>>) {
    && |selected| == |lanes| == |best| == |became|
    && forall q :: 0 <= q < |lanes| ==>
      lanes[q].WellFormed(n) && Flags(selected[q], n) && |became[q]| == n
      && Scanned(lanes[q], selected[q], m, best[q], became[q])
  }

  lemma {:induction false} AllScannedStep(lanes: seq<Lane>, n: nat, selected: seq<seq<int>>, m: nat,
                       best: seq<Incumbent>, became: seq<seq<int>>,
                       better: seq<int>, best': seq<Incumbent>, became': seq<seq<int>>)
    requires m < n && AllScanned(lanes, n, selected, m, best, became)
    requires |better| == |best'| == |became'| == |lanes|
    requires forall q :: 0 <= q < |lanes| ==> Gated(lanes[q], n, selected[q], m, best[q], better[q], best'[q])
    requires forall q :: 0 <= q < |lanes| ==> m < |became[q]| && became'[q] == became[q][m := better[q]]
    ensures AllScanned(lanes, n, selected, m + 1, best', became')
  {
    forall q | 0 <= q < |lanes|
      ensures Scanned(lanes[q], selected[q], m + 1, best'[q], became'[q])
    {
      hide Scanned, Gated;
      ScanStep(lanes[q], selected[q], m, best[q], became[q], better[q], best'[q], became'[q]);
    }
  }

  method ForwardScanBatch(lanes: seq<Lane>, n: nat, selected: seq<seq<int>>)
    returns (best: seq<Incumbent>, became: seq<seq<int>>)
    requires |selected| == |lanes|
    requires forall q :: 0 <= q < |lanes| ==> lanes[q].WellFormed(n) && Flags(selected[q], n)
    ensures AllScanned(lanes, n, selected, n, best, became)
  {
    var Q := |lanes|;
    best := seq(Q, _ => NO_INCUMBENT);
    became := seq(Q, _ => seq(n, _ => 0));
    for candidate := 0 to n
      invariant AllScanned(lanes, n, selected, candidate, best, became)
    {
      hide *;
      best, became := ScanCandidate(lanes, n, selected, candidate, best, became);
    }
  }

  /** One candidate of the scan, on every lane. */
  method ScanCandidate(lanes: seq<Lane>, n: nat, selected: seq<seq<int>>, candidate: nat, best0: seq<Incumbent>, became0: seq<seq<int>>)
    returns (best: seq<Incumbent>, became: seq<seq<int>>)
    requires |selected| == |lanes| && candidate < n
    requires forall q :: 0 <= q < |lanes| ==> lanes[q].WellFormed(n) && Flags(selected[q], n)
    requires AllScanned(lanes, n, selected, candidate, best0, became0)
    ensures AllScanned(lanes, n, selected, candidate + 1, best, became)
  {
    assert forall q :: 0 <= q < |lanes| ==> IsBit(best0[q].valid);
    hide Scanned, Gated;
    var better, displaced := ScanGatesBatch(lanes, n, selected, candidate, best0);
    became := StoreAll(became0, candidate, better);
    AllScannedStep(lanes, n, selected, candidate, best0, became0, better, displaced, became);
    best := displaced;
  }

  /** The gates of one forward-scan step, on every lane. */
  method ScanGatesBatch(lanes: seq<Lane>, n: nat, selected: seq<seq<int>>, i: nat, best: seq<Incumbent>)
    returns (better: seq<int>, displaced: seq<Incumbent>)
    requires |selected| == |lanes| == |best| && i < n
    requires forall q :: 0 <= q < |lanes| ==> lanes[q].WellFormed(n) && Flags(selected[q], n)
    requires forall q :: 0 <= q < |lanes| ==> IsBit(best[q].valid)
    ensures |better| == |displaced| == |lanes|
    ensures forall q :: 0 <= q < |lanes| ==> Gated(lanes[q], n, selected[q], i, best[q], better[q], displaced[q])
  {
    hide Better, Displace, Takes;
    var Q := |lanes|;
    assert forall q :: 0 <= q < Q ==> lanes[q].WellFormed(|selected[q]|);
    better := seq(Q, q requires 0 <= q < Q => Better(lanes[q], selected[q], i, best[q]));
    displaced := seq(Q, q requires 0 <= q < Q => Displace(lanes[q], selected[q], i, best[q]));
    forall q | 0 <= q < Q
      ensures Gated(lanes[q], n, selected[q], i, best[q], better[q], displaced[q])
    {
      DisplaceCases(lanes[q], selected[q], i, best[q]);
    }
  }

  method SuppressBatch(lanes: seq<Lane>, n: nat, dedup: bool, selected: seq<seq<int>>,
                       best: seq<Incumbent>, became: seq<seq<int>>) returns (after: seq<seq<int>>)
    requires AllScanned(lanes, n, selected, n, best, became)
    ensures |after| == |lanes|
    ensures forall q :: 0 <= q < |lanes| ==> Suppressed(lanes[q], selected[q], best[q], became[q], dedup, after[q])
  {
    if dedup {
      after := SuppressTerminalBatch(lanes, n, selected, best);
    } else {
      after := SuppressWinnerBatch(became, n, selected);
    }
  }

  method SuppressTerminalBatch(lanes: seq<Lane>, n: nat, selected: seq<seq<int>>, best: seq<Incumbent>)
    returns (after: seq<seq<int>>)
    requires |selected| == |lanes| == |best|
    requires forall q :: 0 <= q < |lanes| ==> |lanes[q].terminal| == n && |selected[q]| == n
    ensures |after| == |lanes|
    ensures forall q :: 0 <= q < |lanes| ==> |after[q]| == n && forall i :: 0 <= i < n ==>
      after[q][i] == selected[q][i] + best[q].valid * Equal(lanes[q].terminal[i], best[q].terminal)
  {
    var Q := |lanes|;
    after := selected;
    for candidate := 0 to n
      invariant |after| == Q
      invariant forall q :: 0 <= q < Q ==> |after[q]| == n && after[q][candidate..] == selected[q][candidate..]
      invariant forall q :: 0 <= q < Q ==> forall i :: 0 <= i < candidate ==>
        after[q][i] == selected[q][i] + best[q].valid * Equal(lanes[q].terminal[i], best[q].terminal)
    {
      ghost var was := after;
      var same := seq(Q, q requires 0 <= q < Q =>
        best[q].valid * Equal(lanes[q].terminal[candidate], best[q].terminal));
      after := StoreAll(after, candidate, AddAll(LoadAll(after, candidate), same));
      forall q | 0 <= q < Q
        ensures after[q][candidate + 1..] == selected[q][candidate + 1..]
        ensures was[q][candidate] == selected[q][candidate]
      {
        assert was[q][candidate] == was[q][candidate..][0];
        assert after[q][candidate + 1..] == was[q][candidate..][1..];
      }
    }
  }

  method SuppressWinnerBatch(became: seq<seq<int>>, n: nat, selected: seq<seq<int>>) returns (after: seq<seq<int>>)
    requires |selected| == |became|
    requires forall q :: 0 <= q < |became| ==> |selected[q]| == n && Flags(became[q], n)
    ensures |after| == |became|
    ensures forall q :: 0 <= q < |became| ==> WinnerMarked(became[q], selected[q], after[q])
  {
    var Q := |became|;
    after := selected;
    var later := seq(Q, _ => 0);
    for candidate := n downto 0
      invariant |after| == |later| == Q
      invariant forall q :: 0 <= q < Q ==> |after[q]| == n
      invariant forall q :: 0 <= q < Q ==> Reversed(became[q], selected[q], after[q], later[q], candidate)
    {
      ghost var was, wasLater := after, later;
      var winner := seq(Q, q requires 0 <= q < Q => became[q][candidate] * Not(later[q]));
      after := StoreAll(after, candidate, AddAll(LoadAll(after, candidate), winner));
      later := AddAll(later, winner);
      forall q | 0 <= q < Q
        ensures Reversed(became[q], selected[q], after[q], later[q], candidate)
      {
        ReverseStep(became[q], selected[q], was[q], wasLater[q], candidate, winner[q]);
      }
    }
    forall q | 0 <= q < Q
      ensures WinnerMarked(became[q], selected[q], after[q])
    {
      ReversedDone(became[q], selected[q], after[q], later[q]);
    }
  }

  lemma {:induction false} ReversedDone(became: seq<int>, before: seq<int>, after: seq<int>, later: int)
    requires Reversed(became, before, after, later, 0)
    ensures WinnerMarked(became, before, after)
  {
    if later == 1 {
      var w: nat :| LastSet(became, w) && after == before[w := before[w] + 1];
      assert forall v: nat :: LastSet(became, v) ==> v == w;
    }
  }
}
