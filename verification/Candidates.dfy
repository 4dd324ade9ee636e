// Candidate formation: the circuit multiplies every frontier slot with every
// second-hop slot; the valid products are exactly the two-hop paths.
module Candidates {
  import opened Gates
  import opened Ranking
  import opened TwoHop
  import opened Compaction

  /** The paths carried by a frontier and its second-hop rows, in slot order. */
  function SlotPaths(frontier: seq<Slot>, rows: seq<seq<Slot>>): seq<Candidate>
    requires |rows| == |frontier|
  {
    if frontier == [] then []
    else
      var n := |frontier| - 1;
      SlotPaths(frontier[..n], rows[..n])
      + if frontier[n].valid == 1 then Extend(SlotHit(frontier[n]), Live(rows[n])) else []
  }

  /** When every live row holds the matches of its target, the slots carry the query's paths. */
  lemma {:induction false} SlotPathsArePaths(frontier: seq<Slot>, rows: seq<seq<Slot>>, second: int -> seq<Hit>)
    requires |rows| == |frontier|
    requires forall f :: 0 <= f < |frontier| && frontier[f].valid == 1 ==> Live(rows[f]) == second(frontier[f].target)
    ensures SlotPaths(frontier, rows) == Paths(Live(frontier), second)
  {
    if frontier != [] {
      var n := |frontier| - 1;
      SlotPathsArePaths(frontier[..n], rows[..n], second);
      if frontier[n].valid == 1 {
        PathsSnoc(Live(frontier[..n]), SlotHit(frontier[n]), second);
      } else {
        assert Live(frontier) == Live(frontier[..n]);
      }
    }
  }

  function Push(lane: Lane, valid: int, c: Candidate): Lane {
    Lane(lane.valid + [valid], lane.score + [c.score], lane.left + [c.left],
         lane.right + [c.right], lane.terminal + [c.terminal])
  }

  const EMPTY_LANE := Lane([], [], [], [], [])

  lemma {:induction false} AvailablePrefix(lane: Lane, lane': Lane, s: seq<int>, s': seq<int>, m: nat)
    requires m <= |lane.valid| == |lane.score| == |lane.left| == |lane.right| == |lane.terminal| == |s|
    requires m <= |lane'.valid| == |lane'.score| == |lane'.left| == |lane'.right| == |lane'.terminal| == |s'|
    requires forall i :: 0 <= i < m ==> lane.valid[i] == lane'.valid[i] && lane.At(i) == lane'.At(i) && s[i] == s'[i]
    ensures Available(lane, s, m) == Available(lane', s', m)
  {
    if m > 0 {
      AvailablePrefix(lane, lane', s, s', m - 1);
    }
  }

  lemma {:induction false} ValidPush(lane: Lane, n: nat, valid: int, c: Candidate)
    requires lane.WellFormed(n) && IsBit(valid)
    ensures Push(lane, valid, c).WellFormed(n + 1)
    ensures Valid(Push(lane, valid, c), n + 1) == Valid(lane, n) + if valid == 1 then [c] else []
  {
    var lane' := Push(lane, valid, c);
    AvailablePrefix(lane, lane', seq(n, _ => 0), seq(n + 1, _ => 0), n);
    assert lane'.At(n) == c;
  }

  /** The gates that form one candidate. */
  function CandidateOf(first: Slot, second: Slot): Candidate {
    var valid := first.valid * second.valid;
    Candidate(valid * (first.score + second.score), valid * first.handle, valid * second.handle, valid * second.target)
  }

  lemma {:induction false} CandidateGates(first: Slot, second: Slot)
    requires IsBit(first.valid) && IsBit(second.valid)
    ensures IsBit(first.valid * second.valid)
    ensures first.valid * second.valid == 1 <==> first.valid == 1 && second.valid == 1
    ensures first.valid * second.valid == 1 ==> CandidateOf(first, second) == PathOf(SlotHit(first), SlotHit(second))
  {
  }

  /** Candidates from one frontier slot. */
  method FormRow(lane0: Lane, n: nat, first: Slot, seconds: seq<Slot>) returns (lane: Lane)
    requires lane0.WellFormed(n) && IsBit(first.valid) && BitSlots(seconds)
    ensures lane.WellFormed(n + |seconds|)
    ensures Valid(lane, n + |seconds|)
         == Valid(lane0, n) + if first.valid == 1 then Extend(SlotHit(first), Live(seconds)) else []
  {
    hide Valid, CandidateOf;
    lane := lane0;
    for second := 0 to |seconds|
      invariant lane.WellFormed(n + second)
      invariant Valid(lane, n + second)
             == Valid(lane0, n) + if first.valid == 1 then Extend(SlotHit(first), Live(seconds[..second])) else []
    {
      CandidateGates(first, seconds[second]);
      ValidPush(lane, n + second, first.valid * seconds[second].valid, CandidateOf(first, seconds[second]));
      assert seconds[..second + 1] == seconds[..second] + [seconds[second]];
      LiveSnoc(seconds[..second], seconds[second]);
      ExtendSnoc(SlotHit(first), Live(seconds[..second]), SlotHit(seconds[second]));
      lane := Push(lane, first.valid * seconds[second].valid, CandidateOf(first, seconds[second]));
    }
    assert seconds[..|seconds|] == seconds;
  }

  /** The rendered double loop; candidate `first * width + second` is the product of those two slots. */
  method FormCandidates(frontier: seq<Slot>, rows: seq<seq<Slot>>, width: nat) returns (lane: Lane)
    requires |rows| == |frontier| && BitSlots(frontier)
    requires forall f :: 0 <= f < |rows| ==> |rows[f]| == width && BitSlots(rows[f])
    ensures lane.WellFormed(|frontier| * width)
    ensures Valid(lane, |frontier| * width) == SlotPaths(frontier, rows)
  {
    lane := EMPTY_LANE;
    assert 0 * width == 0;
    for first := 0 to |frontier|
      invariant lane.WellFormed(first * width)
      invariant Valid(lane, first * width) == SlotPaths(frontier[..first], rows[..first])
    {
      hide Valid;
      lane := FormRow(lane, first * width, frontier[first], rows[first]);
      assert (first + 1) * width == first * width + width;
      assert frontier[..first + 1][..first] == frontier[..first] && rows[..first + 1][..first] == rows[..first];
    }
    assert frontier[..|frontier|] == frontier && rows[..|rows|] == rows;
  }
}
