// From output shares to candidate slots: the evaluators' public projection, the
// coordinator's combination, and what the client finally reads.
module MpProjection {
  import opened Wrappers
  import opened Sorting
  import opened Xor
  import opened MpParams
  import opened MpDpf

  // --- Combining shares -----------------------------------------------------------

  /** Word `pos` of every vector. */
  function Slice(vectors: seq<seq<Word>>, pos: nat): (r: seq<Word>)
    requires forall i :: 0 <= i < |vectors| ==> pos < |vectors[i]|
    ensures |r| == |vectors| && forall i :: 0 <= i < |r| ==> r[i] == vectors[i][pos]
  {
    seq(|vectors|, i requires 0 <= i < |vectors| => vectors[i][pos])
  }

  lemma {:induction false} SliceSnoc(vectors: seq<seq<Word>>, v: seq<Word>, pos: nat)
    requires pos < |v| && forall i :: 0 <= i < |vectors| ==> pos < |vectors[i]|
    ensures Combined(Slice(vectors + [v], pos)) == Plus(Combined(Slice(vectors, pos)), v[pos])
  {
    assert Slice(vectors + [v], pos)[..|vectors|] == Slice(vectors, pos);
    hide Plus;
  }

  /** Word-wise sums of some vectors. */
  ghost predicate SumsOf(sums: seq<Word>, vectors: seq<seq<Word>>) {
    && (forall i :: 0 <= i < |vectors| ==> |vectors[i]| == |sums|)
    && forall pos: nat :: pos < |sums| ==> sums[pos] == Combined(Slice(vectors, pos))
  }

  lemma {:induction false} SumsSnoc(sums: seq<Word>, vectors: seq<seq<Word>>, v: seq<Word>)
    requires SumsOf(sums, vectors) && |v| == |sums|
    ensures SumsOf(XorWords(sums, v), vectors + [v])
  {
    forall pos: nat | pos < |sums|
      ensures XorWords(sums, v)[pos] == Combined(Slice(vectors + [v], pos))
    {
      SliceSnoc(vectors, v, pos);
    }
    hide Combined, Plus;
  }

  /** `combined[position] ^= vector[position]` for every position. */
  method AddVector(combined: array<Word>, vector: seq<Word>)
    requires combined.Length == |vector|
    modifies combined
    ensures combined[..] == XorWords(old(combined[..]), vector)
  {
    hide Plus;
    for position := 0 to |vector|
      invariant forall pos: nat :: pos < position ==> combined[pos] == Plus(old(combined[pos]), vector[pos])
      invariant forall pos: nat :: position <= pos < |vector| ==> combined[pos] == old(combined[pos])
    {
      combined[position] := Plus(combined[position], vector[position]);
    }
  }

  lemma {:induction false} NoVectors(length: nat)
    ensures SumsOf(ZeroWords(length), [])
  {
  }

  /** Accumulate one vector per party, in party order. */
  method XorVectors(vectors: seq<seq<Word>>, length: nat) returns (combined: seq<Word>)
    requires forall i :: 0 <= i < |vectors| ==> |vectors[i]| == length
    ensures |combined| == length && SumsOf(combined, vectors)
  {
    var sums := new Word[length](_ => 0);
    assert sums[..] == ZeroWords(length);
    NoVectors(length);
    hide *;
    for index := 0 to |vectors|
      invariant SumsOf(sums[..], vectors[..index])
    {
      SumsSnoc(sums[..], vectors[..index], vectors[index]);
      assert vectors[..index + 1] == vectors[..index] + [vectors[index]];
      AddVector(sums, vectors[index]);
    }
    assert vectors[..|vectors|] == vectors;
    combined := sums[..];
  }

  /** Exactly the indices of the parties. */
  ghost predicate IndicesOf(indices: set<int>, parties: int) {
    forall i: int :: i in indices <==> 0 <= i < parties
  }

  function RangeSet(parties: int): (r: set<int>)
    ensures IndicesOf(r, parties)
  {
    if parties <= 0 then {} else RangeSet(parties - 1) + {parties - 1}
  }

  lemma {:induction false} SameIndices(a: set<int>, b: set<int>, parties: int)
    requires IndicesOf(b, parties)
    ensures IndicesOf(a, parties) <==> a == b
  {
    if IndicesOf(a, parties) {
      assert forall i: int :: i in a <==> i in b;
    }
  }

  /** The vectors in party order. */
  function InOrder(vectors: map<int, seq<Word>>, parties: nat): (r: seq<seq<Word>>)
    requires forall i :: 0 <= i < parties ==> i in vectors
    ensures |r| == parties && forall i :: 0 <= i < parties ==> r[i] == vectors[i]
  {
    seq(parties, i requires 0 <= i < parties => vectors[i])
  }

  /** `combine_vectors`: every party's vector, all of one length. */
  method CombineVectors(vectors: map<int, seq<Word>>, parties: int) returns (r: Result<seq<Word>>)
    ensures r.Ok? <==> parties >= 1 && IndicesOf(vectors.Keys, parties) && forall i, j | 0 <= i < parties && 0 <= j < parties :: |vectors[i]| == |vectors[j]|
    ensures r.Ok? ==> |r.value| == |vectors[0]|
    ensures r.Ok? ==> forall pos: nat :: pos < |r.value| ==> r.value[pos] == Combined(Slice(InOrder(vectors, parties), pos))
  {
    SameIndices(vectors.Keys, RangeSet(parties), parties);
    if vectors.Keys != RangeSet(parties) {
      return Err(Malformed);
    }
    if parties < 1 {
      return Err(Malformed);
    }
    for i := 0 to parties
      invariant forall j :: 0 <= j < i ==> |vectors[j]| == |vectors[0]|
    {
      if |vectors[i]| != |vectors[0]| {
        return Err(Malformed);
      }
    }
    hide Combined;
    var combined := XorVectors(InOrder(vectors, parties), |vectors[0]|);
    r := Ok(combined);
  }

  // --- The projection ------------------------------------------------------------------

  datatype Projection = Projection(slots: seq<string>, pointSlots: map<string, seq<string>>)

  /** `validate`. */
  ghost predicate ProjectionValid(p: Projection, points: seq<string>) {
    && p.slots != [] && Distinct(p.slots)
    && forall point :: point in p.pointSlots ==>
      point in points && Distinct(p.pointSlots[point]) && forall i :: 0 <= i < |p.pointSlots[point]| ==> p.pointSlots[point][i] in p.slots
  }

  function TargetsOf(p: Projection, point: string): seq<string> {
    if point in p.pointSlots then p.pointSlots[point] else []
  }

  /** What slot `slot` collects from the first `n` points. */
  ghost function Routed(p: Projection, points: seq<string>, shares: seq<Word>, slot: nat, n: nat): Word
    requires n <= |points| == |shares| && slot < |p.slots|
  {
    if n == 0 then 0
    else Plus(Routed(p, points, shares, slot, n - 1), if p.slots[slot] in TargetsOf(p, points[n - 1]) then shares[n - 1] else 0)
  }

  method AllDistinct(s: seq<string>) returns (b: bool)
    ensures b <==> Distinct(s)
  {
    for i := 0 to |s|
      invariant Distinct(s[..i])
    {
      if s[i] in s[..i] {
        return false;
      }
    }
    assert s[..|s|] == s;
    b := true;
  }

  method AllIn(s: seq<string>, t: seq<string>) returns (b: bool)
    ensures b <==> forall i :: 0 <= i < |s| ==> s[i] in t
  {
    for i := 0 to |s|
      invariant forall j :: 0 <= j < i ==> s[j] in t
    {
      if s[i] !in t {
        return false;
      }
    }
    b := true;
  }

  method Validate(p: Projection, points: seq<string>) returns (b: bool)
    ensures b <==> ProjectionValid(p, points)
  {
    if p.slots == [] {
      return false;
    }
    var distinct := AllDistinct(p.slots);
    if !distinct {
      return false;
    }
    var pending := p.pointSlots.Keys;
    while pending != {}
      invariant forall point :: point in pending ==> point in p.pointSlots
      invariant forall point :: point in p.pointSlots && point !in pending ==>
        point in points && Distinct(p.pointSlots[point]) && forall i :: 0 <= i < |p.pointSlots[point]| ==> p.pointSlots[point][i] in p.slots
      decreases pending
    {
      var point :| point in pending;
      var once := AllDistinct(p.pointSlots[point]);
      var known := AllIn(p.pointSlots[point], p.slots);
      if point !in points || !once || !known {
        return false;
      }
      pending := pending - {point};
    }
    b := true;
  }

  /** The position of a slot handle. */
  method IndexOf(slots: seq<string>, handle: string) returns (i: nat)
    requires handle in slots
    ensures i < |slots| && slots[i] == handle
  {
    i := 0;
    while slots[i] != handle
      invariant i < |slots| && handle in slots[i..]
      decreases |slots| - i
    {
      i := i + 1;
    }
  }

  /** One point's share in every slot it routes to. */
  function RouteRow(slots: seq<string>, targets: seq<string>, share: Word, values: seq<Word>): (r: seq<Word>)
    requires |values| == |slots|
    ensures |r| == |values|
    ensures forall s :: 0 <= s < |r| ==> r[s] == if slots[s] in targets then Plus(values[s], share) else values[s]
  {
    seq(|values|, s requires 0 <= s < |values| => if slots[s] in targets then Plus(values[s], share) else values[s])
  }

  /** Xor one point's share into every slot it routes to; a slot is hit at most once. */
  method RoutePoint(projected: array<Word>, slots: seq<string>, targets: seq<string>, share: Word)
    requires projected.Length == |slots| && Distinct(slots) && Distinct(targets)
    requires forall i :: 0 <= i < |targets| ==> targets[i] in slots
    modifies projected
    ensures projected[..] == RouteRow(slots, targets, share, old(projected[..]))
  {
    hide Plus;
    for i := 0 to |targets|
      invariant projected[..] == RouteRow(slots, targets[..i], share, old(projected[..]))
    {
      var at := IndexOf(slots, targets[i]);
      assert targets[i] !in targets[..i];
      assert targets[..i + 1] == targets[..i] + [targets[i]];
      ghost var was := projected[..];
      projected[at] := Plus(projected[at], share);
      assert projected[..] == was[at := Plus(was[at], share)];
    }
    assert targets[..|targets|] == targets;
  }

  ghost predicate RoutedUpTo(p: Projection, points: seq<string>, shares: seq<Word>, n: nat, values: seq<Word>) {
    && n <= |points| == |shares| && |values| == |p.slots|
    && forall s: nat :: s < |values| ==> values[s] == Routed(p, points, shares, s, n)
  }

  lemma {:induction false} RouteStep(p: Projection, points: seq<string>, shares: seq<Word>, x: nat, values: seq<Word>)
    requires RoutedUpTo(p, points, shares, x, values) && x < |points| && ProjectionValid(p, points)
    ensures Distinct(p.slots) && Distinct(TargetsOf(p, points[x]))
    ensures forall i :: 0 <= i < |TargetsOf(p, points[x])| ==> TargetsOf(p, points[x])[i] in p.slots
    ensures |values| == |p.slots| && RoutedUpTo(p, points, shares, x + 1, RouteRow(p.slots, TargetsOf(p, points[x]), shares[x], values))
  {
    hide Plus;
    forall s: nat | s < |p.slots|
      ensures RouteRow(p.slots, TargetsOf(p, points[x]), shares[x], values)[s] == Routed(p, points, shares, s, x + 1)
    {
      Cancel(values[s], 0);
    }
  }

  /** `project`. */
  method Project(p: Projection, points: seq<string>, shares: seq<Word>) returns (r: Result<seq<Word>>)
    ensures r.Ok? <==> |points| == |shares| && ProjectionValid(p, points)
    ensures r.Ok? ==> RoutedUpTo(p, points, shares, |points|, r.value)
  {
    if |points| != |shares| {
      return Err(Malformed);
    }
    var valid := Validate(p, points);
    if !valid {
      return Err(Malformed);
    }
    var projected := new Word[|p.slots|](_ => 0);
    assert RoutedUpTo(p, points, shares, 0, projected[..]);
    hide *;
    for x := 0 to |points|
      invariant RoutedUpTo(p, points, shares, x, projected[..])
    {
      RouteStep(p, points, shares, x, projected[..]);
      RoutePoint(projected, p.slots, TargetsOf(p, points[x]), shares[x]);
    }
    r := Ok(projected[..]);
  }

  // --- Projection commutes with combination -----------------------------------------------

  /** What party `i` contributes to a slot from point `x`. */
  ghost function RoutedTerm(p: Projection, points: seq<string>, vectors: seq<seq<Word>>, slot: nat): (nat, nat) -> Word
    requires slot < |p.slots|
  {
    (i: nat, x: nat) =>
      if i < |vectors| && x < |vectors[i]| && x < |points| && p.slots[slot] in TargetsOf(p, points[x]) then vectors[i][x] else 0
  }

  lemma {:induction false} RoutedIsRowSum(p: Projection, points: seq<string>, vectors: seq<seq<Word>>, slot: nat, i: nat, n: nat)
    requires slot < |p.slots| && i < |vectors| && n <= |points| == |vectors[i]|
    ensures Routed(p, points, vectors[i], slot, n) == RowSum(RoutedTerm(p, points, vectors, slot), i, n)
  {
    hide Plus, TargetsOf;
    if n > 0 {
      RoutedIsRowSum(p, points, vectors, slot, i, n - 1);
    }
  }

  /** Column `x` of the double sum: the combined share of point `x`, if it routes to the slot. */
  lemma {:induction false} ColumnIsCombined(p: Projection, points: seq<string>, vectors: seq<seq<Word>>, slot: nat, x: nat, n: nat)
    requires slot < |p.slots| && x < |points| && n <= |vectors| && forall i :: 0 <= i < |vectors| ==> |vectors[i]| == |points|
    ensures ColumnSum(RoutedTerm(p, points, vectors, slot), x, n)
         == if p.slots[slot] in TargetsOf(p, points[x]) then Combined(Slice(vectors[..n], x)) else 0
  {
    hide Plus, TargetsOf;
    Cancel(0, 0);
    if n > 0 {
      ColumnIsCombined(p, points, vectors, slot, x, n - 1);
      assert vectors[..n] == vectors[..n - 1] + [vectors[n - 1]];
      SliceSnoc(vectors[..n - 1], vectors[n - 1], x);
      hide Combined;
    }
  }

  /** The combined shares of every point. */
  ghost function CombinedPoints(vectors: seq<seq<Word>>, n: nat): (r: seq<Word>)
    requires forall i :: 0 <= i < |vectors| ==> |vectors[i]| == n
    ensures |r| == n && forall x: nat :: x < n ==> r[x] == Combined(Slice(vectors, x))
  {
    seq(n, x requires 0 <= x < n => Combined(Slice(vectors, x)))
  }

  lemma {:induction false} ColumnsAreRouted(p: Projection, points: seq<string>, vectors: seq<seq<Word>>, slot: nat, n: nat)
    requires slot < |p.slots| && n <= |points| && forall i :: 0 <= i < |vectors| ==> |vectors[i]| == |points|
    ensures ByColumns(RoutedTerm(p, points, vectors, slot), |vectors|, n)
         == Routed(p, points, CombinedPoints(vectors, |points|), slot, n)
  {
    hide Plus, TargetsOf, RoutedTerm, Combined;
    if n > 0 {
      ColumnsAreRouted(p, points, vectors, slot, n - 1);
      ColumnIsCombined(p, points, vectors, slot, n - 1, |vectors|);
      assert vectors[..|vectors|] == vectors;
    }
  }

  /** Projecting every party's shares and combining is combining and then projecting. */
  lemma {:induction false} ProjectionIsLinear(p: Projection, points: seq<string>, vectors: seq<seq<Word>>, slot: nat, projected: seq<Word>)
    requires slot < |p.slots| && forall i :: 0 <= i < |vectors| ==> |vectors[i]| == |points|
    requires |projected| == |vectors| && forall i :: 0 <= i < |vectors| ==> projected[i] == Routed(p, points, vectors[i], slot, |points|)
    ensures Combined(projected) == Routed(p, points, CombinedPoints(vectors, |points|), slot, |points|)
  {
    var t := RoutedTerm(p, points, vectors, slot);
    hide *;
    forall i | 0 <= i < |vectors|
      ensures projected[i] == RowSum(t, i, |points|)
    {
      RoutedIsRowSum(p, points, vectors, slot, i, |points|);
    }
    CombinedIsByRows(projected, t, |points|);
    Exchange(t, |vectors|, |points|);
    ColumnsAreRouted(p, points, vectors, slot, |points|);
  }

  /** A vector that is zero except at one point routes that point's value only. */
  lemma {:induction false} RoutedSingle(p: Projection, points: seq<string>, values: seq<Word>, slot: nat, alpha: nat, beta: Word, n: nat)
    requires n <= |points| == |values| && slot < |p.slots|
    requires forall x: nat :: x < |values| ==> values[x] == PointValue(alpha, beta, x)
    ensures Routed(p, points, values, slot, n) == if alpha < n && p.slots[slot] in TargetsOf(p, points[alpha]) then beta else 0
  {
    hide Plus, TargetsOf;
    Cancel(0, beta);
    Cancel(beta, 0);
    Cancel(0, 0);
    if n > 0 {
      RoutedSingle(p, points, values, slot, alpha, beta, n - 1);
    }
  }

  /** Every party's shares of every rank. */
  ghost predicate UniverseShares(prg: Prg, shares: seq<KeyShare>, vectors: seq<seq<Word>>, universe: nat) {
    && |vectors| == |shares|
    && forall i :: 0 <= i < |shares| ==>
      && shares[i].WellFormed() && |vectors[i]| == universe <= shares[i].ps.DomainSize()
      && forall x: nat :: x < universe ==> vectors[i][x] == OutputShare(prg, shares[i], x)
  }

  lemma {:induction false} UniverseCombines(prg: Prg, ps: Params, alpha: nat, beta: Word, s: Secrets, cw: seq<seq<Word>>, shares: seq<KeyShare>,
                                            vectors: seq<seq<Word>>, universe: nat, x: nat)
    requires Shares(prg, ps, alpha, beta, s, cw, shares) && NonzeroSeeds(s)
    requires UniverseShares(prg, shares, vectors, universe) && x < universe <= ps.DomainSize()
    ensures Combined(Slice(vectors, x)) == PointValue(alpha, beta, x)
  {
    SharesUsable(prg, ps, alpha, beta, s, cw, shares, x);
    assert OutputShares(prg, shares, x) == Slice(vectors, x);
    PointFunction(prg, ps, alpha, beta, s, cw, shares, x);
  }

  /**
   * From keys to slots: the parties project their own universe shares, the projections are
   * xored, and each slot then holds beta exactly when alpha's point routes to it, else zero.
   */
  lemma {:induction false} SlotsOfPointFunction(prg: Prg, ps: Params, alpha: nat, beta: Word, s: Secrets, cw: seq<seq<Word>>, shares: seq<KeyShare>,
                                                vectors: seq<seq<Word>>, p: Projection, points: seq<string>, slot: nat, projected: seq<Word>)
    requires Shares(prg, ps, alpha, beta, s, cw, shares) && NonzeroSeeds(s)
    requires UniverseShares(prg, shares, vectors, |points|) && |points| <= ps.DomainSize() && slot < |p.slots|
    requires forall i :: 0 <= i < |vectors| ==> |vectors[i]| == |points|
    requires |projected| == |vectors| && forall i :: 0 <= i < |vectors| ==> projected[i] == Routed(p, points, vectors[i], slot, |points|)
    ensures Combined(projected) == SlotValue(p, points, alpha, beta, slot)
  {
    hide *;
    ProjectionIsLinear(p, points, vectors, slot, projected);
    var values := CombinedPoints(vectors, |points|);
    forall x: nat | x < |points|
      ensures values[x] == PointValue(alpha, beta, x)
    {
      UniverseCombines(prg, ps, alpha, beta, s, cw, shares, vectors, |points|, x);
    }
    RoutedSingle(p, points, values, slot, alpha, beta, |points|);
    SlotValueIs(p, points, alpha, beta, slot);
  }

  /** What a slot must receive: beta if alpha names a point that routes to it, zero otherwise. */
  function SlotValue(p: Projection, points: seq<string>, alpha: nat, beta: Word, slot: nat): Word
    requires slot < |p.slots|
  {
    if alpha < |points| && p.slots[slot] in TargetsOf(p, points[alpha]) then beta else 0
  }

  lemma {:induction false} SlotValueIs(p: Projection, points: seq<string>, alpha: nat, beta: Word, slot: nat)
    requires slot < |p.slots|
    ensures SlotValue(p, points, alpha, beta, slot) == if alpha < |points| && p.slots[slot] in TargetsOf(p, points[alpha]) then beta else 0
  {
  }

  // --- The coordinator -----------------------------------------------------------------------

  /** What every response to one request must agree on. */
  datatype Binding = Binding(requestId: string, keygenId: string, projected: bool, slotHandles: seq<string>, pointCount: nat)

  datatype Response = Response(party: int, evaluator: string, partyCount: int, threshold: int, binding: Binding, shares: seq<Word>)

  function ResponseLength(b: Binding): nat {
    if b.projected then |b.slotHandles| else b.pointCount
  }

  /** One response of each party, from distinct evaluators, all bound to the same request. */
  ghost predicate Coherent(parties: nat, threshold: int, expected: Option<string>, responses: seq<Response>) {
    && parties >= 1 && |responses| == parties
    && (forall i :: 0 <= i < |responses| ==> 0 <= responses[i].party < parties)
    && (forall i, j :: 0 <= i < j < |responses| ==> responses[i].party != responses[j].party)
    && (forall i, j :: 0 <= i < j < |responses| ==> responses[i].evaluator != responses[j].evaluator)
    && (expected.Some? ==> responses[0].binding.requestId == expected.value)
    && forall i :: 0 <= i < |responses| ==> Agreeing(parties, threshold, responses[0].binding, responses[i])
  }

  predicate Agreeing(parties: nat, threshold: int, b: Binding, r: Response) {
    r.partyCount == parties && r.threshold == threshold && r.binding == b && |r.shares| == ResponseLength(b)
  }

  /** The response of a party. */
  ghost predicate IsVectorOf(responses: seq<Response>, party: nat, vector: seq<Word>) {
    exists i :: 0 <= i < |responses| && responses[i].party == party && responses[i].shares == vector
  }

  /** Pigeonhole: as many distinct indices as parties cover every party. */
  lemma {:induction false} EveryPartyResponds(responses: seq<Response>, parties: nat, party: nat)
    requires |responses| == parties && party < parties
    requires forall i :: 0 <= i < |responses| ==> 0 <= responses[i].party < parties
    requires forall i, j :: 0 <= i < j < |responses| ==> responses[i].party != responses[j].party
    ensures exists i :: 0 <= i < |responses| && responses[i].party == party
  {
    PartiesSet(responses, |responses|);
    var used, all := PartiesOf(responses, |responses|), RangeSet(parties);
    RangeSize(parties);
    forall q | q in used
      ensures q in all
    {
      var i :| 0 <= i < |responses| && responses[i].party == q;
      assert 0 <= responses[i].party < parties;
    }
    if party !in used {
      SubsetSize(used, all - {party});
    }
  }

  function PartiesOf(responses: seq<Response>, n: nat): set<int>
    requires n <= |responses|
  {
    if n == 0 then {} else PartiesOf(responses, n - 1) + {responses[n - 1].party}
  }

  lemma {:induction false} PartiesSet(responses: seq<Response>, n: nat)
    requires n <= |responses| && forall i, j :: 0 <= i < j < |responses| ==> responses[i].party != responses[j].party
    ensures |PartiesOf(responses, n)| == n
    ensures forall q :: q in PartiesOf(responses, n) <==> exists i :: 0 <= i < n && responses[i].party == q
  {
    if n > 0 {
      PartiesSet(responses, n - 1);
    }
  }

  lemma {:induction false} RangeSize(parties: nat)
    ensures |RangeSet(parties)| == parties
  {
    if parties > 0 {
      RangeSize(parties - 1);
    }
  }

  lemma {:induction false} SubsetSize(a: set<int>, b: set<int>)
    requires a <= b
    ensures |a| <= |b|
  {
    assert b == a + (b - a);
  }

  method VectorOf(responses: seq<Response>, parties: nat, party: nat) returns (vector: seq<Word>)
    requires |responses| == parties && party < parties
    requires forall i :: 0 <= i < |responses| ==> 0 <= responses[i].party < parties
    requires forall i, j :: 0 <= i < j < |responses| ==> responses[i].party != responses[j].party
    ensures IsVectorOf(responses, party, vector)
  {
    EveryPartyResponds(responses, parties, party);
    var i := 0;
    while responses[i].party != party
      invariant 0 <= i < |responses|
      invariant exists j :: i <= j < |responses| && responses[j].party == party
      decreases |responses| - i
    {
      i := i + 1;
    }
    vector := responses[i].shares;
  }

  method CheckResponses(parties: nat, threshold: int, expected: Option<string>, responses: seq<Response>) returns (ok: bool)
    ensures ok <==> Coherent(parties, threshold, expected, responses)
  {
    if parties < 1 || |responses| != parties {
      return false;
    }
    if expected.Some? && responses[0].binding.requestId != expected.value {
      return false;
    }
    for i := 0 to |responses|
      invariant forall k :: 0 <= k < i ==> 0 <= responses[k].party < parties
      invariant forall k :: 0 <= k < i ==> Agreeing(parties, threshold, responses[0].binding, responses[k])
      invariant forall k, j :: 0 <= k < j < i ==> responses[k].party != responses[j].party && responses[k].evaluator != responses[j].evaluator
    {
      if !(0 <= responses[i].party < parties) || !Agreeing(parties, threshold, responses[0].binding, responses[i]) {
        return false;
      }
      for k := 0 to i
        invariant forall j :: 0 <= j < k ==> responses[j].party != responses[i].party && responses[j].evaluator != responses[i].evaluator
      {
        if responses[k].party == responses[i].party || responses[k].evaluator == responses[i].evaluator {
          return false;
        }
      }
    }
    ok := true;
  }

  /**
   * `MpFssCoordinator.combine`: accepted exactly for one coherent response per party, and
   * then the word-wise xor of the parties' vectors, in whatever order they arrived.
   */
  method CombineResponses(parties: nat, threshold: int, expected: Option<string>, responses: seq<Response>)
    returns (r: Result<seq<Word>>, ghost vectors: seq<seq<Word>>)
    ensures r.Ok? <==> Coherent(parties, threshold, expected, responses)
    ensures r.Ok? ==> |vectors| == parties && SumsOf(r.value, vectors)
    ensures r.Ok? ==> forall i :: 0 <= i < |vectors| ==> IsVectorOf(responses, i, vectors[i])
  {
    vectors := [];
    var ok := CheckResponses(parties, threshold, expected, responses);
    if !ok {
      return Err(Malformed), vectors;
    }
    var length := ResponseLength(responses[0].binding);
    var collected: seq<seq<Word>> := [];
    for index := 0 to parties
      invariant |collected| == index && forall i :: 0 <= i < index ==> IsVectorOf(responses, i, collected[i])
    {
      var vector := VectorOf(responses, parties, index);
      collected := collected + [vector];
    }
    forall i | 0 <= i < |collected|
      ensures |collected[i]| == length
    {
      assert IsVectorOf(responses, i, collected[i]);
      var j :| 0 <= j < |responses| && responses[j].party == i && responses[j].shares == collected[i];
      assert Agreeing(parties, threshold, responses[0].binding, responses[j]);
    }
    hide *;
    var combined := XorVectors(collected, length);
    vectors := collected;
    r := Ok(combined);
  }

  /** Slot `i` carries a nonzero value for candidate `id`. */
  ghost predicate Names(slots: seq<string>, values: seq<Word>, ids: map<string, string>, id: string, i: nat) {
    i < |slots| == |values| && slots[i] in ids && ids[slots[i]] == id && values[i] != 0
  }

  /** Of the first `n` slots, `i` is the last that names the candidate. */
  ghost predicate LastNames(slots: seq<string>, values: seq<Word>, ids: map<string, string>, id: string, i: nat, n: nat) {
    i < n && Names(slots, values, ids, id, i) && forall j :: i < j < n ==> !Names(slots, values, ids, id, j)
  }

  /**
   * `candidate_values`: exactly the candidates some nonzero slot names, each with the value of
   * the last slot that names it.
   */
  method CandidateValues(slots: seq<string>, values: seq<Word>, ids: map<string, string>) returns (found: map<string, Word>)
    requires |slots| == |values|
    ensures forall id :: id in found ==> exists i: nat :: LastNames(slots, values, ids, id, i, |slots|)
    ensures forall id, i: nat :: LastNames(slots, values, ids, id, i, |slots|) ==> id in found && found[id] == values[i]
    ensures forall id, i: nat :: Names(slots, values, ids, id, i) ==> id in found
  {
    found := map[];
    for i := 0 to |slots|
      invariant Collected(slots, values, ids, i, found)
    {
      CollectedStep(slots, values, ids, i, found);
      hide Collected, Names;
      if slots[i] in ids && values[i] != 0 {
        found := found[ids[slots[i]] := values[i]];
      }
    }
  }

  /** What the first `n` slots have left behind. */
  ghost predicate Collected(slots: seq<string>, values: seq<Word>, ids: map<string, string>, n: nat, found: map<string, Word>) {
    && n <= |slots| == |values|
    && (forall id :: id in found ==> exists i: nat :: LastNames(slots, values, ids, id, i, n))
    && (forall id, i: nat :: LastNames(slots, values, ids, id, i, n) ==> id in found && found[id] == values[i])
    && forall id, i: nat :: i < n && Names(slots, values, ids, id, i) ==> id in found
  }

  lemma {:induction false} CollectedStep(slots: seq<string>, values: seq<Word>, ids: map<string, string>, n: nat, found: map<string, Word>)
    requires Collected(slots, values, ids, n, found) && n < |slots|
    ensures Collected(slots, values, ids, n + 1,
                      if slots[n] in ids && values[n] != 0 then found[ids[slots[n]] := values[n]] else found)
  {
    var m := n + 1;
    var next := if slots[n] in ids && values[n] != 0 then found[ids[slots[n]] := values[n]] else found;
    forall id | id in next
      ensures exists i: nat :: LastNames(slots, values, ids, id, i, m)
    {
      if Names(slots, values, ids, id, n) {
        assert LastNames(slots, values, ids, id, n, m);
      } else {
        var i: nat :| LastNames(slots, values, ids, id, i, n);
        assert LastNames(slots, values, ids, id, i, m);
      }
    }
    forall id, i: nat | LastNames(slots, values, ids, id, i, m)
      ensures id in next && next[id] == values[i]
    {
      if i < n {
        assert !Names(slots, values, ids, id, n);
        assert LastNames(slots, values, ids, id, i, n);
      }
    }
  }
}
