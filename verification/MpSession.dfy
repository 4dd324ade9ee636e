// One request through every stage: key generation, the evaluators' sweeps and
// projections, and the coordinator's xor.
module MpSession {
  import opened Wrappers
  import opened Xor
  import opened MpParams
  import opened MpDpf
  import opened MpKeygen
  import opened MpProjection

  /** What evaluator `i` computes from its own key only. */
  ghost predicate Evaluated(prg: Prg, share: KeyShare, p: Projection, points: seq<string>, vector: seq<Word>, projected: seq<Word>) {
    && share.WellFormed() && |vector| == |points| <= share.ps.DomainSize()
    && (forall x: nat :: x < |vector| ==> vector[x] == OutputShare(prg, share, x))
    && RoutedUpTo(p, points, vector, |points|, projected)
  }

  /** An evaluator's whole work on a request. */
  method EvaluateAndProject(prg: Prg, share: KeyShare, p: Projection, points: seq<string>)
    returns (r: Result<seq<Word>>, ghost vector: seq<Word>)
    requires share.WellFormed()
    ensures r.Ok? <==> 0 < |points| <= share.ps.DomainSize() && ProjectionValid(p, points)
    ensures r.Ok? ==> Evaluated(prg, share, p, points, vector, r.value)
  {
    hide ProjectionValid, RoutedUpTo, OutputShare;
    vector := [];
    var swept := EvaluateUniverse(prg, share, |points|);
    if swept.Err? {
      return Err(swept.error), vector;
    }
    vector := swept.value;
    r := Project(p, points, swept.value);
  }

  /** Every evaluator's own part of a request. */
  ghost predicate AllEvaluated(prg: Prg, shares: seq<KeyShare>, p: Projection, points: seq<string>, vectors: seq<seq<Word>>, projected: seq<seq<Word>>) {
    && |shares| == |vectors| == |projected|
    && forall i :: 0 <= i < |shares| ==> Evaluated(prg, shares[i], p, points, vectors[i], projected[i])
  }

  lemma {:induction false} EvaluatedAt(prg: Prg, shares: seq<KeyShare>, p: Projection, points: seq<string>, vectors: seq<seq<Word>>, projected: seq<seq<Word>>, slot: nat)
    requires AllEvaluated(prg, shares, p, points, vectors, projected) && slot < |p.slots|
    ensures |shares| == |vectors| == |projected| && UniverseShares(prg, shares, vectors, |points|)
    ensures forall i :: 0 <= i < |vectors| ==> |vectors[i]| == |points| && |projected[i]| == |p.slots|
    ensures forall i :: 0 <= i < |vectors| ==> projected[i][slot] == Routed(p, points, vectors[i], slot, |points|)
  {
    forall i | 0 <= i < |projected|
      ensures |projected[i]| == |p.slots| && |vectors[i]| == |points| && shares[i].WellFormed() && |points| <= shares[i].ps.DomainSize()
      ensures projected[i][slot] == Routed(p, points, vectors[i], slot, |points|)
      ensures forall x: nat :: x < |points| ==> vectors[i][x] == OutputShare(prg, shares[i], x)
    {
      assert Evaluated(prg, shares[i], p, points, vectors[i], projected[i]);
    }
    hide Evaluated, OutputShare, Routed;
  }

  /** The keys of a request, and every party's work with its own. */
  ghost predicate Served(prg: Prg, ps: Params, alpha: nat, beta: Word, s: Secrets, cw: seq<seq<Word>>, shares: seq<KeyShare>,
                         p: Projection, points: seq<string>, vectors: seq<seq<Word>>, projected: seq<seq<Word>>) {
    && Shares(prg, ps, alpha, beta, s, cw, shares) && NonzeroSeeds(s) && |points| <= ps.DomainSize()
    && AllEvaluated(prg, shares, p, points, vectors, projected)
  }

  /** Slot `slot` of every projected vector. */
  lemma {:induction false} SlotIsPointFunction(prg: Prg, ps: Params, alpha: nat, beta: Word, s: Secrets, cw: seq<seq<Word>>, shares: seq<KeyShare>,
                                               vectors: seq<seq<Word>>, projected: seq<seq<Word>>, p: Projection, points: seq<string>, slot: nat)
    requires Served(prg, ps, alpha, beta, s, cw, shares, p, points, vectors, projected) && slot < |p.slots|
    ensures forall i :: 0 <= i < |projected| ==> slot < |projected[i]|
    ensures Combined(Slice(projected, slot)) == SlotValue(p, points, alpha, beta, slot)
  {
    EvaluatedAt(prg, shares, p, points, vectors, projected, slot);
    hide *;
    SlotsOfPointFunction(prg, ps, alpha, beta, s, cw, shares, vectors, p, points, slot, Slice(projected, slot));
  }

  /** The evaluators all succeed or all fail, on public grounds. */
  method EvaluateAll(prg: Prg, ghost ps: Params, shares: seq<KeyShare>, p: Projection, points: seq<string>)
    returns (r: Result<seq<seq<Word>>>, ghost vectors: seq<seq<Word>>)
    requires |shares| >= 1 && forall i :: 0 <= i < |shares| ==> shares[i].WellFormed() && shares[i].ps == ps
    ensures r.Ok? <==> 0 < |points| <= ps.DomainSize() && ProjectionValid(p, points)
    ensures r.Ok? ==> AllEvaluated(prg, shares, p, points, vectors, r.value)
  {
    vectors := [];
    var projected: seq<seq<Word>> := [];
    hide *;
    for i := 0 to |shares|
      invariant |projected| == |vectors| == i
      invariant i > 0 ==> 0 < |points| <= ps.DomainSize() && ProjectionValid(p, points)
      invariant forall j :: 0 <= j < i ==> Evaluated(prg, shares[j], p, points, vectors[j], projected[j])
    {
      var one;
      ghost var vector;
      one, vector := EvaluateAndProject(prg, shares[i], p, points);
      if one.Err? {
        return Err(one.error), vectors;
      }
      projected, vectors := projected + [one.value], vectors + [vector];
    }
    AllAre(prg, shares, p, points, vectors, projected);
    r := Ok(projected);
  }

  lemma {:induction false} AllAre(prg: Prg, shares: seq<KeyShare>, p: Projection, points: seq<string>, vectors: seq<seq<Word>>, projected: seq<seq<Word>>)
    requires |shares| == |vectors| == |projected|
    requires forall i :: 0 <= i < |shares| ==> Evaluated(prg, shares[i], p, points, vectors[i], projected[i])
    ensures AllEvaluated(prg, shares, p, points, vectors, projected)
  {
    hide Evaluated;
  }

  // --- Responses, in whatever order they arrive --------------------------------------------------

  /** A network delivers each party's response once: `order[k]` is the k-th to arrive. */
  ghost predicate Arrival(order: seq<nat>, parties: nat) {
    && |order| == parties && (forall k :: 0 <= k < parties ==> order[k] < parties)
    && forall k, l :: 0 <= k < l < parties ==> order[k] != order[l]
  }

  ghost predicate DistinctNames(names: seq<string>, parties: nat) {
    |names| == parties && forall i, j :: 0 <= i < j < parties ==> names[i] != names[j]
  }

  /** The evaluators' responses to one projected request. */
  method Deliver(projected: seq<seq<Word>>, order: seq<nat>, names: seq<string>, threshold: int, binding: Binding) returns (responses: seq<Response>)
    requires Arrival(order, |projected|) && DistinctNames(names, |projected|)
    ensures Delivered(projected, order, names, threshold, binding, responses)
  {
    responses := [];
    for k := 0 to |order|
      invariant |responses| == k
      invariant forall l :: 0 <= l < k ==>
        responses[l] == Response(order[l], names[order[l]], |projected|, threshold, binding, projected[order[l]])
    {
      responses := responses + [Response(order[k], names[order[k]], |projected|, threshold, binding, projected[order[k]])];
    }
  }

  ghost predicate Delivered(projected: seq<seq<Word>>, order: seq<nat>, names: seq<string>, threshold: int, binding: Binding, responses: seq<Response>) {
    && Arrival(order, |projected|) && DistinctNames(names, |projected|) && |responses| == |projected|
    && forall k :: 0 <= k < |responses| ==>
      responses[k] == Response(order[k], names[order[k]], |projected|, threshold, binding, projected[order[k]])
  }

  /** Delivered responses pass every check of the coordinator. */
  lemma {:induction false} DeliveredCoherent(projected: seq<seq<Word>>, order: seq<nat>, names: seq<string>, threshold: int, binding: Binding, responses: seq<Response>)
    requires Delivered(projected, order, names, threshold, binding, responses) && |projected| >= 1
    requires forall i :: 0 <= i < |projected| ==> |projected[i]| == ResponseLength(binding)
    ensures Coherent(|projected|, threshold, Some(binding.requestId), responses)
  {
    hide ResponseLength;
    forall k | 0 <= k < |responses|
      ensures Agreeing(|projected|, threshold, responses[0].binding, responses[k])
    {
      assert |projected[order[k]]| == ResponseLength(binding);
    }
  }

  /** Each party's vector is found, whatever its place in the arrival order. */
  lemma {:induction false} DeliveredVectors(projected: seq<seq<Word>>, order: seq<nat>, names: seq<string>, threshold: int, binding: Binding,
                                            responses: seq<Response>, vectors: seq<seq<Word>>)
    requires Delivered(projected, order, names, threshold, binding, responses) && |vectors| == |projected|
    requires forall i :: 0 <= i < |vectors| ==> IsVectorOf(responses, i, vectors[i])
    ensures vectors == projected
  {
    forall i | 0 <= i < |vectors|
      ensures vectors[i] == projected[i]
    {
      assert IsVectorOf(responses, i, vectors[i]);
    }
  }

  /** The coordinator's combination of delivered responses: the xor of the parties' vectors. */
  method CombineDelivered(projected: seq<seq<Word>>, order: seq<nat>, names: seq<string>, threshold: int, binding: Binding) returns (combined: seq<Word>)
    requires Arrival(order, |projected|) && DistinctNames(names, |projected|) && |projected| >= 1
    requires forall i :: 0 <= i < |projected| ==> |projected[i]| == ResponseLength(binding)
    ensures SumsOf(combined, projected)
  {
    var responses := Deliver(projected, order, names, threshold, binding);
    DeliveredCoherent(projected, order, names, threshold, binding, responses);
    var r;
    ghost var vectors;
    r, vectors := CombineResponses(|projected|, threshold, Some(binding.requestId), responses);
    DeliveredVectors(projected, order, names, threshold, binding, responses, vectors);
    combined := r.value;
  }

  // --- The whole request -----------------------------------------------------------------------------

  /** Everything about a request besides its secret point: the public parts and the delivery. */
  datatype Request = Request(p: Projection, points: seq<string>, order: seq<nat>, names: seq<string>, requestId: string, keygenId: string)

  ghost predicate Deliverable(req: Request, parties: nat) {
    Arrival(req.order, parties) && DistinctNames(req.names, parties)
  }

  /** What the client must receive: beta in alpha's own slots, zero everywhere else. */
  ghost predicate Received(req: Request, alpha: nat, beta: Word, values: seq<Word>) {
    && |values| == |req.p.slots|
    && forall slot: nat :: slot < |values| ==> values[slot] == SlotValue(req.p, req.points, alpha, beta, slot)
  }

  lemma {:induction false} CombinedReceived(prg: Prg, ps: Params, alpha: nat, beta: Word, s: Secrets, cw: seq<seq<Word>>, shares: seq<KeyShare>,
                                            vectors: seq<seq<Word>>, projected: seq<seq<Word>>, req: Request, values: seq<Word>)
    requires Served(prg, ps, alpha, beta, s, cw, shares, req.p, req.points, vectors, projected)
    requires SumsOf(values, projected) && |values| == |req.p.slots|
    ensures Received(req, alpha, beta, values)
  {
    forall slot: nat | slot < |values|
      ensures values[slot] == SlotValue(req.p, req.points, alpha, beta, slot)
    {
      SlotIsPointFunction(prg, ps, alpha, beta, s, cw, shares, vectors, projected, req.p, req.points, slot);
      hide Served, Combined, SlotValue;
    }
    hide Served, Combined, SlotValue, SumsOf;
  }

  /**
   * The whole request, for any generator, point, value, randomness, universe, projection and
   * arrival order: whenever the public parts are acceptable, each slot receives beta if alpha
   * names a point of the universe that routes to it, and zero otherwise.
   */
  method Answer(prg: Prg, ps: Params, alpha: int, beta: Word, rnd: Randomness, req: Request) returns (r: Result<seq<Word>>)
    requires ps.Valid() && (forall row, j :: rnd.seed(row, j) != 0) && Deliverable(req, ps.partyCount)
    ensures r.Ok? <==> 0 <= alpha < ps.DomainSize() && 0 < |req.points| <= ps.DomainSize() && ProjectionValid(req.p, req.points)
    ensures r.Ok? ==> Received(req, alpha, beta, r.value)
  {
    var shares;
    ghost var s, cw;
    shares, s, cw := Generate(prg, ps, alpha, beta, rnd);
    if shares.Err? {
      return Err(shares.error);
    }
    SharesUsable(prg, ps, alpha, beta, s, cw, shares.value, 0);
    KeysUsable(prg, ps, alpha, beta, s, cw, shares.value);
    assert NonzeroSeeds(s);
    hide *;
    var projected;
    ghost var vectors;
    projected, vectors := EvaluateAll(prg, ps, shares.value, req.p, req.points);
    if projected.Err? {
      return Err(projected.error);
    }
    var binding := Binding(req.requestId, req.keygenId, true, req.p.slots, |req.points|);
    ServedIs(prg, ps, alpha, beta, s, cw, shares.value, vectors, projected.value, req);
    Widths(prg, shares.value, req.p, req.points, vectors, projected.value);
    Delivers(req, ps.partyCount, binding);
    var combined := CombineDelivered(projected.value, req.order, req.names, ps.threshold, binding);
    WidthOf(combined, projected.value, req);
    CombinedReceived(prg, ps, alpha, beta, s, cw, shares.value, vectors, projected.value, req, combined);
    r := Ok(combined);
  }

  lemma {:induction false} KeysUsable(prg: Prg, ps: Params, alpha: nat, beta: Word, s: Secrets, cw: seq<seq<Word>>, shares: seq<KeyShare>)
    requires Shares(prg, ps, alpha, beta, s, cw, shares)
    ensures |shares| == ps.partyCount >= 1 && forall i :: 0 <= i < |shares| ==> shares[i].ps == ps
  {
    forall i | 0 <= i < |shares|
      ensures shares[i].ps == ps
    {
      assert ShareOf(ps, s, cw, shares[i], i);
    }
  }

  lemma {:induction false} ServedIs(prg: Prg, ps: Params, alpha: nat, beta: Word, s: Secrets, cw: seq<seq<Word>>, shares: seq<KeyShare>,
                                    vectors: seq<seq<Word>>, projected: seq<seq<Word>>, req: Request)
    requires Shares(prg, ps, alpha, beta, s, cw, shares) && NonzeroSeeds(s) && |req.points| <= ps.DomainSize()
    requires AllEvaluated(prg, shares, req.p, req.points, vectors, projected)
    ensures Served(prg, ps, alpha, beta, s, cw, shares, req.p, req.points, vectors, projected)
  {
    hide Shares, NonzeroSeeds, AllEvaluated;
  }

  /** Every projected vector has one word for every slot. */
  lemma {:induction false} Widths(prg: Prg, shares: seq<KeyShare>, p: Projection, points: seq<string>, vectors: seq<seq<Word>>, projected: seq<seq<Word>>)
    requires AllEvaluated(prg, shares, p, points, vectors, projected)
    ensures |projected| == |shares| && forall i :: 0 <= i < |projected| ==> |projected[i]| == |p.slots|
  {
    forall i | 0 <= i < |projected|
      ensures |projected[i]| == |p.slots|
    {
      ProjectedWidth(prg, shares[i], p, points, vectors[i], projected[i]);
    }
    hide Evaluated;
  }

  lemma {:induction false} Delivers(req: Request, parties: nat, binding: Binding)
    requires Deliverable(req, parties) && binding.projected && binding.slotHandles == req.p.slots
    ensures Arrival(req.order, parties) && DistinctNames(req.names, parties) && ResponseLength(binding) == |req.p.slots|
  {
  }

  lemma {:induction false} WidthOf(combined: seq<Word>, projected: seq<seq<Word>>, req: Request)
    requires SumsOf(combined, projected) && |projected| >= 1
    requires forall i :: 0 <= i < |projected| ==> |projected[i]| == |req.p.slots|
    ensures |combined| == |req.p.slots|
  {
    assert |projected[0]| == |combined|;
    hide Combined, Slice;
  }

  lemma {:induction false} ProjectedWidth(prg: Prg, share: KeyShare, p: Projection, points: seq<string>, vector: seq<Word>, projected: seq<Word>)
    requires Evaluated(prg, share, p, points, vector, projected)
    ensures |projected| == |p.slots|
  {
  }
}
