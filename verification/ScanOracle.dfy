// The scan layout's cleartext oracle, in its full-frontier and compacted forms.
module ScanOracle {
  import opened Wrappers
  import opened Bits
  import opened PackedEdges
  import opened PageConfig
  import opened OwnerEdges
  import opened Ranking
  import opened RankingOracle
  import opened TwoHop
  import opened GraphAnswer
  import opened KeyListing
  import opened RawAnswer
  import opened PagedOracle
  import opened PagedEvaluation
  import opened ScanBuckets

  /** Every owner's file is accepted under the declared bounds. */
  ghost predicate ScanFits(c: Config, b: Bounds, owners: seq<seq<RawEdge>>) {
    forall o :: 0 <= o < |owners| ==> AllRawOk(c, owners[o]) && WithinBounds(b, ResolveAll(c, owners[o]))
  }

  ghost function ScanResolve(c: Config, owners: seq<seq<RawEdge>>): (r: seq<seq<Resolved>>)
    requires forall o :: 0 <= o < |owners| ==> AllRawOk(c, owners[o])
    ensures |r| == |owners| && forall o :: 0 <= o < |r| ==> AllRawOk(c, owners[o]) && r[o] == ResolveAll(c, owners[o])
  {
    seq(|owners|, o requires 0 <= o < |owners| => assert AllRawOk(c, owners[o]); ResolveAll(c, owners[o]))
  }

  /** The owners' padded buckets. */
  ghost predicate Buckets(c: Config, b: Bounds, rs: seq<seq<Resolved>>, buckets: seq<seq<seq<Record>>>) {
    && b.Valid() && |buckets| == |rs|
    && forall o :: 0 <= o < |rs| ==> OwnerBuckets(c, b, rs[o], buckets[o])
  }

  ghost predicate OwnerBuckets(c: Config, b: Bounds, rs: seq<Resolved>, buckets: seq<seq<Record>>) {
    && ProperRecords(rs) && WithinBounds(b, rs) && |buckets| == c.EntityCount()
    && (forall i :: 0 <= i < |rs| ==> rs[i].record.target < c.EntityCount())
    && forall source :: 0 <= source < |buckets| ==> buckets[source] == PadBucket(BucketAt(rs, source), b.fanout)
  }

  /** One owner's filtered bucket. */
  lemma {:induction false} OwnerBlock(c: Config, b: Bounds, rs: seq<Resolved>, buckets: seq<seq<Record>>, key: Key)
    requires OwnerBuckets(c, b, rs, buckets) && key.source < c.EntityCount()
    ensures var kept := KeepRelation(buckets[key.source], key.relation);
      Matches(kept) == RecordsAt(rs, key) && |kept| == b.fanout && |Matches(kept)| <= b.relationFanout
  {
    KeepPadded(BucketAt(rs, key.source), b.fanout, key.relation);
    KeepBucket(rs, key.source, key.relation);
    assert |BucketAt(rs, key.source)| <= b.fanout;
  }

  /** `block(entity)` filtered by relation: the owners' buckets end to end. */
  method ReadBlock(c: Config, b: Bounds, ghost rs: seq<seq<Resolved>>, buckets: seq<seq<seq<Record>>>, key: Key)
    returns (slots: seq<Record>)
    requires Buckets(c, b, rs, buckets) && key.source < c.EntityCount()
    ensures |slots| == Times(|rs|, b.fanout)
    ensures HitsOf(Matches(slots)) == ScanHits(rs, key)
    ensures forall i :: 0 <= i < |slots| ==> slots[i].target < c.EntityCount()
  {
    slots := [];
    TimesFacts(0, b.fanout);
    for o := 0 to |buckets|
      invariant |slots| == Times(o, b.fanout)
      invariant HitsOf(Matches(slots)) == ScanHits(rs[..o], key)
      invariant forall i :: 0 <= i < |slots| ==> slots[i].target < c.EntityCount()
    {
      BlockStep(c, b, rs, buckets, key, o, slots);
      TimesFacts(o, b.fanout);
      hide Times, Matches, HitsOf, ScanHits, OwnerBuckets;
      slots := slots + KeepRelation(buckets[o][key.source], key.relation);
    }
    assert rs[..|rs|] == rs;
  }

  lemma {:induction false} BlockStep(c: Config, b: Bounds, rs: seq<seq<Resolved>>, buckets: seq<seq<seq<Record>>>, key: Key, o: nat, slots: seq<Record>)
    requires Buckets(c, b, rs, buckets) && key.source < c.EntityCount() && o < |rs|
    requires HitsOf(Matches(slots)) == ScanHits(rs[..o], key)
    ensures |buckets[o]| == c.EntityCount()
    ensures var kept := KeepRelation(buckets[o][key.source], key.relation);
      && |kept| == b.fanout && HitsOf(Matches(slots + kept)) == ScanHits(rs[..o + 1], key)
      && forall i :: 0 <= i < |kept| ==> kept[i].target < c.EntityCount()
  {
    assert OwnerBuckets(c, b, rs[o], buckets[o]);
    OwnerBlock(c, b, rs[o], buckets[o], key);
    BucketTargets(c, b, rs[o], buckets[o], key.source);
    var kept := KeepRelation(buckets[o][key.source], key.relation);
    HitsJoin(slots, kept);
    assert rs[..o + 1][..o] == rs[..o];
    hide Matches, HitsOf, OwnerBuckets;
  }

  /** Stored targets are entities. */
  lemma {:induction false} BucketTargets(c: Config, b: Bounds, rs: seq<Resolved>, buckets: seq<seq<Record>>, source: nat)
    requires OwnerBuckets(c, b, rs, buckets) && source < c.EntityCount()
    ensures forall i :: 0 <= i < |buckets[source]| ==> buckets[source][i].target < c.EntityCount()
  {
    TargetsAt(rs, source, c.EntityCount());
    var records := BucketAt(rs, source);
    hide BucketAt;
    forall i | 0 <= i < |buckets[source]|
      ensures buckets[source][i].target < c.EntityCount()
    {
      if i < |records| {
        assert buckets[source][i] == records[i];
      } else {
        assert buckets[source][i] == EMPTY_RECORD;
      }
    }
  }

  lemma {:induction false} TargetsAt(rs: seq<Resolved>, source: nat, limit: nat)
    requires forall i :: 0 <= i < |rs| ==> rs[i].record.target < limit
    ensures forall i :: 0 <= i < |BucketAt(rs, source)| ==> BucketAt(rs, source)[i].target < limit
  {
    if rs != [] {
      TargetsAt(rs[..|rs| - 1], source, limit);
    }
  }

  /** The compacted first frontier: every owner's matches at the start of its own fixed range. */
  method CompactBlocks(c: Config, b: Bounds, ghost rs: seq<seq<Resolved>>, buckets: seq<seq<seq<Record>>>, key: Key)
    returns (frontier: seq<Record>)
    requires Buckets(c, b, rs, buckets) && key.source < c.EntityCount()
    ensures |frontier| == Times(|rs|, b.relationFanout)
    ensures HitsOf(Matches(frontier)) == ScanHits(rs, key)
    ensures forall i :: 0 <= i < |frontier| ==> frontier[i].target < c.EntityCount()
  {
    frontier := [];
    TimesFacts(0, b.relationFanout);
    for o := 0 to |buckets|
      invariant |frontier| == Times(o, b.relationFanout)
      invariant HitsOf(Matches(frontier)) == ScanHits(rs[..o], key)
      invariant forall i :: 0 <= i < |frontier| ==> frontier[i].target < c.EntityCount()
    {
      CompactStep(c, b, rs, buckets, key, o, frontier);
      TimesFacts(o, b.relationFanout);
      hide Times, Matches, HitsOf, ScanHits, OwnerBuckets;
      frontier := frontier + CompactTo(KeepRelation(buckets[o][key.source], key.relation), b.relationFanout).value;
    }
    assert rs[..|rs|] == rs;
  }

  lemma {:induction false} KeptTargets(slots: seq<Record>, limit: nat)
    requires limit > 0 && forall i :: 0 <= i < |slots| ==> slots[i].target < limit
    ensures forall i :: 0 <= i < |Matches(slots)| ==> Matches(slots)[i].target < limit
  {
    if slots != [] {
      KeptTargets(slots[..|slots| - 1], limit);
    }
  }

  lemma {:induction false} CompactStep(c: Config, b: Bounds, rs: seq<seq<Resolved>>, buckets: seq<seq<seq<Record>>>, key: Key, o: nat, slots: seq<Record>)
    requires Buckets(c, b, rs, buckets) && key.source < c.EntityCount() && o < |rs|
    requires HitsOf(Matches(slots)) == ScanHits(rs[..o], key)
    ensures |buckets[o]| == c.EntityCount()
    ensures var compacted := CompactTo(KeepRelation(buckets[o][key.source], key.relation), b.relationFanout);
      && compacted.Ok? && |compacted.value| == b.relationFanout
      && HitsOf(Matches(slots + compacted.value)) == ScanHits(rs[..o + 1], key)
      && forall i :: 0 <= i < |compacted.value| ==> compacted.value[i].target < c.EntityCount()
  {
    assert OwnerBuckets(c, b, rs[o], buckets[o]);
    OwnerCompact(c, b, rs[o], buckets[o], key);
    var compacted := CompactTo(KeepRelation(buckets[o][key.source], key.relation), b.relationFanout).value;
    HitsJoin(slots, compacted);
    assert rs[..o + 1][..o] == rs[..o];
    hide Matches, HitsOf, OwnerBuckets, KeepRelation, CompactTo;
  }

  lemma {:induction false} HitsJoin(a: seq<Record>, b: seq<Record>)
    ensures HitsOf(Matches(a + b)) == HitsOf(Matches(a)) + HitsOf(Matches(b))
  {
    MatchesConcat(a, b);
    HitsOfConcat(Matches(a), Matches(b));
  }

  lemma {:induction false} OwnerCompact(c: Config, b: Bounds, rs: seq<Resolved>, buckets: seq<seq<Record>>, key: Key)
    requires OwnerBuckets(c, b, rs, buckets) && key.source < c.EntityCount()
    ensures var compacted := CompactTo(KeepRelation(buckets[key.source], key.relation), b.relationFanout);
      && compacted.Ok? && |compacted.value| == b.relationFanout && Matches(compacted.value) == RecordsAt(rs, key)
      && forall i :: 0 <= i < |compacted.value| ==> compacted.value[i].target < c.EntityCount()
  {
    OwnerBlock(c, b, rs, buckets, key);
    BucketTargets(c, b, rs, buckets, key.source);
    var kept := KeepRelation(buckets[key.source], key.relation);
    CompactKeepsMatches(kept, b.relationFanout);
    KeptTargets(kept, c.EntityCount());
    CompactedTargets(kept, b.relationFanout, c.EntityCount());
    hide *;
  }

  lemma {:induction false} CompactedTargets(kept: seq<Record>, width: nat, limit: nat)
    requires |Matches(kept)| <= width && limit > 0
    requires forall i :: 0 <= i < |Matches(kept)| ==> Matches(kept)[i].target < limit
    ensures var compacted := CompactTo(kept, width).value;
      |compacted| == width && forall i :: 0 <= i < |compacted| ==> compacted[i].target < limit
  {
    hide Matches;
    var blank := Blank(width - |Matches(kept)|);
    assert forall i :: 0 <= i < |blank| ==> blank[i] == EMPTY_RECORD;
  }

  // --- Candidates ----------------------------------------------------------------------------

  /** Follow one frontier slot, if it is occupied. */
  method FollowScan(c: Config, b: Bounds, ghost rs: seq<seq<Resolved>>, buckets: seq<seq<seq<Record>>>,
                    candidates0: seq<Scored>, start: nat, e: Record, relation: nat) returns (candidates: seq<Scored>)
    requires Buckets(c, b, rs, buckets) && e.target < c.EntityCount()
    requires Increasing(candidates0) && Below(candidates0, start)
    ensures Increasing(candidates) && Below(candidates, start + Times(|rs|, b.fanout))
    ensures StripAll(candidates) == StripAll(candidates0)
         + if e.target != 0 then Extend(HitOf(e), ScanSecond(rs, relation)(e.target)) else []
  {
    if e.target == 0 {
      return candidates0;
    }
    var seconds := ReadBlock(c, b, rs, buckets, Key(e.target, relation));
    assert ScanSecond(rs, relation)(e.target) == ScanHits(rs, Key(e.target, relation));
    candidates := ExtendCandidates(candidates0, start, e, seconds);
  }

  /** All candidates of a frontier; index `first_index * block_edges + second_index`. */
  method FormScan(c: Config, b: Bounds, ghost rs: seq<seq<Resolved>>, buckets: seq<seq<seq<Record>>>,
                  frontier: seq<Record>, relation: nat) returns (candidates: seq<Scored>)
    requires Buckets(c, b, rs, buckets)
    requires forall i :: 0 <= i < |frontier| ==> frontier[i].target < c.EntityCount()
    ensures Increasing(candidates)
    ensures StripAll(candidates) == Paths(HitsOf(Matches(frontier)), ScanSecond(rs, relation))
  {
    ghost var next := ScanSecond(rs, relation);
    var width := Times(|buckets|, b.fanout);
    assert |buckets| == |rs|;
    candidates := [];
    NoCandidates(next, width);
    hide *;
    assert frontier[..0] == [];
    for first := 0 to |frontier|
      invariant Increasing(candidates) && Below(candidates, Times(first, width))
      invariant StripAll(candidates) == Paths(HitsOf(Matches(frontier[..first])), next)
    {
      TimesFacts(first, width);
      FrontierStep(frontier, first, next);
      candidates := FollowScan(c, b, rs, buckets, candidates, Times(first, width), frontier[first], relation);
    }
    assert frontier[..|frontier|] == frontier;
  }

  // --- The evaluator -----------------------------------------------------------------------------

  method BuildBuckets(c: Config, b: Bounds, owners: seq<seq<RawEdge>>) returns (r: Result<seq<seq<seq<Record>>>>)
    requires c.Valid() && b.Valid()
    ensures r.Ok? <==> ScanFits(c, b, owners)
    ensures r.Ok? ==> Buckets(c, b, ScanResolve(c, owners), r.value)
  {
    var all: seq<seq<seq<Record>>> := [];
    for o := 0 to |owners|
      invariant |all| == o
      invariant forall i :: 0 <= i < o ==>
        AllRawOk(c, owners[i]) && WithinBounds(b, ResolveAll(c, owners[i])) && OwnerBuckets(c, b, ResolveAll(c, owners[i]), all[i])
    {
      var built := RawOwnerBuckets(c, b, owners[o]);
      if built.Err? {
        return Err(built.error);
      }
      OwnerBuilt(c, b, owners[o], built.value);
      hide AllRawOk, WithinBounds, OwnerBuckets;
      all := all + [built.value];
    }
    r := Ok(all);
  }

  lemma {:induction false} OwnerBuilt(c: Config, b: Bounds, edges: seq<RawEdge>, buckets: seq<seq<Record>>)
    requires c.Valid() && AllRawOk(c, edges) && WithinBounds(b, ResolveAll(c, edges)) && |buckets| == c.EntityCount()
    requires forall source :: 0 <= source < |buckets| ==> buckets[source] == PadBucket(BucketAt(ResolveAll(c, edges), source), b.fanout)
    ensures OwnerBuckets(c, b, ResolveAll(c, edges), buckets)
  {
    ResolvedProper(c, edges);
    hide WithinBounds, BucketAt;
  }

  /** The paths a named query asks for. */
  ghost function NamedPaths(c: Config, owners: seq<seq<RawEdge>>, q: Query): seq<Candidate>
    requires QueryKnown(c, q) && forall o :: 0 <= o < |owners| ==> AllRawOk(c, owners[o])
  {
    ScanPaths(ScanResolve(c, owners), c.entities[q.source], c.relations[q.relation1], c.relations[q.relation2])
  }

  /** What the scan oracle's answer must be. */
  ghost predicate ScanAnswers(c: Config, b: Bounds, owners: seq<seq<RawEdge>>, q: Query, r: Result<seq<Row>>) {
    && (r.Ok? <==> |owners| == c.owners && QueryKnown(c, q) && ScanFits(c, b, owners))
    && (r.Ok? ==> r.value == TopK(NamedPaths(c, owners, q), c.topK, c.dedup) && RawRows(c, owners, q, false, r.value))
  }

  /** The hits of a key in file order. */
  lemma {:induction false} ScanHitsListed(c: Config, owners: seq<seq<RawEdge>>, rs: seq<seq<Resolved>>, key: Key, n: nat) returns (places: seq<Place>)
    requires Resolves(c, owners, rs) && n <= |owners|
    ensures |rs| == |owners| && FedLists(c, owners, false, key, n, places, ScanHits(rs[..n], key))
  {
    places := [];
    NoneListed(c, owners, false, key);
    if n > 0 {
      assert Usable(c, owners[n - 1]) && rs[n - 1] == ResolveAll(c, owners[n - 1]);
      assert rs[..n][..n - 1] == rs[..n - 1];
      hide Resolves, FedLists, Usable;
      var before := ScanHitsListed(c, owners, rs, key, n - 1);
      var at := FileListing(c, owners[n - 1], key);
      FedSnoc(c, owners, false, key, n - 1, before, ScanHits(rs[..n - 1], key), at, RecordsAt(rs[n - 1], key));
      places := before + PlacesOf(n - 1, at);
    }
  }

  lemma {:induction false} ScanHitsEnumerate(c: Config, owners: seq<seq<RawEdge>>, rs: seq<seq<Resolved>>, key: Key)
    requires Resolves(c, owners, rs)
    ensures Enumerates(c, owners, false, key, ScanHits(rs, key))
  {
    var places := ScanHitsListed(c, owners, rs, key, |owners|);
    assert rs[..|owners|] == rs;
    hide FedLists;
  }

  /** The scan's rows, on the owners' raw edges, with ties in file order. */
  lemma {:induction false} ScanRowsAreRaw(c: Config, owners: seq<seq<RawEdge>>, rs: seq<seq<Resolved>>, q: Query)
    requires c.Valid() && QueryKnown(c, q) && Resolves(c, owners, rs)
    ensures RawRows(c, owners, q, false,
                    TopK(ScanPaths(rs, c.entities[q.source], c.relations[q.relation1], c.relations[q.relation2]), c.topK, c.dedup))
  {
    var source, relation1, relation2 := c.entities[q.source], c.relations[q.relation1], c.relations[q.relation2];
    ScanHitsEnumerate(c, owners, rs, Key(source, relation1));
    var second := ScanSecond(rs, relation2);
    forall target: nat
      ensures Enumerates(c, owners, false, Key(target, relation2), second(target))
    {
      ScanHitsEnumerate(c, owners, rs, Key(target, relation2));
    }
    assert AllKnown(c, owners);
    hide Enumerates, ScanHits, ScanSecond, Resolves, TopK, Config.Valid, AllKnown;
    var routes := AllAreRoutes(c, owners, q, false, ScanHits(rs, Key(source, relation1)), second);
    TopKIsRaw(c, owners, q, false, routes, Paths(ScanHits(rs, Key(source, relation1)), second));
  }

  lemma {:induction false} NamedRowsAreRaw(c: Config, owners: seq<seq<RawEdge>>, q: Query)
    requires c.Valid() && QueryKnown(c, q) && forall o :: 0 <= o < |owners| ==> AllRawOk(c, owners[o])
    ensures RawRows(c, owners, q, false, TopK(NamedPaths(c, owners, q), c.topK, c.dedup))
  {
    forall o | 0 <= o < |owners|
      ensures Usable(c, owners[o]) && ScanResolve(c, owners)[o] == ResolveAll(c, owners[o])
    {
      assert AllRawOk(c, owners[o]);
    }
    hide AllRawOk, Usable, RawRows, TopK, ScanPaths;
    ScanRowsAreRaw(c, owners, ScanResolve(c, owners), q);
  }

  /**
   * `evaluate_cleartext`: the compacted branch when the declared relation bound is below the
   * bucket size, the full branch otherwise -- the same rows either way.
   */
  method EvaluateScan(c: Config, b: Bounds, owners: seq<seq<RawEdge>>, q: Query) returns (r: Result<seq<Row>>)
    requires c.Valid() && b.Valid()
    ensures ScanAnswers(c, b, owners, q, r)
  {
    if |owners| != c.owners {
      return Err(Malformed);
    }
    if !QueryKnown(c, q) {
      return Err(UnknownItem);
    }
    var built := BuildBuckets(c, b, owners);
    if built.Err? {
      return Err(built.error);
    }
    ghost var rs := ScanResolve(c, owners);
    var source, relation1, relation2 := c.entities[q.source], c.relations[q.relation1], c.relations[q.relation2];
    assert forall o :: 0 <= o < |owners| ==> AllRawOk(c, owners[o]);
    NamedRowsAreRaw(c, owners, q);
    hide Buckets, ScanFits, TopK, RawRows;
    var frontier;
    if b.relationFanout < b.fanout {
      frontier := CompactBlocks(c, b, rs, built.value, Key(source, relation1));
    } else {
      frontier := ReadBlock(c, b, rs, built.value, Key(source, relation1));
    }
    var candidates := FormScan(c, b, rs, built.value, frontier, relation2);
    var rows := RankBySorting(candidates, c.topK, c.dedup);
    r := Ok(rows);
  }
}
