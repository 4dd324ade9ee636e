// The scan circuits end to end: full frontier, and the frontier compacted owner
// by owner to its declared relation bound.
module ScanProgram {
  import opened Wrappers
  import opened Gates
  import opened Bits
  import opened PackedEdges
  import opened PageConfig
  import opened OwnerEdges
  import opened Ranking
  import opened TwoHop
  import opened Compaction
  import opened Candidates
  import opened GraphAnswer
  import opened PagedOracle
  import opened PagedEvaluation
  import opened ScanBuckets
  import opened ScanOracle
  import opened ScanCircuit

  // --- Deploying --------------------------------------------------------------------------

  /** Every owner's file can be prepared. */
  ghost predicate ScanDeployable(c: Config, b: Bounds, owners: seq<seq<RawEdge>>) {
    forall o :: 0 <= o < |owners| ==> OwnerPacks(c, b, owners[o])
  }

  /** Owner rows side by side. */
  function SideBySide(all: seq<seq<seq<nat>>>, e: nat): seq<nat>
    requires forall o :: 0 <= o < |all| ==> e < |all[o]|
  {
    if all == [] then [] else SideBySide(all[..|all| - 1], e) + all[|all| - 1][e]
  }

  ghost predicate AllRows(c: Config, b: Bounds, rs: seq<seq<Resolved>>, all: seq<seq<seq<nat>>>) {
    |all| == |rs| && forall o :: 0 <= o < |rs| ==> OwnerRows(c, b, rs[o], all[o])
  }

  /** The owners' packed rows side by side are the packed block. */
  lemma {:induction false} SideBySideIsBlock(c: Config, b: Bounds, rs: seq<seq<Resolved>>, all: seq<seq<seq<nat>>>, e: nat)
    requires AllRows(c, b, rs, all) && e < c.EntityCount()
    ensures forall o :: 0 <= o < |all| ==> e < |all[o]|
    ensures SideBySide(all, e) == EncodeAll(c.EdgeWidths(), EntityBlock(b, rs, e))
  {
    forall o | 0 <= o < |all|
      ensures e < |all[o]|
    {
      assert OwnerRows(c, b, rs[o], all[o]);
    }
    if rs != [] {
      var n := |rs| - 1;
      SideBySideIsBlock(c, b, rs[..n], all[..n], e);
      assert OwnerRows(c, b, rs[n], all[n]);
      EncodeConcat(c.EdgeWidths(), EntityBlock(b, rs[..n], e), PadBucket(BucketAt(rs[n], e), b.fanout));
      hide EncodeAll, PadBucket, OwnerRows;
    }
  }

  /** The reconstructed matrix, or the first owner whose file is refused. */
  method BuildGraph(c: Config, b: Bounds, owners: seq<seq<RawEdge>>) returns (r: Result<seq<seq<nat>>>)
    requires c.Valid() && b.Valid() && |owners| == c.owners
    ensures r.Ok? <==> ScanDeployable(c, b, owners)
    ensures r.Ok? ==> OwnersAcceptable(c, owners) && Graph(c, b, ResolveOwners(c, owners), r.value)
  {
    var all: seq<seq<seq<nat>>> := [];
    for o := 0 to |owners|
      invariant |all| == o
      invariant forall i :: 0 <= i < o ==> OwnerPacks(c, b, owners[i]) && OwnerRows(c, b, ResolveAll(c, owners[i]), all[i])
    {
      var built := PackedOwnerVector(c, b, owners[o]);
      hide OwnerPacks, OwnerRows;
      if built.Err? {
        return Err(built.error);
      }
      all := all + [built.value];
    }
    PacksAccept(c, b, owners);
    hide OwnerPacks, OwnerRows;
    var graph := Interleave(c, b, ResolveOwners(c, owners), all);
    r := Ok(graph);
  }

  lemma {:induction false} PacksAccept(c: Config, b: Bounds, owners: seq<seq<RawEdge>>)
    requires forall o :: 0 <= o < |owners| ==> OwnerPacks(c, b, owners[o])
    ensures OwnersAcceptable(c, owners)
  {
    hide AllAcceptable, WithinBounds;
  }

  method Interleave(c: Config, b: Bounds, ghost rs: seq<seq<Resolved>>, all: seq<seq<seq<nat>>>) returns (graph: seq<seq<nat>>)
    requires c.Valid() && b.Valid() && |rs| == c.owners && AllRows(c, b, rs, all)
    ensures Graph(c, b, rs, graph)
  {
    graph := [];
    forall o | 0 <= o < |rs|
      ensures OwnerSound(c, b, rs[o])
    {
      assert OwnerRows(c, b, rs[o], all[o]);
    }
    hide EncodeAll, AllRows, OwnerSound, OwnerRows, SideBySide, EntityBlock;
    for e := 0 to c.EntityCount()
      invariant |graph| == e
      invariant forall i :: 0 <= i < e ==> graph[i] == EncodeAll(c.EdgeWidths(), EntityBlock(b, rs, i))
    {
      SideBySideIsBlock(c, b, rs, all, e);
      hide EncodeAll, AllRows, OwnerSound;
      graph := graph + [SideBySide(all, e)];
    }
  }

  // --- The first hop -------------------------------------------------------------------------

  /** A frontier the second hop can follow: bits, and entities to read. */
  ghost predicate Readable(c: Config, slots: seq<Slot>) {
    BitSlots(slots) && forall i :: 0 <= i < |slots| ==> 0 <= slots[i].target < c.EntityCount()
  }

  lemma {:induction false} KeptReadable(c: Config, slots: seq<Record>, gate: int, wanted: nat)
    requires Storable(c, slots) && c.EntityCount() >= 1
    ensures Readable(c, KeptSlots(slots, gate, wanted))
  {
    hide RecordFits;
  }

  /** The federation's filtered first block. */
  ghost predicate FirstBlock(c: Config, b: Bounds, rs: seq<seq<Resolved>>, key: Key, slots: seq<Slot>) {
    exists gate, entity: nat :: IsFirstBlock(c, b, rs, key, slots, gate, entity)
  }

  ghost predicate IsFirstBlock(c: Config, b: Bounds, rs: seq<seq<Resolved>>, key: Key, slots: seq<Slot>, gate: int, entity: nat) {
    && gate == (if 1 <= key.source < c.EntityCount() then 1 else 0)
    && entity == (if gate == 1 then key.source else 0)
    && slots == KeptSlots(EntityBlock(b, rs, entity), gate, key.relation)
  }

  /** `(source != 0) * (source < ENTITY_COUNT)`. */
  function SourceGate(source: nat, entityCount: nat): (gate: int)
    ensures gate == if 1 <= source < entityCount then 1 else 0
  {
    Not(Equal(source, 0)) * Less(source, entityCount)
  }

  /** The gated source, its block, and the relation filter. */
  method ReadFirst(c: Config, b: Bounds, ghost rs: seq<seq<Resolved>>, graph: seq<seq<nat>>, source: nat, relation: nat)
    returns (slots: seq<Slot>)
    requires Graph(c, b, rs, graph)
    ensures FirstBlock(c, b, rs, Key(source, relation), slots)
  {
    var gate := SourceGate(source, c.EntityCount());
    var gated := IfElse(gate, source, 0);
    GateIsBit(c, gate);
    hide *;
    slots := ReadSlots(c, b, rs, graph, gated, relation, gate);
    FirstBlockIs(c, b, rs, Key(source, relation), slots, gate, gated);
  }

  lemma {:induction false} GateIsBit(c: Config, gate: int)
    ensures (gate == 0 || gate == 1 ==> IsBit(gate)) && c.EntityCount() >= 1
  {
  }

  lemma {:induction false} FirstBlockIs(c: Config, b: Bounds, rs: seq<seq<Resolved>>, key: Key, slots: seq<Slot>, gate: int, entity: nat)
    requires gate == if 1 <= key.source < c.EntityCount() then 1 else 0
    requires entity == if gate == 1 then key.source else 0
    requires slots == KeptSlots(EntityBlock(b, rs, entity), gate, key.relation)
    ensures FirstBlock(c, b, rs, key, slots)
  {
    assert IsFirstBlock(c, b, rs, key, slots, gate, entity);
  }

  /** What the first block holds. */
  lemma {:induction false} FirstBlockFacts(c: Config, b: Bounds, rs: seq<seq<Resolved>>, key: Key, slots: seq<Slot>)
    requires AllSound(c, b, rs) && FirstBlock(c, b, rs, key, slots)
    ensures |slots| == Times(|rs|, b.fanout) && Readable(c, slots) && Live(slots) == ScanHits(rs, key)
  {
    var gate, entity: nat :| IsFirstBlock(c, b, rs, key, slots, gate, entity);
    BlockFacts(c, b, rs, Key(entity, key.relation));
    KeptReadable(c, EntityBlock(b, rs, entity), gate, key.relation);
    KeptLive(EntityBlock(b, rs, entity), gate, key.relation);
    if gate == 0 {
      OutOfRangeScan(c, b, rs, key);
    }
    hide Times, Storable, Readable, Matches, KeepRelation, EntityBlock, ScanHits, AllSound, Live;
  }

  // --- Compacting it ----------------------------------------------------------------------------

  /** Owner `o`'s fixed range of a block. */
  function OwnerRange<T>(slots: seq<T>, fanout: nat, o: nat): (r: seq<T>)
    requires Times(o, fanout) + fanout <= |slots|
    ensures |r| == fanout
  {
    slots[Times(o, fanout)..Times(o, fanout) + fanout]
  }

  /** The block cut back into the owners' ranges. */
  function OwnerRanges<T>(slots: seq<T>, fanout: nat, owners: nat): (r: seq<seq<T>>)
    requires Times(owners, fanout) <= |slots|
    ensures |r| == owners
  {
    if owners == 0 then []
    else
      TimesFacts(owners - 1, fanout);
      OwnerRanges(slots, fanout, owners - 1) + [OwnerRange(slots, fanout, owners - 1)]
  }

  lemma {:induction false} RangesRejoin(slots: seq<Slot>, fanout: nat, owners: nat)
    requires Times(owners, fanout) <= |slots|
    ensures Joined(OwnerRanges(slots, fanout, owners)) == slots[..Times(owners, fanout)]
  {
    if owners == 0 {
      TimesFacts(0, fanout);
    } else {
      RejoinStep(slots, fanout, owners - 1);
      hide *;
      RangesRejoin(slots, fanout, owners - 1);
    }
  }

  lemma {:induction false} RejoinStep(slots: seq<Slot>, fanout: nat, n: nat)
    requires Times(n + 1, fanout) <= |slots|
    ensures Times(n, fanout) <= |slots| && Times(n, fanout) + fanout <= |slots|
    ensures Joined(OwnerRanges(slots, fanout, n + 1)) == Joined(OwnerRanges(slots, fanout, n)) + OwnerRange(slots, fanout, n)
    ensures slots[..Times(n + 1, fanout)] == slots[..Times(n, fanout)] + OwnerRange(slots, fanout, n)
  {
    TimesFacts(n, fanout);
    var r := OwnerRanges(slots, fanout, n + 1);
    hide Times;
    assert r[..n] == OwnerRanges(slots, fanout, n);
  }

  lemma {:induction false} RangeInPrefix<T>(before: seq<T>, own: seq<T>, fanout: nat, o: nat)
    requires Times(o, fanout) + fanout <= |before|
    ensures OwnerRange(before + own, fanout, o) == OwnerRange(before, fanout, o)
  {
    hide Times;
  }

  lemma {:induction false} RangeLast<T>(before: seq<T>, own: seq<T>, fanout: nat, n: nat)
    requires |before| == Times(n, fanout) && |own| == fanout
    ensures OwnerRange(before + own, fanout, n) == own
  {
    hide Times;
  }

  lemma {:induction false} BlockSplit(c: Config, b: Bounds, rs: seq<seq<Resolved>>, source: nat)
    requires AllSound(c, b, rs) && rs != []
    ensures var n := |rs| - 1; var own := PadBucket(BucketAt(rs[n], source), b.fanout);
      && EntityBlock(b, rs, source) == EntityBlock(b, rs[..n], source) + own && |own| == b.fanout
      && AllSound(c, b, rs[..n]) && |EntityBlock(b, rs[..n], source)| == Times(n, b.fanout)
  {
    var n := |rs| - 1;
    BlockFacts(c, b, rs[..n], Key(source, 1));
    assert OwnerSound(c, b, rs[n]);
    assert |BucketAt(rs[n], source)| <= b.fanout;
    hide Times, BucketAt, KeepRelation, Matches, ScanHits, OwnerSound;
  }

  /** Owner `o`'s range of the block is its padded bucket. */
  lemma {:induction false} BlockRange(c: Config, b: Bounds, rs: seq<seq<Resolved>>, source: nat, o: nat)
    requires AllSound(c, b, rs) && o < |rs|
    ensures Times(o, b.fanout) + b.fanout <= |EntityBlock(b, rs, source)|
    ensures OwnerRange(EntityBlock(b, rs, source), b.fanout, o) == PadBucket(BucketAt(rs[o], source), b.fanout)
  {
    hide *;
    var n := |rs| - 1;
    BlockSplit(c, b, rs, source);
    var before, own := EntityBlock(b, rs[..n], source), PadBucket(BucketAt(rs[n], source), b.fanout);
    if o < n {
      BlockRange(c, b, rs[..n], source, o);
      RangeInPrefix(before, own, b.fanout, o);
    } else {
      RangeLast(before, own, b.fanout, n);
    }
  }

  /** Every owner's range holds at most the declared number of matches. */
  lemma {:induction false} RangeBound(c: Config, b: Bounds, rs: seq<seq<Resolved>>, key: Key, slots: seq<Slot>, o: nat)
    requires AllSound(c, b, rs) && FirstBlock(c, b, rs, key, slots) && o < |rs|
    ensures Times(o, b.fanout) + b.fanout <= |slots|
    ensures |Live(OwnerRange(slots, b.fanout, o))| <= b.relationFanout
  {
    var gate, entity: nat :| IsFirstBlock(c, b, rs, key, slots, gate, entity);
    BlockRange(c, b, rs, entity, o);
    var own := PadBucket(BucketAt(rs[o], entity), b.fanout);
    assert OwnerRange(slots, b.fanout, o) == KeptSlots(own, gate, key.relation) by {
      hide Times, KeptSlot, EntityBlock, PadBucket;
    }
    KeptLive(own, gate, key.relation);
    assert OwnerSound(c, b, rs[o]);
    OwnKept(b, rs[o], Key(entity, key.relation));
    hide *;
    BoundAt(b, rs[o], Key(entity, key.relation), c);
  }

  lemma {:induction false} BoundAt(b: Bounds, rs: seq<Resolved>, key: Key, c: Config)
    requires OwnerSound(c, b, rs)
    ensures |RecordsAt(rs, key)| <= b.relationFanout && |HitsOf(RecordsAt(rs, key))| == |RecordsAt(rs, key)|
  {
  }

  lemma {:induction false} RangesAt<T>(slots: seq<T>, fanout: nat, owners: nat, o: nat)
    requires Times(owners, fanout) <= |slots| && o < owners
    ensures Times(o, fanout) + fanout <= |slots| && OwnerRanges(slots, fanout, owners)[o] == OwnerRange(slots, fanout, o)
  {
    TimesFacts(owners - 1, fanout);
    TimesFacts(o, fanout);
    TimesMonotone(o + 1, owners, fanout);
    hide Times;
    if o < owners - 1 {
      RangesAt(slots, fanout, owners - 1, o);
    }
  }

  /** Compacting keeps entities readable. */
  lemma {:induction false} CompactReadable(c: Config, slots: seq<Slot>, width: nat)
    requires Readable(c, slots) && c.EntityCount() >= 1
    ensures Readable(c, Compact(slots, width))
  {
    LiveReadable(c, slots);
  }

  lemma {:induction false} LiveReadable(c: Config, slots: seq<Slot>)
    requires Readable(c, slots)
    ensures forall i :: 0 <= i < |Live(slots)| ==> 0 <= Live(slots)[i].target < c.EntityCount()
  {
    if slots != [] {
      LiveReadable(c, slots[..|slots| - 1]);
    }
  }

  /** The owner-by-owner compaction loop. */
  method CompactRanges(c: Config, b: Bounds, slots: seq<Slot>, owners: nat) returns (frontier: seq<Slot>)
    requires Readable(c, slots) && Times(owners, b.fanout) <= |slots|
    ensures frontier == Joined(CompactEach(OwnerRanges(slots, b.fanout, owners), b.relationFanout))
    ensures Readable(c, frontier) && |frontier| == Times(owners, b.relationFanout)
  {
    frontier := [];
    TimesFacts(0, b.relationFanout);
    TimesFacts(0, b.fanout);
    for o := 0 to owners
      invariant Times(o, b.fanout) <= |slots|
      invariant frontier == Joined(CompactEach(OwnerRanges(slots, b.fanout, o), b.relationFanout))
      invariant Readable(c, frontier) && |frontier| == Times(o, b.relationFanout)
    {
      TimesFacts(o, b.fanout);
      TimesFacts(o, b.relationFanout);
      TimesMonotone(o + 1, owners, b.fanout);
      RangeReadable(c, slots, b.fanout, o);
      CompactReadable(c, OwnerRange(slots, b.fanout, o), b.relationFanout);
      CompactNext(slots, b, o);
      hide Times, Readable, Compact, CompactEach, Joined, OwnerRange, OwnerRanges;
      var compacted := StableCompaction(OwnerRange(slots, b.fanout, o), b.relationFanout);
      ReadableJoin(c, frontier, compacted);
      frontier := frontier + compacted;
    }
  }

  lemma {:induction false} RangeReadable(c: Config, slots: seq<Slot>, fanout: nat, o: nat)
    requires Readable(c, slots) && Times(o, fanout) + fanout <= |slots|
    ensures Readable(c, OwnerRange(slots, fanout, o)) && BitSlots(OwnerRange(slots, fanout, o)) && c.EntityCount() >= 1
  {
    hide Times;
  }

  lemma {:induction false} ReadableJoin(c: Config, a: seq<Slot>, b: seq<Slot>)
    requires Readable(c, a) && Readable(c, b)
    ensures Readable(c, a + b)
  {
  }

  lemma {:induction false} CompactNext(slots: seq<Slot>, b: Bounds, o: nat)
    requires Times(o + 1, b.fanout) <= |slots| && Times(o, b.fanout) + b.fanout == Times(o + 1, b.fanout)
    ensures Joined(CompactEach(OwnerRanges(slots, b.fanout, o + 1), b.relationFanout))
         == Joined(CompactEach(OwnerRanges(slots, b.fanout, o), b.relationFanout)) + Compact(OwnerRange(slots, b.fanout, o), b.relationFanout)
  {
    hide Times, Compact, OwnerRange;
    var more := CompactEach(OwnerRanges(slots, b.fanout, o + 1), b.relationFanout);
    assert more[..o] == CompactEach(OwnerRanges(slots, b.fanout, o), b.relationFanout);
  }

  /** Owner-local compaction loses none of the first hop's matches. */
  lemma {:induction false} ScanCompactionLossless(c: Config, b: Bounds, rs: seq<seq<Resolved>>, key: Key, slots: seq<Slot>)
    requires AllSound(c, b, rs) && FirstBlock(c, b, rs, key, slots)
    ensures Times(|rs|, b.fanout) <= |slots|
    ensures Live(Joined(CompactEach(OwnerRanges(slots, b.fanout, |rs|), b.relationFanout))) == ScanHits(rs, key)
  {
    FirstBlockFacts(c, b, rs, key, slots);
    var ranges := OwnerRanges(slots, b.fanout, |rs|);
    forall o | 0 <= o < |ranges|
      ensures |Live(ranges[o])| <= b.relationFanout
    {
      RangesAt(slots, b.fanout, |rs|, o);
      RangeBound(c, b, rs, key, slots, o);
    }
    hide *;
    CompactEachLossless(ranges, b.relationFanout);
    RangesRejoin(slots, b.fanout, |rs|);
    assert slots[..Times(|rs|, b.fanout)] == slots;
  }

  // --- The second hop and the answer -----------------------------------------------------------

  /** A frontier that carries the first hop's matches, in either form. */
  ghost predicate ScanFrontier(c: Config, rs: seq<seq<Resolved>>, key: Key, frontier: seq<Slot>) {
    Readable(c, frontier) && Live(frontier) == ScanHits(rs, key)
  }

  /** The full or the compacted first frontier. */
  method FirstFrontier(c: Config, b: Bounds, ghost rs: seq<seq<Resolved>>, graph: seq<seq<nat>>, source: nat, relation: nat, compact: bool)
    returns (frontier: seq<Slot>)
    requires Graph(c, b, rs, graph)
    ensures ScanFrontier(c, rs, Key(source, relation), frontier)
    ensures |frontier| == Times(c.owners, if compact then b.relationFanout else b.fanout)
  {
    GraphShape(c, b, rs, graph);
    var slots := ReadFirst(c, b, rs, graph, source, relation);
    FirstBlockFacts(c, b, rs, Key(source, relation), slots);
    hide AllSound, FirstBlock, ScanHits, Readable, Times, Graph;
    if compact {
      ScanCompactionLossless(c, b, rs, Key(source, relation), slots);
      frontier := CompactRanges(c, b, slots, c.owners);
    } else {
      frontier := slots;
    }
  }

  /** A second-hop row: the filtered block of its frontier slot's target. */
  ghost predicate SecondRow(c: Config, b: Bounds, rs: seq<seq<Resolved>>, relation: nat, first: Slot, row: seq<Slot>) {
    && |row| == Times(c.owners, b.fanout) && BitSlots(row)
    && Live(row) == ScanSecond(rs, relation)(first.target)
  }

  method ReadSecond(c: Config, b: Bounds, ghost rs: seq<seq<Resolved>>, graph: seq<seq<nat>>, ghost first: Slot, entity: nat, relation: nat)
    returns (row: seq<Slot>)
    requires Graph(c, b, rs, graph) && entity == first.target && entity < c.EntityCount()
    ensures SecondRow(c, b, rs, relation, first, row)
  {
    GraphShape(c, b, rs, graph);
    BlockFacts(c, b, rs, Key(entity, relation));
    KeptShape(EntityBlock(b, rs, entity), 1, relation);
    KeptLive(EntityBlock(b, rs, entity), 1, relation);
    hide Graph, AllSound, Times, EntityBlock, KeptSlots, KeepRelation, Matches, Live, BitSlots, Storable;
    row := ReadSlots(c, b, rs, graph, entity, relation, 1);
  }

  method SecondRows(c: Config, b: Bounds, ghost rs: seq<seq<Resolved>>, graph: seq<seq<nat>>, frontier: seq<Slot>, relation: nat)
    returns (rows: seq<seq<Slot>>)
    requires Graph(c, b, rs, graph) && Readable(c, frontier)
    ensures |rows| == |frontier|
    ensures forall f :: 0 <= f < |rows| ==> SecondRow(c, b, rs, relation, frontier[f], rows[f])
  {
    rows := [];
    for f := 0 to |frontier|
      invariant |rows| == f
      invariant forall i :: 0 <= i < f ==> SecondRow(c, b, rs, relation, frontier[i], rows[i])
    {
      hide Graph, SecondRow;
      var row := ReadSecond(c, b, rs, graph, frontier[f], frontier[f].target, relation);
      rows := rows + [row];
    }
  }

  /** One query of the circuit: the rows of the scan layout's meaning, whichever frontier form is used. */
  method ScanQuery(c: Config, b: Bounds, ghost rs: seq<seq<Resolved>>, graph: seq<seq<nat>>, source: nat, relation1: nat, relation2: nat, compact: bool)
    returns (rows: seq<Row>)
    requires Graph(c, b, rs, graph)
    ensures rows == TopK(ScanPaths(rs, source, relation1, relation2), c.topK, c.dedup)
  {
    var frontier := FirstFrontier(c, b, rs, graph, source, relation1, compact);
    FrontierReadable(c, rs, Key(source, relation1), frontier);
    hide Graph, Readable, ScanFrontier;
    var seconds := SecondRows(c, b, rs, graph, frontier, relation2);
    var lane := ScanLane(c, b, rs, Key(source, relation1), relation2, frontier, seconds);
    hide *;
    rows := RankScalar(lane, |frontier| * Times(c.owners, b.fanout), c.topK, c.dedup);
    PathsOfScan(rs, source, relation1, relation2);
  }

  lemma {:induction false} PathsOfScan(rs: seq<seq<Resolved>>, source: nat, relation1: nat, relation2: nat)
    ensures ScanPaths(rs, source, relation1, relation2) == Paths(ScanHits(rs, Key(source, relation1)), ScanSecond(rs, relation2))
  {
  }

  lemma {:induction false} FrontierReadable(c: Config, rs: seq<seq<Resolved>>, key: Key, frontier: seq<Slot>)
    requires ScanFrontier(c, rs, key, frontier)
    ensures Readable(c, frontier) && BitSlots(frontier) && Live(frontier) == ScanHits(rs, key)
  {
  }

  method ScanLane(c: Config, b: Bounds, ghost rs: seq<seq<Resolved>>, ghost key: Key, ghost relation: nat, frontier: seq<Slot>, rows: seq<seq<Slot>>)
    returns (lane: Lane)
    requires ScanFrontier(c, rs, key, frontier) && |rows| == |frontier|
    requires forall f :: 0 <= f < |rows| ==> SecondRow(c, b, rs, relation, frontier[f], rows[f])
    ensures lane.WellFormed(|frontier| * Times(c.owners, b.fanout))
    ensures Valid(lane, |frontier| * Times(c.owners, b.fanout)) == Paths(ScanHits(rs, key), ScanSecond(rs, relation))
  {
    FrontierReadable(c, rs, key, frontier);
    hide ScanHits, ScanSecond, Times, Live, BitSlots;
    SlotPathsArePaths(frontier, rows, ScanSecond(rs, relation));
    hide SecondRow;
    lane := FormCandidates(frontier, rows, Times(c.owners, b.fanout));
  }

  // --- Against the oracle -------------------------------------------------------------------------

  /** The shared identifier of a name; a name outside the catalogue becomes the reserved 0. */
  function IdOf(ids: map<string, nat>, name: string): nat {
    if name in ids then ids[name] else 0
  }

  /** What both forms of the circuit return for a query on deployed owners. */
  ghost predicate ScanRows(c: Config, owners: seq<seq<RawEdge>>, q: Query, rows: seq<Row>) {
    && OwnersAcceptable(c, owners)
    && rows == TopK(ScanPaths(ResolveOwners(c, owners), IdOf(c.entities, q.source), IdOf(c.relations, q.relation1),
                              IdOf(c.relations, q.relation2)), c.topK, c.dedup)
  }

  lemma {:induction false} RowsMatchOracle(c: Config, b: Bounds, owners: seq<seq<RawEdge>>, q: Query, oracle: Result<seq<Row>>, rows: seq<Row>)
    requires ScanAnswers(c, b, owners, q, oracle) && ScanRows(c, owners, q, rows)
    ensures oracle.Ok? ==> rows == oracle.value
  {
    if oracle.Ok? {
      assert forall o :: 0 <= o < |owners| ==> AllRawOk(c, owners[o]);
      hide AllRawOk, AllAcceptable, WithinBounds, ScanPaths, TopK;
      assert ScanResolve(c, owners) == ResolveOwners(c, owners);
    }
  }

  /** One named query. */
  method RunQuery(c: Config, b: Bounds, ghost owners: seq<seq<RawEdge>>, graph: seq<seq<nat>>, q: Query, compact: bool) returns (rows: seq<Row>)
    requires OwnersAcceptable(c, owners) && Graph(c, b, ResolveOwners(c, owners), graph)
    ensures ScanRows(c, owners, q, rows)
  {
    hide Graph, ScanPaths, TopK, OwnersAcceptable;
    rows := ScanQuery(c, b, ResolveOwners(c, owners), graph, IdOf(c.entities, q.source), IdOf(c.relations, q.relation1),
                      IdOf(c.relations, q.relation2), compact);
  }

  /** One form of the circuit on a batch of queries. */
  method RunScan(c: Config, b: Bounds, ghost owners: seq<seq<RawEdge>>, graph: seq<seq<nat>>, queries: seq<Query>, compact: bool)
    returns (results: seq<seq<Row>>)
    requires OwnersAcceptable(c, owners) && Graph(c, b, ResolveOwners(c, owners), graph)
    ensures |results| == |queries| && forall i :: 0 <= i < |queries| ==> ScanRows(c, owners, queries[i], results[i])
  {
    hide *;
    results := [];
    for i := 0 to |queries|
      invariant |results| == i && forall j :: 0 <= j < i ==> ScanRows(c, owners, queries[j], results[j])
    {
      var rows := RunQuery(c, b, owners, graph, queries[i], compact);
      results := results + [rows];
    }
  }

  /** Both circuit forms, and the oracle, give a query the same rows. */
  ghost predicate AllThreeAgree(c: Config, b: Bounds, owners: seq<seq<RawEdge>>, q: Query, oracle: Result<seq<Row>>, full: seq<Row>, compacted: seq<Row>) {
    ScanAnswers(c, b, owners, q, oracle) && full == compacted && (oracle.Ok? ==> full == oracle.value)
  }

  lemma {:induction false} ThreeAgree(c: Config, b: Bounds, owners: seq<seq<RawEdge>>, q: Query, oracle: Result<seq<Row>>, full: seq<Row>, compacted: seq<Row>)
    requires ScanAnswers(c, b, owners, q, oracle) && ScanRows(c, owners, q, full) && ScanRows(c, owners, q, compacted)
    ensures AllThreeAgree(c, b, owners, q, oracle, full, compacted)
  {
    RowsMatchOracle(c, b, owners, q, oracle, full);
    hide ScanAnswers, OwnersAcceptable;
  }

  /**
   * Frontier compaction preserves results: on any owners' files the deployment accepts, and
   * any queries, the full-frontier and compacted circuits return the same rows, and those of
   * the oracle wherever it answers.
   */
  method ScanAgreesWithOracle(c: Config, b: Bounds, owners: seq<seq<RawEdge>>, queries: seq<Query>)
    returns (oracle: seq<Result<seq<Row>>>, circuits: Option<(seq<seq<Row>>, seq<seq<Row>>)>)
    requires c.Valid() && b.Valid() && |owners| == c.owners
    ensures |oracle| == |queries| && forall i :: 0 <= i < |queries| ==> ScanAnswers(c, b, owners, queries[i], oracle[i])
    ensures circuits.Some? <==> ScanDeployable(c, b, owners)
    ensures circuits.Some? ==> |circuits.value.0| == |circuits.value.1| == |queries|
    ensures circuits.Some? ==> forall i :: 0 <= i < |queries| ==>
      AllThreeAgree(c, b, owners, queries[i], oracle[i], circuits.value.0[i], circuits.value.1[i])
  {
    hide *;
    oracle := [];
    for i := 0 to |queries|
      invariant |oracle| == i && forall j :: 0 <= j < i ==> ScanAnswers(c, b, owners, queries[j], oracle[j])
    {
      var r := EvaluateScan(c, b, owners, queries[i]);
      oracle := oracle + [r];
    }
    var graph := BuildGraph(c, b, owners);
    if graph.Err? {
      return oracle, None;
    }
    var full := RunScan(c, b, owners, graph.value, queries, false);
    var compacted := RunScan(c, b, owners, graph.value, queries, true);
    forall i | 0 <= i < |queries|
      ensures AllThreeAgree(c, b, owners, queries[i], oracle[i], full[i], compacted[i])
    {
      ThreeAgree(c, b, owners, queries[i], oracle[i], full[i], compacted[i]);
    }
    circuits := Some((full, compacted));
  }
}
