// The scan layout's circuits: the packed graph matrix, the one-hot block reads,
// the in-circuit relation filter, and both frontier forms.
module ScanCircuit {
  import opened Wrappers
  import opened Gates
  import opened Bits
  import opened FieldPacking
  import opened PackedEdges
  import opened PageConfig
  import opened OwnerEdges
  import opened PageLayout
  import opened ObliviousRead
  import opened PageReads
  import opened Compaction
  import opened GraphAnswer
  import opened PagedOracle
  import opened PagedEvaluation
  import opened ScanBuckets
  import opened ScanOracle

  // --- The relation filter on one stored value -----------------------------------------------

  /** The gates that turn a stored value into a slot of the wanted relation. */
  function FilterSlot(c: Config, gate: int, wanted: nat, value: nat): Slot {
    var w := c.EdgeWidths();
    var bits := Decompose(value, w.Bits());
    var afterRelation := w.slotBits + w.relationBits;
    var afterEvidence := afterRelation + w.evidenceBits;
    var target := Compose(bits[..w.slotBits]);
    var relation := Compose(bits[w.slotBits..afterRelation]);
    var handle := Compose(bits[afterRelation..afterEvidence]);
    var score := Compose(bits[afterEvidence..afterEvidence + w.scoreBits]);
    var stored := bits[w.Bits() - 1];
    var ok := gate * stored * Not(Equal(target, 0)) * Less(target, c.EntityCount()) * Equal(relation, wanted);
    Slot(ok, ok * target, ok * handle, ok * score)
  }

  lemma {:induction false} RelationSlice(w: Widths, value: nat)
    ensures Compose(Decompose(value, w.Bits())[w.slotBits..w.slotBits + w.relationBits]) == Unpack(value, w.List())[1]
  {
    PrefixTotals(w);
    var l := w.List();
    TotalSnoc(l[..0], w.slotBits);
    assert l[..1] == l[..0] + [w.slotBits];
    ComposeSlice(value, w.Bits(), w.slotBits, w.slotBits + w.relationBits);
    UnpackAt(value, l, 1);
  }

  function FilterGates(entityCount: nat, gate: int, wanted: nat, f: seq<nat>): Slot
    requires |f| == 5
  {
    var ok := gate * f[4] * Not(Equal(f[0], 0)) * Less(f[0], entityCount) * Equal(f[1], wanted);
    Slot(ok, ok * f[0], ok * f[2], ok * f[3])
  }

  /** A product of bits. */
  lemma {:induction false} FilterGateCases(entityCount: nat, gate: int, wanted: nat, f: seq<nat>)
    requires |f| == 5 && IsBit(gate) && IsBit(f[4])
    ensures FilterGates(entityCount, gate, wanted, f)
         == if gate == 1 && f[4] == 1 && 1 <= f[0] < entityCount && f[1] == wanted then Slot(1, f[0], f[2], f[3]) else EMPTY_SLOT
  {
    BitProduct(gate, f[4]);
    var a := gate * f[4];
    BitProduct(a, Not(Equal(f[0], 0)));
    var b := a * Not(Equal(f[0], 0));
    BitProduct(b, Less(f[0], entityCount));
    BitProduct(b * Less(f[0], entityCount), Equal(f[1], wanted));
  }

  lemma {:induction false} FilterFields(c: Config, gate: int, wanted: nat, value: nat)
    ensures FilterSlot(c, gate, wanted, value) == FilterGates(c.EntityCount(), gate, wanted, Unpack(value, c.EdgeWidths().List()))
  {
    hide Decompose, Compose, Unpack, Pow2, Total;
    SliceFields(c.EdgeWidths(), value);
    RelationSlice(c.EdgeWidths(), value);
  }

  /** The stored form of a bucket slot. */
  function Encoded(w: Widths, e: Record): nat {
    if e.target == 0 then 0 else PackedRecord(w, e)
  }

  /** The slot a filtered record becomes. */
  function KeptSlot(e: Record, gate: int, wanted: nat): Slot {
    if gate == 1 && e.target != 0 && e.relation == wanted then SlotOf(HitOf(e)) else EMPTY_SLOT
  }

  ghost predicate StorableSlot(c: Config, e: Record) {
    e.target != 0 ==> RecordFits(c.EdgeWidths(), e) && e.target < c.EntityCount()
  }

  /** The circuit's gates keep exactly the stored edges of the wanted relation. */
  lemma {:induction false} FilterKeeps(c: Config, gate: int, wanted: nat, e: Record)
    requires IsBit(gate) && StorableSlot(c, e)
    ensures FilterSlot(c, gate, wanted, Encoded(c.EdgeWidths(), e)) == KeptSlot(e, gate, wanted)
  {
    var w := c.EdgeWidths();
    FilterFields(c, gate, wanted, Encoded(w, e));
    UnpackZero(w.List());
    if e.target != 0 {
      PackedRecordReads(w, e);
    }
    hide FilterSlot, FilterGates, PackedRecord, Unpack;
    FilterGateCases(c.EntityCount(), gate, wanted, Unpack(Encoded(w, e), w.List()));
  }

  // --- Blocks ----------------------------------------------------------------------------------

  function EncodeAll(w: Widths, slots: seq<Record>): (r: seq<nat>)
    ensures |r| == |slots| && forall i :: 0 <= i < |r| ==> r[i] == Encoded(w, slots[i])
  {
    seq(|slots|, i requires 0 <= i < |slots| => Encoded(w, slots[i]))
  }

  function FilterAll(c: Config, gate: int, wanted: nat, values: seq<nat>): (r: seq<Slot>)
    ensures |r| == |values| && forall i :: 0 <= i < |r| ==> r[i] == FilterSlot(c, gate, wanted, values[i])
  {
    seq(|values|, i requires 0 <= i < |values| => FilterSlot(c, gate, wanted, values[i]))
  }

  function KeptSlots(slots: seq<Record>, gate: int, wanted: nat): (r: seq<Slot>)
    ensures |r| == |slots| && forall i :: 0 <= i < |r| ==> r[i] == KeptSlot(slots[i], gate, wanted)
  {
    seq(|slots|, i requires 0 <= i < |slots| => KeptSlot(slots[i], gate, wanted))
  }

  ghost predicate Storable(c: Config, slots: seq<Record>) {
    forall i :: 0 <= i < |slots| ==> StorableSlot(c, slots[i])
  }

  lemma {:induction false} FilterAllKeeps(c: Config, gate: int, wanted: nat, slots: seq<Record>)
    requires IsBit(gate) && Storable(c, slots)
    ensures FilterAll(c, gate, wanted, EncodeAll(c.EdgeWidths(), slots)) == KeptSlots(slots, gate, wanted)
  {
    forall i | 0 <= i < |slots|
      ensures FilterSlot(c, gate, wanted, Encoded(c.EdgeWidths(), slots[i])) == KeptSlot(slots[i], gate, wanted)
    {
      FilterKeeps(c, gate, wanted, slots[i]);
    }
    hide FilterSlot, Encoded, KeptSlot;
  }

  /** Kept slots are bits and hold real targets or zero. */
  lemma {:induction false} KeptShape(slots: seq<Record>, gate: int, wanted: nat)
    ensures BitSlots(KeptSlots(slots, gate, wanted))
    ensures forall i :: 0 <= i < |slots| ==> KeptSlots(slots, gate, wanted)[i].target >= 0
  {
  }

  /** Kept slots carry the filtered matches. */
  lemma {:induction false} KeptLive(slots: seq<Record>, gate: int, wanted: nat)
    requires IsBit(gate)
    ensures Live(KeptSlots(slots, gate, wanted)) == if gate == 1 then HitsOf(Matches(KeepRelation(slots, wanted))) else []
  {
    if slots != [] {
      var n := |slots| - 1;
      assert slots == slots[..n] + [slots[n]];
      KeptSnoc(slots[..n], slots[n], gate, wanted);
      hide *;
      KeptLive(slots[..n], gate, wanted);
    }
  }

  lemma {:induction false} KeptSnoc(slots: seq<Record>, e: Record, gate: int, wanted: nat)
    requires IsBit(gate)
    ensures Live(KeptSlots(slots + [e], gate, wanted))
         == Live(KeptSlots(slots, gate, wanted)) + if KeptSlot(e, gate, wanted).valid == 1 then [HitOf(e)] else []
    ensures HitsOf(Matches(KeepRelation(slots + [e], wanted)))
         == HitsOf(Matches(KeepRelation(slots, wanted))) + if KeptSlot(e, 1, wanted).valid == 1 then [HitOf(e)] else []
    ensures KeptSlot(e, 0, wanted).valid == 0
  {
    assert KeptSlots(slots + [e], gate, wanted) == KeptSlots(slots, gate, wanted) + [KeptSlot(e, gate, wanted)];
    LiveSnoc(KeptSlots(slots, gate, wanted), KeptSlot(e, gate, wanted));
    KeepSnoc(slots, e, wanted);
    hide Live, Matches, KeepRelation;
    var kept := Matches(KeepRelation(slots, wanted));
    HitsOfConcat(kept, [e]);
    assert HitsOf([e]) == [HitOf(e)];
  }

  /** The owners' padded buckets of one entity, end to end. */
  function EntityBlock(b: Bounds, rs: seq<seq<Resolved>>, source: nat): seq<Record> {
    if rs == [] then []
    else EntityBlock(b, rs[..|rs| - 1], source) + PadBucket(BucketAt(rs[|rs| - 1], source), b.fanout)
  }

  /** One owner's resolved edges, within bounds and packable. */
  ghost predicate OwnerSound(c: Config, b: Bounds, rs: seq<Resolved>) {
    && ProperRecords(rs) && WithinBounds(b, rs)
    && forall i :: 0 <= i < |rs| ==> StorableSlot(c, rs[i].record) && c.InRange(rs[i].key)
  }

  ghost predicate AllSound(c: Config, b: Bounds, rs: seq<seq<Resolved>>) {
    c.Valid() && b.Valid() && forall o :: 0 <= o < |rs| ==> OwnerSound(c, b, rs[o])
  }

  lemma {:induction false} BucketStorable(c: Config, rs: seq<Resolved>, source: nat)
    requires forall i :: 0 <= i < |rs| ==> StorableSlot(c, rs[i].record)
    ensures Storable(c, BucketAt(rs, source))
  {
    hide StorableSlot;
    if rs != [] {
      BucketStorable(c, rs[..|rs| - 1], source);
    }
  }

  /** A block's size, contents and meaning. */
  lemma {:induction false} BlockFacts(c: Config, b: Bounds, rs: seq<seq<Resolved>>, key: Key)
    requires AllSound(c, b, rs)
    ensures |EntityBlock(b, rs, key.source)| == Times(|rs|, b.fanout) && Storable(c, EntityBlock(b, rs, key.source))
    ensures HitsOf(Matches(KeepRelation(EntityBlock(b, rs, key.source), key.relation))) == ScanHits(rs, key)
  {
    TimesFacts(|rs|, b.fanout);
    if rs != [] {
      BlockStep(c, b, rs, key);
      hide *;
      BlockFacts(c, b, rs[..|rs| - 1], key);
    }
  }

  lemma {:induction false} BlockStep(c: Config, b: Bounds, rs: seq<seq<Resolved>>, key: Key)
    requires AllSound(c, b, rs) && rs != []
    ensures var n := |rs| - 1;
      && AllSound(c, b, rs[..n]) && Times(|rs|, b.fanout) == Times(n, b.fanout) + b.fanout
      && |EntityBlock(b, rs, key.source)| == |EntityBlock(b, rs[..n], key.source)| + b.fanout
      && (Storable(c, EntityBlock(b, rs[..n], key.source)) ==> Storable(c, EntityBlock(b, rs, key.source)))
      && HitsOf(Matches(KeepRelation(EntityBlock(b, rs, key.source), key.relation)))
         == HitsOf(Matches(KeepRelation(EntityBlock(b, rs[..n], key.source), key.relation))) + HitsOf(RecordsAt(rs[n], key))
      && ScanHits(rs, key) == ScanHits(rs[..n], key) + HitsOf(RecordsAt(rs[n], key))
  {
    var n := |rs| - 1;
    TimesFacts(n, b.fanout);
    assert OwnerSound(c, b, rs[n]);
    var before, own := EntityBlock(b, rs[..n], key.source), PadBucket(BucketAt(rs[n], key.source), b.fanout);
    BucketStorable(c, rs[n], key.source);
    PadStorable(c, BucketAt(rs[n], key.source), b.fanout);
    assert |BucketAt(rs[n], key.source)| <= b.fanout;
    OwnKept(b, rs[n], key);
    KeepConcat(before, own, key.relation);
    HitsJoin(KeepRelation(before, key.relation), KeepRelation(own, key.relation));
    hide KeepRelation, Matches, HitsOf, PadBucket, BucketAt, Times, StorableSlot, WithinBounds, ProperRecords;
  }

  lemma {:induction false} OwnKept(b: Bounds, rs: seq<Resolved>, key: Key)
    requires ProperRecords(rs)
    ensures Matches(KeepRelation(PadBucket(BucketAt(rs, key.source), b.fanout), key.relation)) == RecordsAt(rs, key)
  {
    KeepPadded(BucketAt(rs, key.source), b.fanout, key.relation);
    KeepBucket(rs, key.source, key.relation);
  }

  lemma {:induction false} PadStorable(c: Config, records: seq<Record>, fanout: nat)
    requires Storable(c, records)
    ensures Storable(c, PadBucket(records, fanout))
  {
    hide RecordFits;
    var blank := Blank(if |records| <= fanout then fanout - |records| else 0);
    assert forall i :: 0 <= i < |blank| ==> blank[i] == EMPTY_RECORD;
  }

  // --- The graph matrix --------------------------------------------------------------------------

  /** The reconstructed matrix: one row per entity, the owners' packed buckets side by side. */
  ghost predicate Graph(c: Config, b: Bounds, rs: seq<seq<Resolved>>, graph: seq<seq<nat>>) {
    && AllSound(c, b, rs) && |rs| == c.owners && |graph| == c.EntityCount()
    && forall e :: 0 <= e < |graph| ==> graph[e] == EncodeAll(c.EdgeWidths(), EntityBlock(b, rs, e))
  }

  lemma {:induction false} GraphShape(c: Config, b: Bounds, rs: seq<seq<Resolved>>, graph: seq<seq<nat>>)
    requires Graph(c, b, rs, graph)
    ensures c.Valid() && AllSound(c, b, rs) && |rs| == c.owners && |graph| == c.EntityCount()
    ensures Rectangular(graph, Times(c.owners, b.fanout))
  {
    forall e | 0 <= e < |graph|
      ensures |graph[e]| == Times(|rs|, b.fanout)
    {
      BlockFacts(c, b, rs, Key(e, 1));
    }
  }

  /** No edge leaves the reserved entity, or one out of range. */
  lemma {:induction false} OutOfRangeScan(c: Config, b: Bounds, rs: seq<seq<Resolved>>, key: Key)
    requires AllSound(c, b, rs) && !c.InRange(key)
    ensures ScanHits(rs, key) == []
  {
    if rs != [] {
      var n := |rs| - 1;
      OutOfRangeScan(c, b, rs[..n], key);
      assert OwnerSound(c, b, rs[n]);
      forall i | 0 <= i < |rs[n]|
        ensures rs[n][i].key != key
      {
        assert c.InRange(rs[n][i].key);
      }
      UnusedKey(rs[n], key);
    }
  }

  /** One oblivious block read, filtered: the block's slots, or empty ones when gated off. */
  method ReadSlots(c: Config, b: Bounds, ghost rs: seq<seq<Resolved>>, graph: seq<seq<nat>>, entity: nat, relation: nat, gate: int)
    returns (slots: seq<Slot>)
    requires Graph(c, b, rs, graph) && entity < c.EntityCount() && IsBit(gate)
    ensures slots == KeptSlots(EntityBlock(b, rs, entity), gate, relation)
  {
    GraphShape(c, b, rs, graph);
    BlockFacts(c, b, rs, Key(entity, relation));
    FilterAllKeeps(c, gate, relation, EntityBlock(b, rs, entity));
    RowIs(c, b, rs, graph, entity);
    hide *;
    var row := ReadRow(graph, entity, IndexBits(|graph|), Times(c.owners, b.fanout));
    var values: seq<nat> := row;
    slots := FilterAll(c, gate, relation, values);
  }

  lemma {:induction false} RowIs(c: Config, b: Bounds, rs: seq<seq<Resolved>>, graph: seq<seq<nat>>, entity: nat)
    requires Graph(c, b, rs, graph) && entity < c.EntityCount()
    ensures graph[entity] == EncodeAll(c.EdgeWidths(), EntityBlock(b, rs, entity)) && |graph| > 0
  {
  }

  // --- Preparing the matrix ------------------------------------------------------------------------

  /** One owner's packed rows, entity by entity. */
  ghost predicate OwnerRows(c: Config, b: Bounds, rs: seq<Resolved>, rows: seq<seq<nat>>) {
    && OwnerSound(c, b, rs) && |rows| == c.EntityCount()
    && forall e :: 0 <= e < |rows| ==> rows[e] == EncodeAll(c.EdgeWidths(), PadBucket(BucketAt(rs, e), b.fanout))
  }

  /** The packed buckets mirror the records. */
  ghost predicate Mirrors(w: Widths, records: seq<seq<Record>>, packed: seq<seq<nat>>) {
    |records| == |packed| && forall e :: 0 <= e < |packed| ==> packed[e] == EncodeAll(w, records[e])
  }

  lemma {:induction false} EncodeConcat(w: Widths, a: seq<Record>, b: seq<Record>)
    ensures EncodeAll(w, a + b) == EncodeAll(w, a) + EncodeAll(w, b)
  {
    hide Encoded;
  }

  lemma {:induction false} MirrorStep(w: Widths, records: seq<seq<Record>>, packed: seq<seq<nat>>, at: nat, e: Record, value: nat)
    requires Mirrors(w, records, packed) && at < |records| && value == Encoded(w, e)
    ensures Mirrors(w, records[at := records[at] + [e]], packed[at := packed[at] + [value]])
  {
    EncodeConcat(w, records[at], [e]);
    assert EncodeAll(w, [e]) == [value];
    hide Encoded, EncodeAll;
  }

  /** `_validated_edge`: the resolved edge and its packed value, or the reason it is refused. */
  method PackResolved(c: Config, e: RawEdge) returns (r: Result<nat>)
    requires c.Valid()
    ensures r.Ok? <==> Acceptable(c, e)
    ensures r.Ok? ==> r.value == Encoded(c.EdgeWidths(), Resolve(c, e).record) && Resolve(c, e).record.target != 0
  {
    if !Known(c, e) {
      return Err(UnknownItem);
    }
    if e.evidence <= 0 || e.score < 0 {
      return Err(BadValue);
    }
    var record := Resolve(c, e).record;
    FitsWidths(c.EdgeWidths(), record);
    var packed := PackEdge(c.EdgeWidths(), FieldsOf(record, 1));
    r := packed;
  }

  /** The file read so far. */
  ghost predicate Packing(c: Config, b: Bounds, rs: seq<Resolved>, records: seq<seq<Record>>, packed: seq<seq<nat>>, counts: map<Key, nat>) {
    Bucketed(c, rs, records, counts) && KeysChecked(b, rs) && Mirrors(c.EdgeWidths(), records, packed)
  }

  method PackStep(c: Config, b: Bounds, ghost rs: seq<Resolved>, r: Resolved, value: nat, ghost records0: seq<seq<Record>>,
                  packed0: seq<seq<nat>>, counts0: map<Key, nat>)
    returns (ok: bool, packed: seq<seq<nat>>, counts: map<Key, nat>, ghost records: seq<seq<Record>>)
    requires Packing(c, b, rs, records0, packed0, counts0) && r.key.source < c.EntityCount()
    requires value == Encoded(c.EdgeWidths(), r.record)
    ensures ok <==> |RecordsAt(rs, r.key)| + 1 <= b.relationFanout
    ensures ok ==> Packing(c, b, rs + [r], records, packed, counts)
  {
    BucketStep(c, rs, r, records0, counts0);
    MirrorStep(c.EdgeWidths(), records0, packed0, r.key.source, r.record, value);
    CountChecked(c, b, rs, r, records0, counts0);
    hide Mirrors, Encoded, KeysChecked;
    packed := packed0[r.key.source := packed0[r.key.source] + [value]];
    counts := counts0[r.key := CountOf(counts0, r.key) + 1];
    records := records0[r.key.source := records0[r.key.source] + [r.record]];
    ok := counts[r.key] <= b.relationFanout;
  }

  lemma {:induction false} CountChecked(c: Config, b: Bounds, rs: seq<Resolved>, r: Resolved, records: seq<seq<Record>>, counts: map<Key, nat>)
    requires Bucketed(c, rs, records, counts) && KeysChecked(b, rs)
    ensures CountOf(counts, r.key) == |RecordsAt(rs, r.key)|
    ensures |RecordsAt(rs, r.key)| + 1 <= b.relationFanout ==> KeysChecked(b, rs + [r])
  {
    if |RecordsAt(rs, r.key)| + 1 <= b.relationFanout {
      forall key: Key
        ensures |RecordsAt(rs + [r], key)| <= b.relationFanout
      {
        assert (rs + [r])[..|rs|] == rs;
        assert |RecordsAt(rs, key)| <= b.relationFanout;
      }
    }
  }

  /** An owner's file the scan deployment accepts. */
  ghost predicate OwnerPacks(c: Config, b: Bounds, edges: seq<RawEdge>) {
    c.EdgeWidths().Bits() <= c.usableBits && AllAcceptable(c, edges) && WithinBounds(b, ResolveAll(c, edges))
  }

  /** `packed_owner_vector`: accepted exactly when every edge packs and both bounds hold. */
  method PackedOwnerVector(c: Config, b: Bounds, edges: seq<RawEdge>) returns (r: Result<seq<seq<nat>>>)
    requires c.Valid()
    ensures r.Ok? <==> OwnerPacks(c, b, edges)
    ensures r.Ok? ==> OwnerRows(c, b, ResolveAll(c, edges), r.value)
  {
    if c.EdgeWidths().Bits() > c.usableBits {
      return Err(FieldOverflow);
    }
    var packed: seq<seq<nat>> := seq(c.EntityCount(), _ => []);
    ghost var records: seq<seq<Record>> := seq(c.EntityCount(), _ => []);
    var counts: map<Key, nat> := map[];
    for i := 0 to |edges|
      invariant AllAcceptable(c, edges[..i]) && Packing(c, b, ResolveAll(c, edges[..i]), records, packed, counts)
    {
      var e := edges[i];
      var value := PackResolved(c, e);
      hide Acceptable;
      if value.Err? {
        assert !AllAcceptable(c, edges);
        return Err(value.error);
      }
      EdgeStep(c, b, edges, i);
      hide Packing, WithinBounds;
      var ok;
      ok, packed, counts, records := PackStep(c, b, ResolveAll(c, edges[..i]), Resolve(c, e), value.value, records, packed, counts);
      if !ok {
        return Err(FrontierExceeded);
      }
    }
    assert edges[..|edges|] == edges;
    r := FinishOwner(c, b, edges, records, packed, counts);
  }

  lemma {:induction false} EdgeStep(c: Config, b: Bounds, edges: seq<RawEdge>, i: nat)
    requires i < |edges| && AllAcceptable(c, edges[..i]) && Acceptable(c, edges[i]) && c.Valid()
    ensures AllAcceptable(c, edges[..i + 1])
    ensures ResolveAll(c, edges[..i + 1]) == ResolveAll(c, edges[..i]) + [Resolve(c, edges[i])]
    ensures Resolve(c, edges[i]).key.source < c.EntityCount()
    ensures |RecordsAt(ResolveAll(c, edges[..i]), Resolve(c, edges[i]).key)| + 1 > b.relationFanout ==> !OwnerPacks(c, b, edges)
  {
    assert edges[..i + 1] == edges[..i] + [edges[i]];
    if AllAcceptable(c, edges) && |RecordsAt(ResolveAll(c, edges[..i]), Resolve(c, edges[i]).key)| + 1 > b.relationFanout {
      assert ResolveAll(c, edges)[..i] == ResolveAll(c, edges[..i]);
      KeyOverflows(b, ResolveAll(c, edges), i);
    }
  }

  /** The entity bound, then padding with zero values. */
  method FinishOwner(c: Config, b: Bounds, edges: seq<RawEdge>, ghost records: seq<seq<Record>>, packed: seq<seq<nat>>, ghost counts: map<Key, nat>)
    returns (r: Result<seq<seq<nat>>>)
    requires c.Valid() && AllAcceptable(c, edges) && c.EdgeWidths().Bits() <= c.usableBits
    requires Packing(c, b, ResolveAll(c, edges), records, packed, counts)
    ensures r.Ok? <==> OwnerPacks(c, b, edges)
    ensures r.Ok? ==> OwnerRows(c, b, ResolveAll(c, edges), r.value)
  {
    ghost var rs := ResolveAll(c, edges);
    var rows: seq<seq<nat>> := [];
    for e := 0 to |packed|
      invariant |rows| == e
      invariant forall s :: 0 <= s < e ==>
        rows[s] == EncodeAll(c.EdgeWidths(), PadBucket(BucketAt(rs, s), b.fanout)) && |BucketAt(rs, s)| <= b.fanout
    {
      EncodePadded(c.EdgeWidths(), BucketAt(rs, e), b.fanout);
      hide EncodeAll, PadBucket;
      if |packed[e]| > b.fanout {
        assert |BucketAt(rs, e)| > b.fanout;
        return Err(FrontierExceeded);
      }
      rows := rows + [packed[e] + Zeros(b.fanout - |packed[e]|)];
    }
    AllSmall(c, b, edges);
    r := Ok(rows);
  }

  lemma {:induction false} EncodePadded(w: Widths, records: seq<Record>, fanout: nat)
    ensures |EncodeAll(w, records)| == |records|
    ensures |records| <= fanout ==> EncodeAll(w, PadBucket(records, fanout)) == EncodeAll(w, records) + Zeros(fanout - |records|)
  {
    if |records| <= fanout {
      var blank := Blank(fanout - |records|);
      EncodeConcat(w, records, blank);
      assert forall i :: 0 <= i < |blank| ==> blank[i] == EMPTY_RECORD;
      assert EncodeAll(w, blank) == Zeros(fanout - |records|);
    }
  }

  lemma {:induction false} AllSmall(c: Config, b: Bounds, edges: seq<RawEdge>)
    requires c.Valid() && AllAcceptable(c, edges) && KeysChecked(b, ResolveAll(c, edges))
    requires forall s :: 0 <= s < c.EntityCount() ==> |BucketAt(ResolveAll(c, edges), s)| <= b.fanout
    ensures OwnerSound(c, b, ResolveAll(c, edges))
  {
    var rs := ResolveAll(c, edges);
    forall i | 0 <= i < |rs|
      ensures c.InRange(rs[i].key) && rs[i].record.target != 0 && rs[i].record.relation == rs[i].key.relation && StorableSlot(c, rs[i].record)
    {
      assert Acceptable(c, edges[i]);
    }
    forall source: nat
      ensures |BucketAt(rs, source)| <= b.fanout
    {
      if source >= c.EntityCount() {
        UnusedEntity(rs, source);
      }
    }
  }
}
