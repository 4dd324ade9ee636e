// The scan layout: one fixed-size bucket per entity and owner, in file order,
// and what a query means on it.
module ScanBuckets {
  import opened Wrappers
  import opened Bits
  import opened PackedEdges
  import opened PageConfig
  import opened OwnerEdges
  import opened Ranking
  import opened TwoHop
  import opened GraphAnswer
  import opened PagedOracle

  /** Public bounds: edges of one owner at one entity, and of those at one relation. */
  datatype Bounds = Bounds(fanout: nat, relationFanout: nat) {
    predicate Valid() {
      1 <= relationFanout <= fanout
    }
  }

  /** The reference's own checks on an edge, without packing it. */
  ghost predicate RawOk(c: Config, e: RawEdge) {
    Known(c, e) && 0 < e.evidence < Pow2(c.evidenceBits) && 0 <= e.score < Pow2(c.scoreBits)
  }

  ghost predicate AllRawOk(c: Config, edges: seq<RawEdge>) {
    forall i :: 0 <= i < |edges| ==> RawOk(c, edges[i])
  }

  /** Corollary: the reference and the serializer accept the same edges, once an edge's fields fit the field at all. */
  lemma {:induction false} RawOkIsAcceptable(c: Config, e: RawEdge)
    requires c.Valid()
    ensures Acceptable(c, e) <==> RawOk(c, e) && c.EdgeWidths().Bits() <= c.usableBits
  {
  }

  // --- Buckets -----------------------------------------------------------------------------

  /** The records stored at an entity, in file order. */
  function BucketAt(rs: seq<Resolved>, source: nat): seq<Record> {
    if rs == [] then []
    else
      var n := |rs| - 1;
      BucketAt(rs[..n], source) + if rs[n].key.source == source then [rs[n].record] else []
  }

  /** The slots a relation filter leaves occupied, in place. */
  function KeepRelation(slots: seq<Record>, relation: nat): (r: seq<Record>)
    ensures |r| == |slots|
    ensures forall i :: 0 <= i < |r| ==>
      r[i] == if slots[i].target != 0 && slots[i].relation == relation then slots[i] else EMPTY_RECORD
  {
    seq(|slots|, i requires 0 <= i < |slots| =>
      if slots[i].target != 0 && slots[i].relation == relation then slots[i] else EMPTY_RECORD)
  }

  /** A bucket padded with all-zero records. */
  function PadBucket(records: seq<Record>, fanout: nat): (r: seq<Record>)
    ensures |r| == if |records| <= fanout then fanout else |records|
  {
    records + Blank(if |records| <= fanout then fanout - |records| else 0)
  }

  ghost predicate ProperRecords(rs: seq<Resolved>) {
    forall i :: 0 <= i < |rs| ==> rs[i].record.target != 0 && rs[i].record.relation == rs[i].key.relation
  }

  lemma {:induction false} ResolvedProper(c: Config, edges: seq<RawEdge>)
    requires c.Valid() && AllRawOk(c, edges)
    ensures ProperRecords(ResolveAll(c, edges))
  {
  }

  /** Filtering an entity's bucket by relation leaves the records of that key, in file order. */
  lemma {:induction false} KeepBucket(rs: seq<Resolved>, source: nat, relation: nat)
    requires ProperRecords(rs)
    ensures Matches(KeepRelation(BucketAt(rs, source), relation)) == RecordsAt(rs, Key(source, relation))
  {
    if rs != [] {
      var n := |rs| - 1;
      KeepBucket(rs[..n], source, relation);
      if rs[n].key.source == source {
        KeepSnoc(BucketAt(rs[..n], source), rs[n].record, relation);
        assert rs[n].key == Key(source, relation) <==> rs[n].record.relation == relation;
      } else {
        assert BucketAt(rs, source) == BucketAt(rs[..n], source);
      }
    }
  }

  lemma {:induction false} KeepSnoc(slots: seq<Record>, e: Record, relation: nat)
    ensures Matches(KeepRelation(slots + [e], relation))
         == Matches(KeepRelation(slots, relation)) + if e.target != 0 && e.relation == relation then [e] else []
  {
    var kept := KeepRelation(slots + [e], relation);
    assert kept[..|slots|] == KeepRelation(slots, relation);
  }

  lemma {:induction false} KeepConcat(a: seq<Record>, b: seq<Record>, relation: nat)
    ensures KeepRelation(a + b, relation) == KeepRelation(a, relation) + KeepRelation(b, relation)
  {
  }

  lemma {:induction false} KeepBlank(n: nat, relation: nat)
    ensures KeepRelation(Blank(n), relation) == Blank(n)
  {
  }

  /** Padding adds no matches. */
  lemma {:induction false} KeepPadded(records: seq<Record>, fanout: nat, relation: nat)
    ensures Matches(KeepRelation(PadBucket(records, fanout), relation)) == Matches(KeepRelation(records, relation))
  {
    var n := if |records| <= fanout then fanout - |records| else 0;
    KeepConcat(records, Blank(n), relation);
    KeepBlank(n, relation);
    MatchesConcat(KeepRelation(records, relation), Blank(n));
    MatchesOfBlank(n);
  }

  // --- Building -----------------------------------------------------------------------------

  /** No entity, and no key, holds more edges than declared. */
  ghost predicate WithinBounds(b: Bounds, rs: seq<Resolved>) {
    && (forall key :: |RecordsAt(rs, key)| <= b.relationFanout)
    && forall source :: |BucketAt(rs, source)| <= b.fanout
  }

  /** What the loop has built: every bucket so far, and the per-key counters. */
  ghost predicate Bucketed(c: Config, rs: seq<Resolved>, buckets: seq<seq<Record>>, counts: map<Key, nat>) {
    && |buckets| == c.EntityCount()
    && (forall source :: 0 <= source < |buckets| ==> buckets[source] == BucketAt(rs, source))
    && forall key :: CountOf(counts, key) == |RecordsAt(rs, key)|
  }

  function CountOf(counts: map<Key, nat>, key: Key): nat {
    if key in counts then counts[key] else 0
  }

  lemma {:induction false} BucketStep(c: Config, rs: seq<Resolved>, r: Resolved, buckets: seq<seq<Record>>, counts: map<Key, nat>)
    requires Bucketed(c, rs, buckets, counts) && r.key.source < c.EntityCount()
    ensures Bucketed(c, rs + [r], buckets[r.key.source := buckets[r.key.source] + [r.record]],
                     counts[r.key := CountOf(counts, r.key) + 1])
  {
    var more := rs + [r];
    assert more[..|rs|] == rs;
    forall key: Key
      ensures RecordsAt(more, key) == RecordsAt(rs, key) + if r.key == key then [r.record] else []
    {
    }
    forall source: nat
      ensures BucketAt(more, source) == BucketAt(rs, source) + if r.key.source == source then [r.record] else []
    {
    }
  }

  /** Loads only grow. */
  lemma {:induction false} LoadsGrow(rs: seq<Resolved>, n: nat, key: Key)
    requires n <= |rs|
    ensures |RecordsAt(rs[..n], key)| <= |RecordsAt(rs, key)| && |BucketAt(rs[..n], key.source)| <= |BucketAt(rs, key.source)|
  {
    if n < |rs| {
      LoadsGrow(rs[..|rs| - 1], n, key);
      assert rs[..|rs| - 1][..n] == rs[..n];
    } else {
      assert rs[..n] == rs;
    }
  }

  /** A key beyond its bound anywhere in the file makes the whole file exceed its bound. */
  lemma {:induction false} KeyOverflows(b: Bounds, rs: seq<Resolved>, n: nat)
    requires n < |rs| && |RecordsAt(rs[..n], rs[n].key)| + 1 > b.relationFanout
    ensures !WithinBounds(b, rs)
  {
    assert rs[..n + 1][..n] == rs[..n];
    LoadsGrow(rs, n + 1, rs[n].key);
    assert |RecordsAt(rs, rs[n].key)| > b.relationFanout;
  }

  /** Keys and entities no edge uses hold nothing. */
  lemma {:induction false} UnusedKey(rs: seq<Resolved>, key: Key)
    requires forall i :: 0 <= i < |rs| ==> rs[i].key != key
    ensures RecordsAt(rs, key) == []
  {
    if rs != [] {
      UnusedKey(rs[..|rs| - 1], key);
    }
  }

  lemma {:induction false} UnusedEntity(rs: seq<Resolved>, source: nat)
    requires forall i :: 0 <= i < |rs| ==> rs[i].key.source != source
    ensures BucketAt(rs, source) == []
  {
    if rs != [] {
      UnusedEntity(rs[..|rs| - 1], source);
    }
  }

  /** Every key's final load was checked when its last edge arrived. */
  ghost predicate KeysChecked(b: Bounds, rs: seq<Resolved>) {
    forall key :: |RecordsAt(rs, key)| <= b.relationFanout
  }

  method BucketEdge(c: Config, b: Bounds, ghost rs: seq<Resolved>, r: Resolved, buckets0: seq<seq<Record>>, counts0: map<Key, nat>)
    returns (ok: bool, buckets: seq<seq<Record>>, counts: map<Key, nat>)
    requires Bucketed(c, rs, buckets0, counts0) && KeysChecked(b, rs) && r.key.source < c.EntityCount()
    ensures ok <==> |RecordsAt(rs, r.key)| + 1 <= b.relationFanout
    ensures ok ==> Bucketed(c, rs + [r], buckets, counts) && KeysChecked(b, rs + [r])
  {
    BucketStep(c, rs, r, buckets0, counts0);
    buckets := buckets0[r.key.source := buckets0[r.key.source] + [r.record]];
    counts := counts0[r.key := CountOf(counts0, r.key) + 1];
    ok := counts[r.key] <= b.relationFanout;
    if ok {
      forall key: Key
        ensures |RecordsAt(rs + [r], key)| <= b.relationFanout
      {
        assert (rs + [r])[..|rs|] == rs;
        assert |RecordsAt(rs, key)| <= b.relationFanout;
        assert CountOf(counts0, r.key) == |RecordsAt(rs, r.key)|;
      }
    }
  }

  /** The next edge of the file: checked, resolved and filed. */
  method BucketNext(c: Config, b: Bounds, edges: seq<RawEdge>, i: nat, buckets0: seq<seq<Record>>, counts0: map<Key, nat>)
    returns (r: Result<(seq<seq<Record>>, map<Key, nat>)>)
    requires c.Valid() && i < |edges| && AllRawOk(c, edges[..i])
    requires Bucketed(c, ResolveAll(c, edges[..i]), buckets0, counts0) && KeysChecked(b, ResolveAll(c, edges[..i]))
    ensures r.Err? ==> !(AllRawOk(c, edges) && WithinBounds(b, ResolveAll(c, edges)))
    ensures r.Ok? ==> AllRawOk(c, edges[..i + 1])
    ensures r.Ok? ==> Bucketed(c, ResolveAll(c, edges[..i + 1]), r.value.0, r.value.1) && KeysChecked(b, ResolveAll(c, edges[..i + 1]))
  {
    var e := edges[i];
    assert !RawOk(c, e) ==> !AllRawOk(c, edges);
    if !Known(c, e) {
      return Err(UnknownItem);
    }
    if !(0 < e.evidence < Pow2(c.evidenceBits)) || !(0 <= e.score < Pow2(c.scoreBits)) {
      return Err(BadValue);
    }
    PrefixResolves(c, edges, i);
    hide Bucketed, KeysChecked, WithinBounds, RecordsAt, BucketAt, Pow2, AllRawOk, RawOk;
    var ok, buckets, counts := BucketEdge(c, b, ResolveAll(c, edges[..i]), Resolve(c, e), buckets0, counts0);
    if !ok {
      EdgeOverflows(c, b, edges, i);
      return Err(FrontierExceeded);
    }
    r := Ok((buckets, counts));
  }

  lemma {:induction false} PrefixResolves(c: Config, edges: seq<RawEdge>, i: nat)
    requires c.Valid() && i < |edges| && AllRawOk(c, edges[..i]) && RawOk(c, edges[i])
    ensures AllRawOk(c, edges[..i + 1]) && ResolveAll(c, edges[..i + 1]) == ResolveAll(c, edges[..i]) + [Resolve(c, edges[i])]
    ensures Resolve(c, edges[i]).key.source < c.EntityCount()
  {
    assert edges[..i + 1] == edges[..i] + [edges[i]];
    hide RawOk, Pow2;
  }

  lemma {:induction false} EdgeOverflows(c: Config, b: Bounds, edges: seq<RawEdge>, i: nat)
    requires i < |edges| && AllRawOk(c, edges[..i]) && RawOk(c, edges[i])
    requires |RecordsAt(ResolveAll(c, edges[..i]), Resolve(c, edges[i]).key)| + 1 > b.relationFanout
    ensures !(AllRawOk(c, edges) && WithinBounds(b, ResolveAll(c, edges)))
  {
    if AllRawOk(c, edges) {
      assert ResolveAll(c, edges)[..i] == ResolveAll(c, edges[..i]);
      hide WithinBounds, RecordsAt, RawOk;
      KeyOverflows(b, ResolveAll(c, edges), i);
    }
  }

  /**
   * `_raw_owner_buckets`: succeeds exactly when every edge is well formed and both public
   * bounds hold, and then every entity's bucket holds its edges in file order.
   */
  method RawOwnerBuckets(c: Config, b: Bounds, edges: seq<RawEdge>) returns (r: Result<seq<seq<Record>>>)
    requires c.Valid()
    ensures r.Ok? <==> AllRawOk(c, edges) && WithinBounds(b, ResolveAll(c, edges))
    ensures r.Ok? ==> |r.value| == c.EntityCount()
    ensures r.Ok? ==> forall source :: 0 <= source < |r.value| ==>
      r.value[source] == PadBucket(BucketAt(ResolveAll(c, edges), source), b.fanout)
  {
    var buckets: seq<seq<Record>> := seq(c.EntityCount(), _ => []);
    var counts: map<Key, nat> := map[];
    assert edges[..0] == [];
    hide Bucketed, KeysChecked, WithinBounds, RecordsAt, BucketAt, Pow2;
    for i := 0 to |edges|
      invariant AllRawOk(c, edges[..i])
      invariant Bucketed(c, ResolveAll(c, edges[..i]), buckets, counts) && KeysChecked(b, ResolveAll(c, edges[..i]))
    {
      var step := BucketNext(c, b, edges, i, buckets, counts);
      if step.Err? {
        return Err(step.error);
      }
      buckets, counts := step.value.0, step.value.1;
    }
    assert edges[..|edges|] == edges;
    r := PadAll(c, b, ResolveAll(c, edges), buckets, counts);
  }

  /** The entity bound, then padding. */
  method PadAll(c: Config, b: Bounds, ghost rs: seq<Resolved>, buckets: seq<seq<Record>>, ghost counts: map<Key, nat>)
    returns (r: Result<seq<seq<Record>>>)
    requires Bucketed(c, rs, buckets, counts) && KeysChecked(b, rs)
    requires forall i :: 0 <= i < |rs| ==> rs[i].key.source < c.EntityCount()
    ensures r.Ok? <==> WithinBounds(b, rs)
    ensures r.Ok? ==> |r.value| == c.EntityCount()
    ensures r.Ok? ==> forall source :: 0 <= source < |r.value| ==> r.value[source] == PadBucket(BucketAt(rs, source), b.fanout)
  {
    var padded: seq<seq<Record>> := [];
    for source := 0 to |buckets|
      invariant |padded| == source
      invariant forall s :: 0 <= s < source ==> padded[s] == PadBucket(BucketAt(rs, s), b.fanout) && |BucketAt(rs, s)| <= b.fanout
    {
      if |buckets[source]| > b.fanout {
        return Err(FrontierExceeded);
      }
      padded := padded + [PadBucket(buckets[source], b.fanout)];
    }
    forall source: nat
      ensures |BucketAt(rs, source)| <= b.fanout
    {
      if source >= c.EntityCount() {
        UnusedEntity(rs, source);
      }
    }
    r := Ok(padded);
  }

  // --- The meaning of a scan query -----------------------------------------------------------

  /** The federation's edges under `key`: owner by owner, each owner's in file order. */
  function ScanHits(owners: seq<seq<Resolved>>, key: Key): seq<Hit> {
    if owners == [] then []
    else ScanHits(owners[..|owners| - 1], key) + HitsOf(RecordsAt(owners[|owners| - 1], key))
  }

  function ScanSecond(owners: seq<seq<Resolved>>, relation: nat): int -> seq<Hit> {
    target => if target < 0 then [] else ScanHits(owners, Key(target, relation))
  }

  function ScanPaths(owners: seq<seq<Resolved>>, source: nat, relation1: nat, relation2: nat): seq<Candidate> {
    Paths(ScanHits(owners, Key(source, relation1)), ScanSecond(owners, relation2))
  }
}
