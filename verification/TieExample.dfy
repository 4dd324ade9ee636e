// A federation both layouts accept and rank differently: two tied edges listed
// against their stored order.
module TieExample {
  import opened Wrappers
  import opened Bits
  import opened PackedEdges
  import opened PageConfig
  import opened Sorting
  import opened OwnerEdges
  import opened Ranking
  import opened TwoHop
  import opened GraphAnswer
  import opened PageLayout
  import opened PagedEvaluation
  import opened ScanBuckets
  import opened ScanOracle

  // --- The input ------------------------------------------------------------------------

  const ENTITIES: map<string, nat> := map["a" := 1, "b" := 2, "c" := 3]
  const RELATIONS: map<string, nat> := map["r" := 1]
  const CONFIG := Config(1, ENTITIES, RELATIONS, 1, false, 4, 4, 64, 2, 1, 4, None, None, Dense(None))
  const BOUNDS := Bounds(2, 2)
  const QUERY := Query("a", "r", "r")
  const EDGES := [RawEdge("a", "r", "b", 9, 5), RawEdge("a", "r", "b", 7, 5), RawEdge("b", "r", "c", 1, 1)]

  const EARLIER := Record(2, 1, 9, 5)
  const LATER := Record(2, 1, 7, 5)
  const ONWARD := Record(3, 1, 1, 1)

  lemma {:induction false} NamesDiffer()
    ensures "a" != "b" && "a" != "c" && "b" != "c"
  {
    assert "a"[0] != "b"[0] && "a"[0] != "c"[0] && "b"[0] != "c"[0];
  }

  lemma {:induction false} Sizes()
    ensures CONFIG.EntityCount() == 4 && CONFIG.RelationCount() == 1
  {
    NamesDiffer();
    assert ENTITIES.Keys == {"a", "b", "c"} && |{"a", "b", "c"}| == 3;
    assert RELATIONS.Keys == {"r"} && |{"r"}| == 1;
  }

  lemma {:induction false} ConfigValid()
    ensures CONFIG.Valid() && BOUNDS.Valid() && QueryKnown(CONFIG, QUERY)
  {
    NamesDiffer();
    Sizes();
    TimesFacts(1, 2);
  }

  lemma {:induction false} Powers()
    ensures Pow2(1) == 2 && Pow2(2) == 4 && Pow2(4) == 16
    ensures CONFIG.EdgeWidths() == Widths(2, 1, 4, 4, 64)
  {
    Sizes();
    assert Pow2(3) == 8;
    assert BitLength(1) == 1 && BitLength(3) == 2;
    assert IndexBits(4) == 2;
  }

  /** Every edge is well formed for both layouts. */
  lemma {:induction false} EdgesResolve()
    ensures AllRawOk(CONFIG, EDGES) && AllAcceptable(CONFIG, EDGES)
    ensures ResolveAll(CONFIG, EDGES) == ThreeEdges(EARLIER, LATER, ONWARD)
  {
    NamesDiffer();
    Powers();
    hide Pow2;
    ConfigValid();
    hide Config.Valid;
    forall i | 0 <= i < 3
      ensures Acceptable(CONFIG, EDGES[i]) && RawOk(CONFIG, EDGES[i])
    {
      assert EDGES[i] == EDGES[0] || EDGES[i] == EDGES[1] || EDGES[i] == EDGES[2];
      RawOkIsAcceptable(CONFIG, EDGES[i]);
      hide Acceptable;
    }
  }

  /** The scan layout's bounds hold. */
  lemma {:induction false} ScanAccepts()
    ensures ScanFits(CONFIG, BOUNDS, [EDGES])
  {
    EdgesResolve();
    var rs := ThreeEdges(EARLIER, LATER, ONWARD);
    forall key: Key
      ensures |RecordsAt(rs, key)| <= 2
    {
      RecordsOfThree(Key(1, 1), Key(1, 1), Key(2, 1), EARLIER, LATER, ONWARD, key);
    }
    forall source: nat
      ensures |BucketAt(rs, source)| <= 2
    {
      BucketOfThree(Key(1, 1), Key(1, 1), Key(2, 1), EARLIER, LATER, ONWARD, source);
    }
    hide AllRawOk, RecordsAt, BucketAt;
  }

  /** The paged layout's bounds hold: two keys of one page each. */
  lemma {:induction false} PagedAccepts()
    ensures OwnersFit(CONFIG, [EDGES])
  {
    EdgesResolve();
    Layout();
    hide AllAcceptable, EntriesOf;
    assert OwnerFits(CONFIG, EDGES);
  }

  lemma {:induction false} Layout()
    ensures Fitting(CONFIG, EntriesOf(ThreeEdges(EARLIER, LATER, ONWARD)))
  {
    var rs := ThreeEdges(EARLIER, LATER, ONWARD);
    KeysOfThree(EARLIER, LATER, ONWARD);
    HitsOfThree(EARLIER, LATER, ONWARD);
    SortPair(EARLIER, LATER);
    SortOne(ONWARD);
    var entries := [Entry(Key(1, 1), [LATER, EARLIER]), Entry(Key(2, 1), [ONWARD])];
    assert EntriesOf(rs) == entries;
    hide *;
    EntriesFit(entries);
  }

  lemma {:induction false} EntriesFit(entries: seq<Entry>)
    requires |entries| == 2 && |entries[0].records| == 2 && |entries[1].records| == 1
    ensures Fitting(CONFIG, entries)
  {
    assert CONFIG.OwnerFrontier() == Times(1, 2) == 2 by {
      TimesFacts(0, 2);
      TimesFacts(1, 2);
    }
    PagesNeededIs(2);
    PagesNeededIs(1);
    assert PagesBefore(entries, 1, 2) == PagesBefore(entries, 0, 2) + 1;
    assert PagesBefore(entries, 2, 2) == PagesBefore(entries, 1, 2) + 1;
  }

  lemma {:induction false} PagesNeededIs(n: nat)
    ensures 1 <= n <= 2 ==> PagesNeeded(n, 2) == 1
  {
  }

  lemma {:induction false} KeysOfThree(e: Record, f: Record, g: Record)
    ensures SortedKeys(ThreeEdges(e, f, g)) == [Key(1, 1), Key(2, 1)]
  {
    var rs := ThreeEdges(e, f, g);
    assert rs[..2] == [Resolved(Key(1, 1), e), Resolved(Key(1, 1), f)] && rs[..2][..1] == [Resolved(Key(1, 1), e)] && rs[..1][..0] == [];
    assert KeysOf([Resolved(Key(1, 1), e)]) == [Key(1, 1)] by {
      assert [Resolved(Key(1, 1), e)][..0] == [];
    }
    assert KeysOf(rs[..2]) == [Key(1, 1)];
    assert KeysOf(rs) == [Key(1, 1), Key(2, 1)];
    SortKeyPair();
  }

  lemma {:induction false} SortKeyPair()
    ensures SortBy([Key(1, 1), Key(2, 1)], KeyAtMost) == [Key(1, 1), Key(2, 1)]
  {
    var keys := [Key(1, 1), Key(2, 1)];
    assert keys[..1] == [Key(1, 1)] && keys[..1][..0] == [];
    assert SortBy([Key(1, 1)], KeyAtMost) == [Key(1, 1)];
    assert InsertBy(Key(2, 1), [Key(1, 1)], KeyAtMost) == [Key(1, 1), Key(2, 1)];
  }

  lemma {:induction false} BucketOfThree(k1: Key, k2: Key, k3: Key, e: Record, f: Record, g: Record, source: nat)
    ensures BucketAt([Resolved(k1, e), Resolved(k2, f), Resolved(k3, g)], source)
         == (if k1.source == source then [e] else []) + (if k2.source == source then [f] else []) + (if k3.source == source then [g] else [])
  {
    var rs := [Resolved(k1, e), Resolved(k2, f), Resolved(k3, g)];
    assert rs[..2] == [Resolved(k1, e), Resolved(k2, f)] && rs[..2][..1] == [Resolved(k1, e)] && rs[..1][..0] == [];
    assert BucketAt([Resolved(k1, e)], source) == if k1.source == source then [e] else [] by {
      assert [Resolved(k1, e)][..0] == [];
    }
    assert BucketAt(rs[..2], source) == BucketAt([Resolved(k1, e)], source) + if k2.source == source then [f] else [];
  }

  // --- The two rankings ------------------------------------------------------------------------

  lemma {:induction false} RowsDiffer(a: Candidate, b: Candidate)
    ensures [RowOf(a)] == [RowOf(b)] ==> a.left == b.left
  {
    assert [RowOf(a)][0] == RowOf(a) && [RowOf(b)][0] == RowOf(b);
  }

  /** The edges `e` and `f` from entity 1 to 2, then `g` from 2 to 3, all of relation 1. */
  function ThreeEdges(e: Record, f: Record, g: Record): seq<Resolved> {
    [Resolved(Key(1, 1), e), Resolved(Key(1, 1), f), Resolved(Key(2, 1), g)]
  }

  lemma {:induction false} HitsOfThree(e: Record, f: Record, g: Record)
    ensures RecordsAt(ThreeEdges(e, f, g), Key(1, 1)) == [e, f] && RecordsAt(ThreeEdges(e, f, g), Key(2, 1)) == [g]
    ensures HitsOf([e, f]) == [HitOf(e), HitOf(f)] && HitsOf([f, e]) == [HitOf(f), HitOf(e)] && HitsOf([g]) == [HitOf(g)]
  {
    RecordsOfThree(Key(1, 1), Key(1, 1), Key(2, 1), e, f, g, Key(1, 1));
    RecordsOfThree(Key(1, 1), Key(1, 1), Key(2, 1), e, f, g, Key(2, 1));
    assert [e] + [f] == [e, f];
    hide RecordsAt;
  }

  lemma {:induction false} TwoHopOfScan(rs: seq<seq<Resolved>>)
    ensures ScanPaths(rs, 1, 1, 1) == Paths(ScanHits(rs, Key(1, 1)), ScanSecond(rs, 1))
    ensures QueryPaths(rs, 1, 1, 1) == Paths(KeyHits(rs, Key(1, 1)), SecondHop(rs, 1))
    ensures ScanSecond(rs, 1)(2) == ScanHits(rs, Key(2, 1)) && SecondHop(rs, 1)(2) == KeyHits(rs, Key(2, 1))
  {
    hide ScanHits, KeyHits, Paths;
  }

  lemma {:induction false} HitParts(e: Record)
    ensures HitOf(e).target == e.target && HitOf(e).score == e.score
  {
  }

  lemma {:induction false} FileOrder(e: Record, f: Record, g: Record)
    requires e.target == 2 && f.target == 2 && e.score == f.score
    ensures TopK(ScanPaths([ThreeEdges(e, f, g)], 1, 1, 1), 1, false) == [RowOf(PathOf(HitOf(e), HitOf(g)))]
  {
    hide *;
    var own := ThreeEdges(e, f, g);
    OneOwner(own, Key(1, 1));
    OneOwner(own, Key(2, 1));
    HitsOfThree(e, f, g);
    TwoHopOfScan([own]);
    HitParts(e);
    HitParts(f);
    TwoPaths(HitOf(e), HitOf(f), HitOf(g), ScanSecond([own], 1));
  }

  lemma {:induction false} StoredOrder(e: Record, f: Record, g: Record)
    requires e.target == 2 && f.target == 2 && e.score == f.score && !RecordAtMost(e, f) && RecordAtMost(f, e)
    ensures TopK(QueryPaths([ThreeEdges(e, f, g)], 1, 1, 1), 1, false) == [RowOf(PathOf(HitOf(f), HitOf(g)))]
  {
    SortPair(e, f);
    SortOne(g);
    var own := ThreeEdges(e, f, g);
    HitsOfThree(e, f, g);
    assert SortedAt(own, Key(1, 1)) == [f, e] && SortedAt(own, Key(2, 1)) == [g];
    hide *;
    OneOwner(own, Key(1, 1));
    OneOwner(own, Key(2, 1));
    TwoHopOfScan([own]);
    HitParts(e);
    HitParts(f);
    TwoPaths(HitOf(f), HitOf(e), HitOf(g), SecondHop([own], 1));
  }

  lemma {:induction false} OneOwner(own: seq<Resolved>, key: Key)
    ensures ScanHits([own], key) == HitsOf(RecordsAt(own, key)) && KeyHits([own], key) == HitsOf(SortedAt(own, key))
  {
    assert [own][..0] == [];
    assert ScanHits([own], key) == [] + HitsOf(RecordsAt(own, key));
    assert KeyHits([own], key) == [] + HitsOf(SortedAt(own, key));
  }

  /** Two tied first hops to the same entity: the one listed first is returned. */
  lemma {:induction false} TwoPaths(a: Hit, b: Hit, last: Hit, second: int -> seq<Hit>)
    requires a.score == b.score && a.target == b.target
    ensures second(a.target) == [last] ==> TopK(Paths([a, b], second), 1, false) == [RowOf(PathOf(a, last))]
  {
    if second(a.target) == [last] {
      PathsOfTwo(a, b, second);
      assert Extend(a, [last]) == [PathOf(a, last)] && Extend(b, [last]) == [PathOf(b, last)];
      assert [PathOf(a, last)] + [PathOf(b, last)] == [PathOf(a, last), PathOf(b, last)];
      FirstOfTwo(PathOf(a, last), PathOf(b, last));
    }
  }

  lemma {:induction false} RecordsOfThree(k1: Key, k2: Key, k3: Key, e: Record, f: Record, g: Record, key: Key)
    ensures RecordsAt([Resolved(k1, e), Resolved(k2, f), Resolved(k3, g)], key)
         == (if k1 == key then [e] else []) + (if k2 == key then [f] else []) + (if k3 == key then [g] else [])
  {
    var rs := [Resolved(k1, e), Resolved(k2, f), Resolved(k3, g)];
    assert rs[..2] == [Resolved(k1, e), Resolved(k2, f)] && rs[..2][..1] == [Resolved(k1, e)] && rs[..1][..0] == [];
    assert RecordsAt([Resolved(k1, e)], key) == if k1 == key then [e] else [] by {
      assert [Resolved(k1, e)][..0] == [];
    }
    assert RecordsAt(rs[..2], key) == RecordsAt([Resolved(k1, e)], key) + if k2 == key then [f] else [];
  }

  lemma {:induction false} SortPair(e: Record, f: Record)
    requires !RecordAtMost(e, f) && RecordAtMost(f, e)
    ensures SortBy([e, f], RecordAtMost) == [f, e]
  {
    assert [e, f][..1] == [e];
    SortOne(e);
    assert InsertBy(f, [e], RecordAtMost) == [f] + [e];
  }

  lemma {:induction false} SortOne(e: Record)
    ensures SortBy([e], RecordAtMost) == [e]
  {
    assert [e][..0] == [];
  }

  lemma {:induction false} PathsOfTwo(a: Hit, b: Hit, second: int -> seq<Hit>)
    ensures Paths([a, b], second) == Extend(a, second(a.target)) + Extend(b, second(b.target))
  {
    assert [a, b][..1] == [a] && [a][..0] == [];
    assert Paths([a], second) == Paths([], second) + Extend(a, second(a.target));
  }

  lemma {:induction false} FirstOfTwo(a: Candidate, b: Candidate)
    requires a.score == b.score
    ensures TopK([a, b], 1, false) == [RowOf(a)]
  {
    assert [a, b][..1] == [a];
    assert FirstBest([a]) == 0 && FirstBest([a, b]) == 0;
    GreedyStep([a, b], 1, false);
    assert Greedy([a, b], 1, false) == [a];
  }

  // --- The difference ---------------------------------------------------------------------------

  /** Both oracles answer. */
  lemma {:induction false} BothAnswer(scan: Result<seq<Row>>, paged: Result<seq<Row>>)
    ensures ScanAnswers(CONFIG, BOUNDS, [EDGES], QUERY, scan) ==>
      scan.Ok? && scan.value == TopK(ScanPaths([ThreeEdges(EARLIER, LATER, ONWARD)], 1, 1, 1), 1, false)
    ensures Answers(CONFIG, [EDGES], QUERY, true, paged) ==>
      paged.Ok? && paged.value == TopK(QueryPaths([ThreeEdges(EARLIER, LATER, ONWARD)], 1, 1, 1), 1, false)
  {
    NamesDiffer();
    EdgesResolve();
    ConfigValid();
    ScanAccepts();
    PagedAccepts();
    hide AllRawOk, AllAcceptable, TopK, ScanPaths, QueryPaths, ScanFits, OwnersFit;
    Owners();
  }

  lemma {:induction false} Owners()
    requires AllRawOk(CONFIG, EDGES) && AllAcceptable(CONFIG, EDGES)
    requires ResolveAll(CONFIG, EDGES) == ThreeEdges(EARLIER, LATER, ONWARD)
    ensures OwnersAcceptable(CONFIG, [EDGES]) && ResolveOwners(CONFIG, [EDGES]) == [ThreeEdges(EARLIER, LATER, ONWARD)]
    ensures (forall o :: 0 <= o < 1 ==> AllRawOk(CONFIG, [EDGES][o])) && ScanResolve(CONFIG, [EDGES]) == [ThreeEdges(EARLIER, LATER, ONWARD)]
  {
    hide AllRawOk, AllAcceptable;
  }

  /** The two oracles' answers to this query. */
  ghost predicate AnsweredBy(scan: Result<seq<Row>>, paged: Result<seq<Row>>) {
    ScanAnswers(CONFIG, BOUNDS, [EDGES], QUERY, scan) && Answers(CONFIG, [EDGES], QUERY, true, paged)
  }

  /** Both layouts accept this federation and this query, and whatever they answer, they answer differently. */
  lemma {:induction false} TiesDiffer()
    ensures CONFIG.Valid() && BOUNDS.Valid() && QueryKnown(CONFIG, QUERY) && ScanFits(CONFIG, BOUNDS, [EDGES]) && OwnersFit(CONFIG, [EDGES])
    ensures forall scan, paged :: AnsweredBy(scan, paged) ==> scan.Ok? && paged.Ok? && scan.value != paged.value
  {
    ConfigValid();
    ScanAccepts();
    PagedAccepts();
    forall scan, paged | AnsweredBy(scan, paged)
      ensures scan.Ok? && paged.Ok? && scan.value != paged.value
    {
      BothAnswer(scan, paged);
      Stored();
      hide *;
      FileOrder(EARLIER, LATER, ONWARD);
      StoredOrder(EARLIER, LATER, ONWARD);
      RowsDiffer(PathOf(HitOf(EARLIER), HitOf(ONWARD)), PathOf(HitOf(LATER), HitOf(ONWARD)));
    }
  }

  /** The two tied edges are listed against their stored order, and show in different columns. */
  lemma {:induction false} Stored()
    ensures EARLIER.target == 2 && LATER.target == 2 && EARLIER.score == LATER.score
    ensures !RecordAtMost(EARLIER, LATER) && RecordAtMost(LATER, EARLIER)
    ensures PathOf(HitOf(EARLIER), HitOf(ONWARD)).left != PathOf(HitOf(LATER), HitOf(ONWARD)).left
  {
  }
}
