// The end-to-end cleartext evaluator of the relation-paged backend.
module PagedEvaluation {
  import opened Wrappers
  import opened Bits
  import opened PackedEdges
  import opened PageConfig
  import opened OwnerEdges
  import opened PageLayout
  import opened PagedOracle
  import opened OwnerStore
  import opened Ranking
  import opened RankingOracle
  import opened TwoHop
  import opened GraphAnswer
  import opened KeyListing
  import opened RawAnswer

  /** Every owner's edges pass preparation. */
  ghost predicate OwnersAcceptable(c: Config, owners: seq<seq<RawEdge>>) {
    forall o :: 0 <= o < |owners| ==> AllAcceptable(c, owners[o])
  }

  ghost predicate OwnerFits(c: Config, edges: seq<RawEdge>) {
    AllAcceptable(c, edges) && Fitting(c, EntriesOf(ResolveAll(c, edges)))
  }

  ghost predicate OwnersFit(c: Config, owners: seq<seq<RawEdge>>) {
    forall o :: 0 <= o < |owners| ==> OwnerFits(c, owners[o])
  }

  ghost function ResolveOwners(c: Config, owners: seq<seq<RawEdge>>): (r: seq<seq<Resolved>>)
    requires OwnersAcceptable(c, owners)
    ensures |r| == |owners|
    ensures forall o :: 0 <= o < |r| ==> AllAcceptable(c, owners[o]) && r[o] == ResolveAll(c, owners[o])
  {
    seq(|owners|, o requires 0 <= o < |owners| => assert AllAcceptable(c, owners[o]); ResolveAll(c, owners[o]))
  }

  /** Every owner has a lossless layout of its own edges. */
  ghost predicate Federation(c: Config, owners: seq<seq<RawEdge>>, layouts: seq<Layout>) {
    && c.Valid() && |layouts| == |owners| == c.owners
    && OwnersAcceptable(c, owners)
    && forall o :: 0 <= o < |owners| ==> Lossless(c, ResolveOwners(c, owners)[o], layouts[o])
  }

  /** Every owner's store reads its own edges. */
  ghost predicate Stocked(c: Config, owners: seq<seq<RawEdge>>, stores: seq<Store>) {
    && c.Valid() && |stores| == |owners| == c.owners
    && OwnersAcceptable(c, owners)
    && forall o :: 0 <= o < |owners| ==> StoreHolds(c, ResolveOwners(c, owners)[o], stores[o])
  }

  lemma {:induction false} StoreOf(c: Config, owners: seq<seq<RawEdge>>, stores: seq<Store>, o: nat)
    requires Stocked(c, owners, stores) && o < c.owners
    ensures |stores| == |owners| == c.owners && c.Valid() && OwnersAcceptable(c, owners) && AllAcceptable(c, owners[o])
    ensures StoreHolds(c, ResolveAll(c, owners[o]), stores[o])
  {
    hide StoreHolds;
  }

  lemma {:induction false} StockedFacts(c: Config, owners: seq<seq<RawEdge>>, stores: seq<Store>)
    requires Stocked(c, owners, stores)
    ensures |stores| == |owners| == c.owners && c.Valid() && OwnersAcceptable(c, owners)
  {
  }

  // --- Reading a key from every owner -------------------------------------------

  lemma {:induction false} KeyHitsStep(c: Config, owners: seq<seq<RawEdge>>, key: Key, o: nat)
    requires OwnersAcceptable(c, owners) && o < |owners|
    ensures AllAcceptable(c, owners[o])
    ensures KeyHits(ResolveOwners(c, owners)[..o + 1], key)
         == KeyHits(ResolveOwners(c, owners)[..o], key) + HitsOf(SortedAt(ResolveAll(c, owners[o]), key))
  {
    var rs := ResolveOwners(c, owners);
    assert rs[..o + 1][..o] == rs[..o];
  }

  lemma {:induction false} HitsOfConcat(a: seq<Record>, b: seq<Record>)
    ensures HitsOf(a + b) == HitsOf(a) + HitsOf(b)
  {
  }

  /** The owner-major slots of a key, each owner's optionally compacted to its declared frontier. */
  method ReadKey(c: Config, ghost owners: seq<seq<RawEdge>>, stores: seq<Store>, key: Key, compact: bool)
    returns (slots: seq<Record>)
    requires Stocked(c, owners, stores)
    requires key.source < c.EntityCount() && 1 <= key.relation <= c.RelationCount()
    ensures OwnersAcceptable(c, owners) && HitsOf(Matches(slots)) == KeyHits(ResolveOwners(c, owners), key)
    ensures |slots| == Times(c.owners, if compact then c.OwnerFrontier() else c.SlotsPerKey())
  {
    StockedFacts(c, owners, stores);
    ghost var rs := ResolveOwners(c, owners);
    var width := if compact then c.OwnerFrontier() else c.SlotsPerKey();
    slots := [];
    TimesFacts(0, width);
    assert HitsOf(Matches(slots)) == KeyHits(rs[..0], key);
    hide *;
    for o := 0 to c.owners
      invariant |slots| == Times(o, width)
      invariant HitsOf(Matches(slots)) == KeyHits(rs[..o], key)
    {
      slots := ReadNextOwner(c, owners, stores, key, compact, o, width, slots);
    }
    assert rs[..c.owners] == rs;
  }

  method ReadNextOwner(c: Config, ghost owners: seq<seq<RawEdge>>, stores: seq<Store>, key: Key, compact: bool, o: nat, ghost width: nat,
                       before: seq<Record>) returns (slots: seq<Record>)
    requires Stocked(c, owners, stores) && o < c.owners && OwnersAcceptable(c, owners)
    requires key.source < c.EntityCount() && 1 <= key.relation <= c.RelationCount()
    requires width == if compact then c.OwnerFrontier() else c.SlotsPerKey()
    requires o < |owners| && |before| == Times(o, width) && HitsOf(Matches(before)) == KeyHits(ResolveOwners(c, owners)[..o], key)
    ensures |slots| == Times(o + 1, width) && HitsOf(Matches(slots)) == KeyHits(ResolveOwners(c, owners)[..o + 1], key)
  {
    hide *;
    StoreOf(c, owners, stores, o);
    KeyHitsStep(c, owners, key, o);
    var read := ReadOwnerCompacted(c, owners[o], stores[o], key, compact);
    MatchesConcat(before, read);
    HitsOfConcat(Matches(before), Matches(read));
    TimesFacts(o, width);
    slots := before + read;
  }

  method ReadOwnerCompacted(c: Config, ghost edges: seq<RawEdge>, store: Store, key: Key, compact: bool)
    returns (slots: seq<Record>)
    requires c.Valid() && AllAcceptable(c, edges) && StoreHolds(c, ResolveAll(c, edges), store)
    requires key.source < c.EntityCount() && 1 <= key.relation <= c.RelationCount()
    ensures Matches(slots) == SortedAt(ResolveAll(c, edges), key)
    ensures |slots| == if compact then c.OwnerFrontier() else c.SlotsPerKey()
  {
    hide StoreHolds, SortedAt, ResolveAll, AllAcceptable;
    slots := ReadStore(c, edges, store, key);
    if compact {
      CompactKeepsMatches(slots, c.OwnerFrontier());
      slots := CompactTo(slots, c.OwnerFrontier()).value;
    }
  }

  // --- Candidates ------------------------------------------------------------------

  /** All indices assigned so far are below `limit`. */
  ghost predicate Below(candidates: seq<Scored>, limit: int) {
    forall i :: 0 <= i < |candidates| ==> candidates[i].index < limit
  }

  lemma {:induction false} StripAllSnoc(candidates: seq<Scored>, x: Scored)
    ensures StripAll(candidates + [x]) == StripAll(candidates) + [Strip(x)]
  {
  }

  lemma {:induction false} MatchesSnoc(slots: seq<Record>, e: Record)
    ensures Matches(slots + [e]) == Matches(slots) + if e.target != 0 then [e] else []
  {
    assert (slots + [e])[..|slots|] == slots;
  }

  /** What one more second-hop slot adds. */
  lemma {:induction false} SecondStep(first: Hit, seconds: seq<Record>, second: nat)
    requires second < |seconds|
    ensures var e := seconds[second];
      Extend(first, HitsOf(Matches(seconds[..second + 1])))
      == Extend(first, HitsOf(Matches(seconds[..second]))) + if e.target != 0 then [PathOf(first, HitOf(e))] else []
  {
    var e := seconds[second];
    assert seconds[..second + 1] == seconds[..second] + [e];
    MatchesSnoc(seconds[..second], e);
    hide Matches, Extend;
    if e.target != 0 {
      HitsOfConcat(Matches(seconds[..second]), [e]);
      assert HitsOf([e]) == [HitOf(e)];
      ExtendSnoc(first, HitsOf(Matches(seconds[..second])), HitOf(e));
    } else {
      assert Matches(seconds[..second]) + [] == Matches(seconds[..second]);
    }
  }

  /** The candidates that start with one frontier match. */
  method ExtendCandidates(candidates0: seq<Scored>, start: nat, first: Record, seconds: seq<Record>)
    returns (candidates: seq<Scored>)
    requires Increasing(candidates0) && Below(candidates0, start)
    ensures Increasing(candidates) && Below(candidates, start + |seconds|)
    ensures StripAll(candidates) == StripAll(candidates0) + Extend(HitOf(first), HitsOf(Matches(seconds)))
  {
    candidates := candidates0;
    ghost var from := StripAll(candidates0);
    for second := 0 to |seconds|
      invariant Increasing(candidates) && Below(candidates, start + second)
      invariant StripAll(candidates) == from + Extend(HitOf(first), HitsOf(Matches(seconds[..second])))
    {
      SecondStep(HitOf(first), seconds, second);
      hide Matches, Extend, HitsOf, StripAll;
      var e := seconds[second];
      if e.target != 0 {
        var x := Scored(-(first.score + e.score), start + second, first.evidence, e.evidence, e.target);
        StripAllSnoc(candidates, x);
        assert Strip(x) == PathOf(HitOf(first), HitOf(e));
        candidates := candidates + [x];
      }
    }
    assert seconds[..|seconds|] == seconds;
  }

  lemma {:induction false} FrontierStep(frontier: seq<Record>, first: nat, next: int -> seq<Hit>)
    requires first < |frontier|
    ensures var e := frontier[first];
      Paths(HitsOf(Matches(frontier[..first + 1])), next)
      == Paths(HitsOf(Matches(frontier[..first])), next)
         + if e.target != 0 then Extend(HitOf(e), next(e.target)) else []
  {
    var e := frontier[first];
    assert frontier[..first + 1] == frontier[..first] + [e];
    MatchesSnoc(frontier[..first], e);
    hide Matches, Paths;
    if e.target != 0 {
      HitsOfConcat(Matches(frontier[..first]), [e]);
      assert HitsOf([e]) == [HitOf(e)];
      PathsSnoc(HitsOf(Matches(frontier[..first])), HitOf(e), next);
    } else {
      assert Matches(frontier[..first]) + [] == Matches(frontier[..first]);
    }
  }

  /** Follow one frontier slot, if it is occupied. */
  method Follow(c: Config, ghost owners: seq<seq<RawEdge>>, stores: seq<Store>,
                candidates0: seq<Scored>, start: nat, e: Record, relation: nat) returns (candidates: seq<Scored>)
    requires Stocked(c, owners, stores) && 1 <= relation <= c.RelationCount() && e.target < c.EntityCount()
    requires Increasing(candidates0) && Below(candidates0, start)
    ensures Increasing(candidates) && Below(candidates, start + Times(c.owners, c.SlotsPerKey())) && OwnersAcceptable(c, owners)
    ensures StripAll(candidates) == StripAll(candidates0)
         + if e.target != 0 then Extend(HitOf(e), SecondHop(ResolveOwners(c, owners), relation)(e.target)) else []
  {
    StockedFacts(c, owners, stores);
    if e.target == 0 {
      return candidates0;
    }
    var seconds := ReadKey(c, owners, stores, Key(e.target, relation), false);
    assert SecondHop(ResolveOwners(c, owners), relation)(e.target)
        == KeyHits(ResolveOwners(c, owners), Key(e.target, relation));
    candidates := ExtendCandidates(candidates0, start, e, seconds);
  }

  lemma {:induction false} NoCandidates(next: int -> seq<Hit>, width: nat)
    ensures Increasing([]) && Below([], Times(0, width)) && StripAll([]) == Paths(HitsOf(Matches([])), next)
  {
  }

  /** Candidates of a whole frontier; index `first * second_width + second` is the public slot order. */
  method FormScored(c: Config, ghost owners: seq<seq<RawEdge>>, stores: seq<Store>,
                    frontier: seq<Record>, relation: nat) returns (candidates: seq<Scored>)
    requires Stocked(c, owners, stores) && 1 <= relation <= c.RelationCount()
    requires forall i :: 0 <= i < |frontier| ==> frontier[i].target < c.EntityCount()
    ensures Increasing(candidates) && OwnersAcceptable(c, owners)
    ensures StripAll(candidates)
         == Paths(HitsOf(Matches(frontier)), SecondHop(ResolveOwners(c, owners), relation))
  {
    StockedFacts(c, owners, stores);
    ghost var next := SecondHop(ResolveOwners(c, owners), relation);
    var width := Times(c.owners, c.SlotsPerKey());
    candidates := [];
    NoCandidates(next, width);
    hide *;
    assert frontier[..0] == [];
    for first := 0 to |frontier|
      invariant Increasing(candidates) && Below(candidates, Times(first, width))
      invariant StripAll(candidates) == Paths(HitsOf(Matches(frontier[..first])), next)
    {
      TimesFacts(first, width);
      FrontierStep(frontier, first, next);
      candidates := Follow(c, owners, stores, candidates, Times(first, width), frontier[first], relation);
    }
    assert frontier[..|frontier|] == frontier;
  }

  // --- The evaluator -----------------------------------------------------------------

  method BuildAll(c: Config, owners: seq<seq<RawEdge>>) returns (r: Result<seq<Layout>>)
    requires c.Valid() && |owners| == c.owners
    ensures r.Ok? <==> OwnersFit(c, owners)
    ensures r.Ok? ==> Federation(c, owners, r.value)
  {
    var layouts: seq<Layout> := [];
    for o := 0 to |owners|
      invariant |layouts| == o
      invariant forall i :: 0 <= i < o ==>
        OwnerFits(c, owners[i]) && Lossless(c, ResolveAll(c, owners[i]), layouts[i])
    {
      hide Lossless;
      var built := BuildOwnerPageLayout(c, owners[o]);
      assert built.Ok? <==> OwnerFits(c, owners[o]);
      if built.Err? {
        return Err(built.error);
      }
      layouts := layouts + [built.value];
    }
    r := Ok(layouts);
  }

  /** No key has more first-hop matches than the declared federation-wide frontier. */
  ghost predicate FrontierHolds(c: Config, owners: seq<seq<RawEdge>>, key: Key)
    requires OwnersAcceptable(c, owners)
  {
    c.globalFrontier.Some? ==> |KeyHits(ResolveOwners(c, owners), key)| <= c.globalFrontier.value
  }

  /** First hop: read, compact per owner, and compact across owners when a global frontier is declared. */
  method FirstHop(c: Config, ghost owners: seq<seq<RawEdge>>, stores: seq<Store>, key: Key)
    returns (r: Result<seq<Record>>)
    requires Stocked(c, owners, stores)
    requires key.source < c.EntityCount() && 1 <= key.relation <= c.RelationCount()
    ensures OwnersAcceptable(c, owners) && (r.Ok? <==> FrontierHolds(c, owners, key))
    ensures r.Ok? ==> HitsOf(Matches(r.value)) == KeyHits(ResolveOwners(c, owners), key)
  {
    var frontier := ReadKey(c, owners, stores, key, true);
    assert |Matches(frontier)| == |KeyHits(ResolveOwners(c, owners), key)|;
    match c.globalFrontier
    case None => r := Ok(frontier);
    case Some(width) =>
      r := CompactTo(frontier, width);
      if r.Ok? {
        CompactKeepsMatches(frontier, width);
      }
  }

  ghost predicate RealTargets(c: Config, hits: seq<Hit>) {
    forall i :: 0 <= i < |hits| ==> 1 <= hits[i].target < c.EntityCount()
  }

  lemma {:induction false} OwnerTargets(c: Config, edges: seq<RawEdge>, key: Key)
    requires c.Valid() && AllAcceptable(c, edges)
    ensures RealTargets(c, HitsOf(SortedAt(ResolveAll(c, edges), key)))
  {
    var records := SortedAt(ResolveAll(c, edges), key);
    forall i | 0 <= i < |records|
      ensures 1 <= HitsOf(records)[i].target < c.EntityCount()
    {
      StoredRecordFacts(c, edges, key, records[i]);
    }
  }

  /** A matched target is a real entity. */
  lemma {:induction false} HitTargets(c: Config, owners: seq<seq<RawEdge>>, key: Key, n: nat)
    requires c.Valid() && OwnersAcceptable(c, owners) && n <= |owners|
    ensures RealTargets(c, KeyHits(ResolveOwners(c, owners)[..n], key))
  {
    if n == 0 {
      NoHits(c, owners, key);
    } else {
      hide *;
      KeyHitsStep(c, owners, key, n - 1);
      HitTargets(c, owners, key, n - 1);
      OwnerTargets(c, owners[n - 1], key);
      RealJoin(c, KeyHits(ResolveOwners(c, owners)[..n - 1], key), HitsOf(SortedAt(ResolveAll(c, owners[n - 1]), key)));
    }
  }

  lemma {:induction false} NoHits(c: Config, owners: seq<seq<RawEdge>>, key: Key)
    requires OwnersAcceptable(c, owners)
    ensures RealTargets(c, KeyHits(ResolveOwners(c, owners)[..0], key))
  {
  }

  lemma {:induction false} RealJoin(c: Config, a: seq<Hit>, b: seq<Hit>)
    requires RealTargets(c, a) && RealTargets(c, b)
    ensures RealTargets(c, a + b)
  {
  }

  lemma {:induction false} MatchTargets(slots: seq<Record>, e: Record)
    requires e in slots && e.target != 0
    ensures e in Matches(slots)
  {
    var n := |slots| - 1;
    if e in slots[..n] {
      MatchTargets(slots[..n], e);
    }
  }

  /** All slots of a first-hop frontier address real entities or are empty. */
  lemma {:induction false} FrontierTargets(c: Config, owners: seq<seq<RawEdge>>, key: Key, frontier: seq<Record>)
    requires c.Valid() && OwnersAcceptable(c, owners)
    requires HitsOf(Matches(frontier)) == KeyHits(ResolveOwners(c, owners), key)
    ensures forall i :: 0 <= i < |frontier| ==> frontier[i].target < c.EntityCount()
  {
    forall i | 0 <= i < |frontier|
      ensures frontier[i].target < c.EntityCount()
    {
      if frontier[i].target != 0 {
        MatchTargets(frontier, frontier[i]);
        var j :| 0 <= j < |Matches(frontier)| && Matches(frontier)[j] == frontier[i];
        assert HitsOf(Matches(frontier))[j] == HitOf(frontier[i]);
        assert ResolveOwners(c, owners)[..|owners|] == ResolveOwners(c, owners);
        HitTargets(c, owners, key, |owners|);
      }
    }
  }

  /** The shared body of both evaluators, once every owner has a store. */
  method AnswerQuery(c: Config, ghost owners: seq<seq<RawEdge>>, stores: seq<Store>, source: nat, relation1: nat, relation2: nat)
    returns (r: Result<seq<Row>>)
    requires Stocked(c, owners, stores)
    requires source < c.EntityCount() && 1 <= relation1 <= c.RelationCount() && 1 <= relation2 <= c.RelationCount()
    ensures OwnersAcceptable(c, owners) && (r.Ok? <==> FrontierHolds(c, owners, Key(source, relation1)))
    ensures r.Ok? ==> r.value == QueryRows(ResolveOwners(c, owners), source, relation1, relation2, c.topK, c.dedup)
  {
    StockedFacts(c, owners, stores);
    hide Stocked, FrontierHolds, ResolveOwners, OwnersAcceptable;
    var frontier := FirstHop(c, owners, stores, Key(source, relation1));
    if frontier.Err? {
      return Err(frontier.error);
    }
    FrontierTargets(c, owners, Key(source, relation1), frontier.value);
    var candidates := FormScored(c, owners, stores, frontier.value, relation2);
    var rows := RankBySorting(candidates, c.topK, c.dedup);
    r := Ok(rows);
  }

  /** The oracle's answer: it exists exactly when `extra` and the data and query checks hold, and then it is the query's. */
  ghost predicate Answers(c: Config, owners: seq<seq<RawEdge>>, q: Query, extra: bool, r: Result<seq<Row>>) {
    && (r.Ok? <==> extra && |owners| == c.owners && QueryKnown(c, q) && OwnersFit(c, owners)
                   && OwnersAcceptable(c, owners)
                   && FrontierHolds(c, owners, Key(c.entities[q.source], c.relations[q.relation1])))
    && (r.Ok? ==>
          && r.value == QueryRows(ResolveOwners(c, owners), c.entities[q.source], c.relations[q.relation1],
                                  c.relations[q.relation2], c.topK, c.dedup)
          && RawRows(c, owners, q, true, r.value))
  }

  /** The specified rows, on the owners' raw edges. */
  lemma {:induction false} AnswerIsRaw(c: Config, owners: seq<seq<RawEdge>>, q: Query)
    requires c.Valid() && QueryKnown(c, q)
    ensures OwnersAcceptable(c, owners) ==>
      RawRows(c, owners, q, true, QueryRows(ResolveOwners(c, owners), c.entities[q.source], c.relations[q.relation1],
                                            c.relations[q.relation2], c.topK, c.dedup))
  {
    if OwnersAcceptable(c, owners) {
      forall o | 0 <= o < |owners|
        ensures Usable(c, owners[o]) && AllAcceptable(c, owners[o])
      {
        assert AllAcceptable(c, owners[o]);
      }
      hide AllAcceptable, Usable, RawRows, QueryRows;
      QueryRowsAreRaw(c, owners, ResolveOwners(c, owners), q);
    }
  }

  function ScannedStores(layouts: seq<Layout>): (r: seq<Store>)
    ensures |r| == |layouts| && forall o :: 0 <= o < |r| ==> r[o] == Scanned(layouts[o])
  {
    seq(|layouts|, o requires 0 <= o < |layouts| => Scanned(layouts[o]))
  }

  lemma {:induction false} ScannedStocked(c: Config, owners: seq<seq<RawEdge>>, layouts: seq<Layout>)
    requires Federation(c, owners, layouts)
    ensures Stocked(c, owners, ScannedStores(layouts))
  {
    hide Lossless;
  }

  lemma {:induction false} KnownInRange(c: Config, q: Query)
    requires c.Valid() && QueryKnown(c, q)
    ensures 1 <= c.entities[q.source] < c.EntityCount()
    ensures 1 <= c.relations[q.relation1] <= c.RelationCount() && 1 <= c.relations[q.relation2] <= c.RelationCount()
  {
  }

  /**
   * The cleartext oracle.  It answers exactly when the owners' data fits the
   * declared bounds and the query is known, and then returns the query's rows.
   */
  method EvaluatePaged(c: Config, owners: seq<seq<RawEdge>>, q: Query) returns (r: Result<seq<Row>>)
    requires c.Valid()
    ensures Answers(c, owners, q, true, r)
  {
    if |owners| != c.owners {
      return Err(Malformed);
    }
    if !QueryKnown(c, q) {
      return Err(UnknownItem);
    }
    var layouts := BuildAll(c, owners);
    if layouts.Err? {
      return Err(layouts.error);
    }
    ScannedStocked(c, owners, layouts.value);
    KnownInRange(c, q);
    AnswerIsRaw(c, owners, q);
    hide RawRows;
    hide Stocked, OwnersFit, FrontierHolds, ResolveOwners, OwnersAcceptable;
    r := AnswerQuery(c, owners, ScannedStores(layouts.value), c.entities[q.source], c.relations[q.relation1], c.relations[q.relation2]);
  }

  // --- The dual-ORAM evaluator ---------------------------------------------------------

  /** Every owner's stacks can be placed. */
  ghost predicate AllStacksPlace(c: Config, options: OramOptions) {
    c.pagesPerKey >= 1 && forall o :: 0 <= o < c.owners ==> StacksPlace(c, options, o)
  }

  /** An owner's data fits, and its two stacks hold it. */
  ghost predicate OwnerReady(c: Config, edges: seq<RawEdge>, options: OramOptions, o: nat, store: Store) {
    && c.pagesPerKey >= 1 && OwnerFits(c, edges) && AllAcceptable(c, edges)
    && StacksPlace(c, options, o) && StoreHolds(c, ResolveAll(c, edges), store) && OramsWith(store, options.chi)
    && StoreLeaves(store, options, o)
  }

  /** One owner's layout and its two stacks. */
  method BuildOwnerOrams(c: Config, edges: seq<RawEdge>, options: OramOptions, o: nat) returns (r: Result<Store>)
    requires c.Valid() && c.addressing.Dense?
    ensures r.Ok? <==> OwnerFits(c, edges) && StacksPlace(c, options, o)
    ensures r.Ok? ==> OwnerReady(c, edges, options, o, r.value)
  {
    var built := BuildOwnerPageLayout(c, edges);
    if built.Err? {
      return Err(built.error);
    }
    hide StoreHolds, StacksPlace, Lossless, Fitting, StoreLeaves;
    r := BuildOrams(c, ResolveAll(c, edges), built.value, options, o);
  }

  method BuildAllOrams(c: Config, owners: seq<seq<RawEdge>>, options: OramOptions) returns (r: Result<seq<Store>>)
    requires c.Valid() && c.addressing.Dense? && |owners| == c.owners
    ensures r.Ok? <==> OwnersFit(c, owners) && AllStacksPlace(c, options)
    ensures r.Ok? ==> Stocked(c, owners, r.value) && forall o :: 0 <= o < |r.value| ==> OramsWith(r.value[o], options.chi)
    ensures r.Ok? ==> forall o :: 0 <= o < |r.value| ==> StoreLeaves(r.value[o], options, o)
  {
    var stores: seq<Store> := [];
    hide StoreHolds, StacksPlace, OwnerFits, OramsWith, OwnerReady, StoreLeaves;
    for o := 0 to |owners|
      invariant |stores| == o
      invariant forall i :: 0 <= i < o ==> OwnerReady(c, owners[i], options, i, stores[i])
    {
      var store := BuildOwnerOrams(c, owners[o], options, o);
      if store.Err? {
        return Err(store.error);
      }
      stores := stores + [store.value];
    }
    AllReady(c, owners, options, stores);
    r := Ok(stores);
  }

  lemma {:induction false} AllReady(c: Config, owners: seq<seq<RawEdge>>, options: OramOptions, stores: seq<Store>)
    requires c.Valid() && |owners| == c.owners == |stores|
    requires forall i :: 0 <= i < |owners| ==> OwnerReady(c, owners[i], options, i, stores[i])
    ensures OwnersFit(c, owners) && AllStacksPlace(c, options) && Stocked(c, owners, stores)
    ensures forall o :: 0 <= o < |stores| ==> OramsWith(stores[o], options.chi) && StoreLeaves(stores[o], options, o)
  {
    hide StoreHolds, StacksPlace, OramsWith, StoreLeaves;
    forall o | 0 <= o < |owners|
      ensures c.pagesPerKey >= 1 && OwnerFits(c, owners[o]) && AllAcceptable(c, owners[o]) && StacksPlace(c, options, o)
      ensures StoreHolds(c, ResolveAll(c, owners[o]), stores[o]) && OramsWith(stores[o], options.chi) && StoreLeaves(stores[o], options, o)
    {
      assert OwnerReady(c, owners[o], options, o, stores[o]);
    }
  }

  /**
   * The dual-ORAM evaluator: beyond the stacks' placement -- which depends on public sizes
   * and random draws only -- it answers when the oracle does, and with the same rows.
   */
  method EvaluateOrams(c: Config, owners: seq<seq<RawEdge>>, q: Query, options: OramOptions) returns (r: Result<seq<Row>>)
    requires c.Valid()
    ensures Answers(c, owners, q, c.addressing.Dense? && AllStacksPlace(c, options), r)
  {
    if !c.addressing.Dense? || c.DirectoryRows() < 2 {
      TooFewRows(c, options);
      return Err(Malformed);
    }
    if |owners| != c.owners {
      return Err(Malformed);
    }
    if !QueryKnown(c, q) {
      return Err(UnknownItem);
    }
    var stores := BuildAllOrams(c, owners, options);
    if stores.Err? {
      return Err(stores.error);
    }
    KnownInRange(c, q);
    AnswerIsRaw(c, owners, q);
    hide RawRows;
    hide Stocked, OwnersFit, FrontierHolds, ResolveOwners, OwnersAcceptable, AllStacksPlace;
    r := AnswerQuery(c, owners, stores.value, c.entities[q.source], c.relations[q.relation1], c.relations[q.relation2]);
  }

  lemma {:induction false} TooFewRows(c: Config, options: OramOptions)
    requires c.Valid()
    ensures c.DirectoryRows() < 2 ==> !AllStacksPlace(c, options)
  {
    assert 0 < c.owners;
    if AllStacksPlace(c, options) {
      assert StacksPlace(c, options, 0);
    }
  }

  /** Corollary of the two contracts: the same rows whenever both answer, and the same acceptance once the stacks place. */
  lemma {:induction false} BackendsAgree(c: Config, owners: seq<seq<RawEdge>>, q: Query, extra: bool, paged: Result<seq<Row>>, orams: Result<seq<Row>>)
    requires Answers(c, owners, q, true, paged) && Answers(c, owners, q, extra, orams)
    ensures orams.Ok? <==> paged.Ok? && extra
    ensures orams.Ok? ==> orams.value == paged.value
  {
  }

  lemma {:induction false} FederationFacts(c: Config, owners: seq<seq<RawEdge>>, layouts: seq<Layout>)
    requires Federation(c, owners, layouts)
    ensures c.Valid() && OwnersAcceptable(c, owners)
  {
  }
}
