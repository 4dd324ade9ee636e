// The rendered dual-ORAM program for a federation: every owner's two stacks served
// by the circuit, compaction, the dependent second hop, and ranking.
module OramProgram {
  import opened Wrappers
  import opened Gates
  import opened Bits
  import opened PackedEdges
  import opened PageConfig
  import opened OwnerEdges
  import opened PageLayout
  import opened PageReads
  import opened Ranking
  import opened Compaction
  import opened GraphAnswer
  import opened PagedOracle
  import opened OramSession
  import opened PagedEvaluation
  import opened PagedCircuit
  import opened OramEpoch

  // --- Every owner's stacks -------------------------------------------------------------------

  ghost predicate Disjoint(stacks: seq<OwnerStacks>) {
    forall i, j :: 0 <= i < j < |stacks| ==> stacks[i].Repr() !! stacks[j].Repr()
  }

  ghost predicate Within(stacks: seq<OwnerStacks>, repr: set<object>) {
    forall o :: 0 <= o < |stacks| ==> stacks[o].Repr() <= repr
  }

  /** The first `o` owners have served one key read more than the others. */
  ghost predicate ServingUpTo(c: Config, layouts: seq<Layout>, stacks: seq<OwnerStacks>, repr: set<object>, n: nat, o: nat)
    reads repr
  {
    && |stacks| == |layouts| && Disjoint(stacks) && Within(stacks, repr)
    && forall k :: 0 <= k < |stacks| ==> Serving(c, layouts[k], stacks[k], if k < o then n + 1 else n)
  }

  /** Every owner has served `n` key reads. */
  ghost predicate AllServing(c: Config, layouts: seq<Layout>, stacks: seq<OwnerStacks>, repr: set<object>, n: nat)
    reads repr
  {
    ServingUpTo(c, layouts, stacks, repr, n, 0)
  }

  ghost predicate AllBudgeted(c: Config, stacks: seq<OwnerStacks>, n: nat) {
    forall o :: 0 <= o < |stacks| ==> Budgeted(c, stacks[o], n)
  }

  lemma {:induction false} BudgetShrinks(c: Config, stacks: seq<OwnerStacks>, m: nat, n: nat)
    requires AllBudgeted(c, stacks, n) && m <= n
    ensures AllBudgeted(c, stacks, m)
  {
    TimesMonotone(m, n, c.pagesPerKey);
    hide Times;
  }

  /** Lossless dense layouts of the owners' edges. */
  ghost predicate DenseFederation(c: Config, owners: seq<seq<RawEdge>>, layouts: seq<Layout>) {
    Federation(c, owners, layouts) && c.addressing == Dense(None)
  }

  lemma {:induction false} OwnerOf(c: Config, owners: seq<seq<RawEdge>>, layouts: seq<Layout>, o: nat)
    requires DenseFederation(c, owners, layouts) && o < |owners|
    ensures c.Valid() && |layouts| == |owners| == c.owners && OwnersAcceptable(c, owners)
    ensures Owned(c, owners[o], ResolveOwners(c, owners)[o], layouts[o])
  {
    hide Lossless;
  }

  // --- One key from every owner -----------------------------------------------------------------

  /** The slots of an owner's cells, gated. */
  lemma {:induction false} CellsCarry(c: Config, owners: seq<seq<RawEdge>>, layouts: seq<Layout>, key: Key, active: int, o: nat, slots: seq<Slot>)
    requires DenseFederation(c, owners, layouts) && o < |owners| && IsBit(active) && OwnersAcceptable(c, owners)
    requires slots == UnpackSlots(c, active, KeyCells(c, ResolveOwners(c, owners)[o], key))
    ensures CarriesOne(c, owners, key, active, o, slots)
  {
    hide *;
    OwnerOf(c, owners, layouts, o);
    var rs := ResolveOwners(c, owners)[o];
    KeyFits(c, owners[o], rs, layouts[o], key);
    GatedSlots(c, rs, key, active);
    IsCarried(c, owners, key, active, o, slots);
  }

  lemma {:induction false} GatedSlots(c: Config, rs: seq<Resolved>, key: Key, active: int)
    requires IsBit(active) && |SortedAt(rs, key)| <= c.SlotsPerKey() && AllFit(c, SortedAt(rs, key))
    ensures var slots := UnpackSlots(c, active, KeyCells(c, rs, key));
      && |slots| == c.SlotsPerKey() && BitSlots(slots)
      && Live(slots) == if active == 1 then HitsOf(SortedAt(rs, key)) else []
  {
    var n := c.SlotsPerKey();
    ZerosArePadding(c, n);
    NoneFit(c);
    hide AllFit, SortedAt, Zeros, UnpackSlots, Live, BitSlots, PaddedPrefix;
    MaskedSlots(c, active, KeyCells(c, rs, key));
    KeyWindowSlots(c, SortedAt(rs, key), n);
    KeyWindowSlots(c, [], n);
  }

  /** `WindowSlots` on records that all fit. */
  lemma {:induction false} KeyWindowSlots(c: Config, records: seq<Record>, n: nat)
    requires |records| <= n && AllFit(c, records)
    ensures var cells := PaddedPrefix(c.EdgeWidths(), records, n);
      var slots := UnpackSlots(c, 1, cells);
      |cells| == n == |slots| && BitSlots(slots) && Live(slots) == HitsOf(records)
  {
    WindowSlots(c, records, n);
    hide UnpackSlots, Live, BitSlots;
  }

  ghost predicate AllFit(c: Config, records: seq<Record>) {
    forall i :: 0 <= i < |records| ==> RecordFits(c.EdgeWidths(), records[i]) && 1 <= records[i].target < c.EntityCount()
  }

  lemma {:induction false} NoneFit(c: Config)
    ensures AllFit(c, [])
  {
  }

  lemma {:induction false} IsCarried(c: Config, owners: seq<seq<RawEdge>>, key: Key, active: int, o: nat, slots: seq<Slot>)
    requires OwnersAcceptable(c, owners) && o < |owners| && |slots| == c.SlotsPerKey() && BitSlots(slots)
    requires var records := SortedAt(ResolveOwners(c, owners)[o], key);
      |records| <= c.OwnerFrontier() && Live(slots) == if active == 1 then HitsOf(records) else []
    ensures CarriesOne(c, owners, key, active, o, slots)
  {
    hide OwnersAcceptable, SortedAt, Live, BitSlots;
  }

  lemma {:induction false} ZerosArePadding(c: Config, n: nat)
    ensures PaddedPrefix(c.EdgeWidths(), [], n) == Zeros(n) && HitsOf([]) == []
  {
  }

  /** A key's records fit its cells, its frontier and the packed widths. */
  lemma {:induction false} KeyFits(c: Config, edges: seq<RawEdge>, rs: seq<Resolved>, layout: Layout, key: Key)
    requires Owned(c, edges, rs, layout)
    ensures |SortedAt(rs, key)| <= c.SlotsPerKey() && |SortedAt(rs, key)| <= c.OwnerFrontier()
    ensures AllFit(c, SortedAt(rs, key))
  {
    if c.InRange(key) {
      assert ReadsBack(c, rs, layout, key);
    } else {
      DummyKeyIsEmpty(c, edges, key);
    }
    forall i | 0 <= i < |SortedAt(rs, key)|
      ensures RecordFits(c.EdgeWidths(), SortedAt(rs, key)[i]) && 1 <= SortedAt(rs, key)[i].target < c.EntityCount()
    {
      StoredRecordFacts(c, edges, key, SortedAt(rs, key)[i]);
    }
  }

  /** One owner's part of a key read. */
  method ReadOwn(c: Config, ghost owners: seq<seq<RawEdge>>, ghost layouts: seq<Layout>, s: OwnerStacks,
                 key: Key, active: int, ghost n: nat, ghost o: nat) returns (slots: seq<Slot>)
    requires DenseFederation(c, owners, layouts) && IsBit(active) && o < |layouts| == |owners|
    requires Serving(c, layouts[o], s, n) && Budgeted(c, s, n + 1)
    modifies s.Repr()
    ensures Serving(c, layouts[o], s, n + 1)
    ensures CarriesOne(c, owners, key, active, o, slots)
  {
    OwnerOf(c, owners, layouts, o);
    hide *;
    var cells := ReadRelationKey(c, owners[o], ResolveOwners(c, owners)[o], layouts[o], s, key, n);
    slots := UnpackSlots(c, active, cells);
    CellsCarry(c, owners, layouts, key, active, o, slots);
  }

  /** The stacks of owner `o` move; the others stay as they are. */
  method ReadFrom(c: Config, ghost owners: seq<seq<RawEdge>>, ghost layouts: seq<Layout>, stacks: seq<OwnerStacks>, ghost repr: set<object>,
                  key: Key, active: int, ghost n: nat, o: nat) returns (slots: seq<Slot>)
    requires DenseFederation(c, owners, layouts) && IsBit(active) && o < |stacks| == |owners|
    requires ServingUpTo(c, layouts, stacks, repr, n, o) && AllBudgeted(c, stacks, n + 1)
    modifies repr
    ensures ServingUpTo(c, layouts, stacks, repr, n, o + 1)
    ensures CarriesOne(c, owners, key, active, o, slots)
  {
    hide DenseFederation, Serving, Budgeted, CarriesOne;
    assert stacks[o].Repr() <= repr;
    slots := ReadOwn(c, owners, layouts, stacks[o], key, active, n, o);
    forall k | 0 <= k < |stacks| && k != o
      ensures Serving(c, layouts[k], stacks[k], if k < o then n + 1 else n)
    {
      Apart(stacks, k, o);
    }
  }

  lemma {:induction false} Apart(stacks: seq<OwnerStacks>, i: nat, j: nat)
    requires Disjoint(stacks) && i < |stacks| && j < |stacks| && i != j
    ensures stacks[i].Repr() !! stacks[j].Repr()
  {
    hide OwnerStacks.Repr;
  }

  /** One key read: every owner's slots, at the cost of one read of every owner's budgets. */
  method ReadAll(c: Config, ghost owners: seq<seq<RawEdge>>, ghost layouts: seq<Layout>, stacks: seq<OwnerStacks>, ghost repr: set<object>,
                 key: Key, active: int, ghost n: nat) returns (slots: seq<seq<Slot>>)
    requires DenseFederation(c, owners, layouts) && IsBit(active)
    requires AllServing(c, layouts, stacks, repr, n) && AllBudgeted(c, stacks, n + 1)
    modifies repr
    ensures AllServing(c, layouts, stacks, repr, n + 1)
    ensures Carries(c, owners, key, active, slots)
  {
    FederationSize(c, owners, layouts);
    ServingSize(c, layouts, stacks, repr, n);
    NoneCarried(c, owners, key, active);
    hide *;
    slots := [];
    for o := 0 to |stacks|
      invariant ServingUpTo(c, layouts, stacks, repr, n, o) && CarriedUpTo(c, owners, key, active, o, slots)
    {
      slots := ReadNext(c, owners, layouts, stacks, repr, key, active, n, o, slots);
    }
    AllServed(c, layouts, stacks, repr, n);
    AllCarried(c, owners, layouts, key, active, slots);
  }

  ghost predicate CarriedUpTo(c: Config, owners: seq<seq<RawEdge>>, key: Key, active: int, o: nat, slots: seq<seq<Slot>>) {
    |slots| == o && forall i :: 0 <= i < o ==> CarriesOne(c, owners, key, active, i, slots[i])
  }

  lemma {:induction false} NoneCarried(c: Config, owners: seq<seq<RawEdge>>, key: Key, active: int)
    ensures CarriedUpTo(c, owners, key, active, 0, [])
  {
  }

  lemma {:induction false} CarriedNext(c: Config, owners: seq<seq<RawEdge>>, key: Key, active: int, o: nat, slots: seq<seq<Slot>>, read: seq<Slot>)
    requires CarriedUpTo(c, owners, key, active, o, slots) && CarriesOne(c, owners, key, active, o, read)
    ensures CarriedUpTo(c, owners, key, active, o + 1, slots + [read])
  {
    hide CarriesOne;
  }

  lemma {:induction false} AllCarried(c: Config, owners: seq<seq<RawEdge>>, layouts: seq<Layout>, key: Key, active: int, slots: seq<seq<Slot>>)
    requires DenseFederation(c, owners, layouts) && CarriedUpTo(c, owners, key, active, |owners|, slots)
    ensures Carries(c, owners, key, active, slots)
  {
    FederationSize(c, owners, layouts);
    AllCarry(c, owners, layouts, key, active, slots);
    hide *;
  }

  method ReadNext(c: Config, ghost owners: seq<seq<RawEdge>>, ghost layouts: seq<Layout>, stacks: seq<OwnerStacks>, ghost repr: set<object>,
                  key: Key, active: int, ghost n: nat, o: nat, before: seq<seq<Slot>>) returns (slots: seq<seq<Slot>>)
    requires DenseFederation(c, owners, layouts) && IsBit(active) && o < |stacks| == |owners|
    requires ServingUpTo(c, layouts, stacks, repr, n, o) && AllBudgeted(c, stacks, n + 1) && CarriedUpTo(c, owners, key, active, o, before)
    modifies repr
    ensures ServingUpTo(c, layouts, stacks, repr, n, o + 1) && CarriedUpTo(c, owners, key, active, o + 1, slots)
  {
    hide *;
    var read := ReadFrom(c, owners, layouts, stacks, repr, key, active, n, o);
    CarriedNext(c, owners, key, active, o, before, read);
    slots := before + [read];
  }

  lemma {:induction false} ServingSize(c: Config, layouts: seq<Layout>, stacks: seq<OwnerStacks>, repr: set<object>, n: nat)
    requires AllServing(c, layouts, stacks, repr, n)
    ensures |stacks| == |layouts| && ServingUpTo(c, layouts, stacks, repr, n, 0)
  {
    hide Serving, Disjoint;
  }

  lemma {:induction false} AllServed(c: Config, layouts: seq<Layout>, stacks: seq<OwnerStacks>, repr: set<object>, n: nat)
    requires ServingUpTo(c, layouts, stacks, repr, n, |stacks|)
    ensures AllServing(c, layouts, stacks, repr, n + 1)
  {
    hide Serving, Disjoint;
  }

  lemma {:induction false} FederationSize(c: Config, owners: seq<seq<RawEdge>>, layouts: seq<Layout>)
    requires DenseFederation(c, owners, layouts)
    ensures c.Valid() && |layouts| == |owners| == c.owners && OwnersAcceptable(c, owners) && Federation(c, owners, layouts)
  {
    hide Lossless, OwnersAcceptable;
  }

  // --- Hop one, for every query ------------------------------------------------------------------

  /** `dual_access_counts`: the key reads every owner serves, and so its directory accesses. */
  function PlannedReads(c: Config, queries: nat): nat {
    Times(queries, 1 + FrontierSlots(c))
  }

  lemma {:induction false} PlannedIs(c: Config, queries: nat)
    ensures PlannedReads(c, queries) == queries + Times(queries, FrontierSlots(c))
  {
    hide FrontierSlots;
    var f := FrontierSlots(c);
    assert queries * (1 + f) == queries + queries * f;
  }

  function FirstKeyOf(q: SecretQuery): Key {
    Key(q.source, q.relation1)
  }

  /** The first hops of the first `n` queries. */
  ghost predicate HopsUpTo(c: Config, owners: seq<seq<RawEdge>>, queries: seq<SecretQuery>, n: nat, hops: seq<seq<seq<Slot>>>) {
    n <= |queries| && |hops| == n && forall i :: 0 <= i < n ==> Carries(c, owners, FirstKeyOf(queries[i]), 1, hops[i])
  }

  lemma {:induction false} HopsNext(c: Config, owners: seq<seq<RawEdge>>, queries: seq<SecretQuery>, n: nat, hops: seq<seq<seq<Slot>>>, hop: seq<seq<Slot>>)
    requires HopsUpTo(c, owners, queries, n, hops) && n < |queries| && Carries(c, owners, FirstKeyOf(queries[n]), 1, hop)
    ensures HopsUpTo(c, owners, queries, n + 1, hops + [hop])
  {
    hide Carries, FirstKeyOf;
  }

  lemma {:induction false} NoHops(c: Config, owners: seq<seq<RawEdge>>, queries: seq<SecretQuery>)
    ensures HopsUpTo(c, owners, queries, 0, []) && IsBit(1)
  {
  }

  /** The first read of every query. */
  method HopOne(c: Config, ghost owners: seq<seq<RawEdge>>, ghost layouts: seq<Layout>, stacks: seq<OwnerStacks>, ghost repr: set<object>,
                queries: seq<SecretQuery>) returns (hops: seq<seq<seq<Slot>>>)
    requires DenseFederation(c, owners, layouts) && AllServing(c, layouts, stacks, repr, 0)
    requires AllBudgeted(c, stacks, PlannedReads(c, |queries|))
    modifies repr
    ensures AllServing(c, layouts, stacks, repr, |queries|) && HopsUpTo(c, owners, queries, |queries|, hops)
  {
    NoHops(c, owners, queries);
    hide *;
    hops := [];
    for query := 0 to |queries|
      invariant AllServing(c, layouts, stacks, repr, query) && HopsUpTo(c, owners, queries, query, hops)
    {
      hops := NextHop(c, owners, layouts, stacks, repr, queries, query, hops);
    }
  }

  method NextHop(c: Config, ghost owners: seq<seq<RawEdge>>, ghost layouts: seq<Layout>, stacks: seq<OwnerStacks>, ghost repr: set<object>,
                 queries: seq<SecretQuery>, query: nat, before: seq<seq<seq<Slot>>>) returns (hops: seq<seq<seq<Slot>>>)
    requires DenseFederation(c, owners, layouts) && AllServing(c, layouts, stacks, repr, query) && query < |queries|
    requires AllBudgeted(c, stacks, PlannedReads(c, |queries|)) && HopsUpTo(c, owners, queries, query, before)
    modifies repr
    ensures AllServing(c, layouts, stacks, repr, query + 1) && HopsUpTo(c, owners, queries, query + 1, hops)
  {
    PlannedIs(c, |queries|);
    NoHops(c, owners, queries);
    hide *;
    BudgetShrinks(c, stacks, query + 1, PlannedReads(c, |queries|));
    var hop := ReadAll(c, owners, layouts, stacks, repr, FirstKeyOf(queries[query]), 1, query);
    HopsNext(c, owners, queries, query, before, hop);
    hops := before + [hop];
  }

  // --- The frontier, for every query ---------------------------------------------------------------

  /** The owners' bounds add up. */
  lemma {:induction false} JoinedBound(slots: seq<seq<Slot>>, width: nat)
    requires forall o :: 0 <= o < |slots| ==> |Live(slots[o])| <= width
    ensures |Live(Joined(slots))| <= Times(|slots|, width)
  {
    TimesFacts(|slots|, width);
    if slots != [] {
      var n := |slots| - 1;
      JoinedBound(slots[..n], width);
      LiveConcat(Joined(slots[..n]), slots[n]);
    }
    hide Times, Live;
  }

  lemma {:induction false} CarriedBound(c: Config, owners: seq<seq<RawEdge>>, key: Key, slots: seq<seq<Slot>>)
    requires Carries(c, owners, key, 1, slots) && |owners| == c.owners
    ensures OwnersAcceptable(c, owners) && |GatedHits(c, owners, key, 1)| <= Times(c.owners, c.OwnerFrontier())
  {
    AllHits(c, owners, key, 1, slots);
    forall o | 0 <= o < |slots|
      ensures |Live(slots[o])| <= c.OwnerFrontier()
    {
      assert CarriesOne(c, owners, key, 1, o, slots[o]);
    }
    hide CarriesOne, Live, Joined;
    JoinedBound(slots, c.OwnerFrontier());
  }

  /** `GLOBAL_FRONTIER` rounds over all owners' slots at once keep what the declared bounds follow. */
  method CompactHop(c: Config, ghost owners: seq<seq<RawEdge>>, ghost q: SecretQuery, hop: seq<seq<Slot>>) returns (frontier: seq<Slot>)
    requires c.Valid() && |owners| == c.owners && Carries(c, owners, FirstKeyOf(q), 1, hop)
    ensures FrontierOf(c, owners, q, frontier)
  {
    CarriedBound(c, owners, FirstKeyOf(q), hop);
    FrontierKept(c, owners, q);
    hide *;
    frontier := CompactGlobally(c, owners, FirstKeyOf(q), 1, hop, FrontierSlots(c));
    FrontierIs(c, owners, q, frontier);
  }

  lemma {:induction false} FrontierKept(c: Config, owners: seq<seq<RawEdge>>, q: SecretQuery)
    requires OwnersAcceptable(c, owners) && |GatedHits(c, owners, FirstKeyOf(q), 1)| <= Times(c.owners, c.OwnerFrontier())
    ensures var hits, width := GatedHits(c, owners, FirstKeyOf(q), 1), FrontierSlots(c);
      (if |hits| > width then hits[..width] else hits) == Followed(c, KeyHits(ResolveOwners(c, owners), Key(q.source, q.relation1)))
  {
    hide KeyHits, Times, OwnersAcceptable;
  }

  /** The frontiers of the first `n` queries. */
  ghost predicate FrontiersUpTo(c: Config, owners: seq<seq<RawEdge>>, queries: seq<SecretQuery>, n: nat, frontiers: seq<seq<Slot>>) {
    n <= |queries| && |frontiers| == n && forall i :: 0 <= i < n ==> FrontierOf(c, owners, queries[i], frontiers[i])
  }

  method CompactHops(c: Config, ghost owners: seq<seq<RawEdge>>, ghost queries: seq<SecretQuery>, hops: seq<seq<seq<Slot>>>) returns (frontiers: seq<seq<Slot>>)
    requires c.Valid() && |owners| == c.owners && HopsUpTo(c, owners, queries, |queries|, hops)
    ensures FrontiersUpTo(c, owners, queries, |queries|, frontiers)
  {
    hide Carries, FrontierOf, FirstKeyOf;
    frontiers := [];
    for query := 0 to |hops|
      invariant FrontiersUpTo(c, owners, queries, query, frontiers)
    {
      var frontier := CompactHop(c, owners, queries[query], hops[query]);
      frontiers := frontiers + [frontier];
    }
  }

  // --- Hop two ------------------------------------------------------------------------------------------

  /** `frontier_valid * frontier_targets`. */
  function Middle(first: Slot): (middle: nat)
    requires IsBit(first.valid) && first.target >= 0
    ensures middle == if first.valid == 1 then first.target else 0
  {
    BitTimes(first.valid, first.target)
  }

  /** The slots read behind a frontier slot carry its second hop. */
  lemma {:induction false} MiddleFollows(c: Config, owners: seq<seq<RawEdge>>, relation: nat, first: Slot, slots: seq<seq<Slot>>)
    requires c.Valid() && |owners| == c.owners && IsBit(first.valid) && first.target >= 0
    requires Carries(c, owners, Key(Middle(first), relation), first.valid, slots)
    ensures Follows(c, owners, relation, first, Joined(slots))
  {
    var key := Key(Middle(first), relation);
    assert forall o :: 0 <= o < |slots| ==> CarriesOne(c, owners, key, first.valid, o, slots[o]);
    JoinedBits(slots);
    JoinedLength(slots, c.SlotsPerKey());
    AllHits(c, owners, key, first.valid, slots);
    hide CarriesOne, Live, Joined, KeyHits;
  }

  /** The second hops of the first `n` frontier slots. */
  ghost predicate RowsUpTo(c: Config, owners: seq<seq<RawEdge>>, relation: nat, frontier: seq<Slot>, n: nat, rows: seq<seq<Slot>>) {
    n <= |frontier| && |rows| == n && forall f :: 0 <= f < n ==> Follows(c, owners, relation, frontier[f], rows[f])
  }

  lemma {:induction false} RowsNext(c: Config, owners: seq<seq<RawEdge>>, relation: nat, frontier: seq<Slot>, n: nat, rows: seq<seq<Slot>>, row: seq<Slot>)
    requires RowsUpTo(c, owners, relation, frontier, n, rows) && n < |frontier| && Follows(c, owners, relation, frontier[n], row)
    ensures RowsUpTo(c, owners, relation, frontier, n + 1, rows + [row])
  {
    hide Follows;
  }

  lemma {:induction false} NoRows(c: Config, owners: seq<seq<RawEdge>>, relation: nat, frontier: seq<Slot>)
    ensures RowsUpTo(c, owners, relation, frontier, 0, [])
  {
  }

  method FollowSlot(c: Config, ghost owners: seq<seq<RawEdge>>, ghost layouts: seq<Layout>, stacks: seq<OwnerStacks>, ghost repr: set<object>,
                    first: Slot, relation: nat, ghost n: nat) returns (row: seq<Slot>)
    requires DenseFederation(c, owners, layouts) && AllServing(c, layouts, stacks, repr, n) && AllBudgeted(c, stacks, n + 1)
    requires IsBit(first.valid) && first.target >= 0
    modifies repr
    ensures AllServing(c, layouts, stacks, repr, n + 1) && Follows(c, owners, relation, first, row)
  {
    FederationSize(c, owners, layouts);
    hide *;
    var slots := ReadAll(c, owners, layouts, stacks, repr, Key(Middle(first), relation), first.valid, n);
    MiddleFollows(c, owners, relation, first, slots);
    row := Joined(slots);
  }

  method NextRow(c: Config, ghost owners: seq<seq<RawEdge>>, ghost layouts: seq<Layout>, stacks: seq<OwnerStacks>, ghost repr: set<object>,
                 ghost q: SecretQuery, frontier: seq<Slot>, relation: nat, ghost n: nat, f: nat, before: seq<seq<Slot>>) returns (rows: seq<seq<Slot>>)
    requires DenseFederation(c, owners, layouts) && AllServing(c, layouts, stacks, repr, n) && AllBudgeted(c, stacks, n + 1)
    requires FrontierOf(c, owners, q, frontier) && f < |frontier| && RowsUpTo(c, owners, relation, frontier, f, before)
    modifies repr
    ensures AllServing(c, layouts, stacks, repr, n + 1) && RowsUpTo(c, owners, relation, frontier, f + 1, rows)
  {
    FrontierFacts(c, owners, q, frontier);
    SlotIsBit(frontier, f);
    hide *;
    var row := FollowSlot(c, owners, layouts, stacks, repr, frontier[f], relation, n);
    RowsNext(c, owners, relation, frontier, f, before, row);
    rows := before + [row];
  }

  /** One query's dependent reads. */
  method FollowFrontier(c: Config, ghost owners: seq<seq<RawEdge>>, ghost layouts: seq<Layout>, stacks: seq<OwnerStacks>, ghost repr: set<object>,
                        ghost q: SecretQuery, frontier: seq<Slot>, relation: nat, ghost start: nat, ghost budget: nat) returns (rows: seq<seq<Slot>>)
    requires DenseFederation(c, owners, layouts) && AllServing(c, layouts, stacks, repr, start) && AllBudgeted(c, stacks, budget)
    requires FrontierOf(c, owners, q, frontier) && start + |frontier| <= budget
    modifies repr
    ensures AllServing(c, layouts, stacks, repr, start + |frontier|) && RowsUpTo(c, owners, relation, frontier, |frontier|, rows)
  {
    NoRows(c, owners, relation, frontier);
    hide *;
    rows := [];
    for f := 0 to |frontier|
      invariant AllServing(c, layouts, stacks, repr, start + f) && RowsUpTo(c, owners, relation, frontier, f, rows)
    {
      BudgetShrinks(c, stacks, start + f + 1, budget);
      rows := NextRow(c, owners, layouts, stacks, repr, q, frontier, relation, start + f, f, rows);
    }
  }

  /** The second hops of the first `n` queries. */
  ghost predicate SecondsUpTo(c: Config, owners: seq<seq<RawEdge>>, queries: seq<SecretQuery>, frontiers: seq<seq<Slot>>, n: nat, seconds: seq<seq<seq<Slot>>>) {
    && n <= |queries| && n <= |frontiers| && |seconds| == n
    && forall i :: 0 <= i < n ==> RowsUpTo(c, owners, queries[i].relation2, frontiers[i], |frontiers[i]|, seconds[i])
  }

  lemma {:induction false} SecondsNext(c: Config, owners: seq<seq<RawEdge>>, queries: seq<SecretQuery>, frontiers: seq<seq<Slot>>, n: nat,
                                       seconds: seq<seq<seq<Slot>>>, rows: seq<seq<Slot>>)
    requires SecondsUpTo(c, owners, queries, frontiers, n, seconds) && n < |queries| && n < |frontiers|
    requires RowsUpTo(c, owners, queries[n].relation2, frontiers[n], |frontiers[n]|, rows)
    ensures SecondsUpTo(c, owners, queries, frontiers, n + 1, seconds + [rows])
  {
    hide RowsUpTo;
  }

  lemma {:induction false} NoSeconds(c: Config, owners: seq<seq<RawEdge>>, queries: seq<SecretQuery>, frontiers: seq<seq<Slot>>)
    ensures SecondsUpTo(c, owners, queries, frontiers, 0, [])
  {
  }

  lemma {:induction false} FrontierAt(c: Config, owners: seq<seq<RawEdge>>, queries: seq<SecretQuery>, frontiers: seq<seq<Slot>>, i: nat)
    requires FrontiersUpTo(c, owners, queries, |queries|, frontiers) && i < |queries|
    ensures i < |frontiers| && FrontierOf(c, owners, queries[i], frontiers[i]) && |frontiers[i]| == FrontierSlots(c)
  {
  }

  /** Where query `query`'s dependent reads start in the public schedule. */
  function StartOf(c: Config, queries: nat, query: nat): nat {
    queries + Times(query, FrontierSlots(c))
  }

  lemma {:induction false} StartStep(c: Config, queries: nat, query: nat)
    ensures StartOf(c, queries, 0) == queries && StartOf(c, queries, query + 1) == StartOf(c, queries, query) + FrontierSlots(c)
    ensures StartOf(c, queries, queries) == PlannedReads(c, queries)
    ensures query < queries ==> StartOf(c, queries, query) + FrontierSlots(c) <= PlannedReads(c, queries)
  {
    PlannedIs(c, queries);
    TimesFacts(query, FrontierSlots(c));
    TimesFacts(0, FrontierSlots(c));
    if query < queries {
      TimesMonotone(query + 1, queries, FrontierSlots(c));
    }
    hide Times, FrontierSlots, PlannedReads;
  }

  method NextSecond(c: Config, ghost owners: seq<seq<RawEdge>>, ghost layouts: seq<Layout>, stacks: seq<OwnerStacks>, ghost repr: set<object>,
                    queries: seq<SecretQuery>, frontiers: seq<seq<Slot>>, query: nat, before: seq<seq<seq<Slot>>>) returns (seconds: seq<seq<seq<Slot>>>)
    requires DenseFederation(c, owners, layouts) && AllServing(c, layouts, stacks, repr, StartOf(c, |queries|, query)) && query < |queries|
    requires AllBudgeted(c, stacks, PlannedReads(c, |queries|)) && FrontiersUpTo(c, owners, queries, |queries|, frontiers)
    requires SecondsUpTo(c, owners, queries, frontiers, query, before)
    modifies repr
    ensures AllServing(c, layouts, stacks, repr, StartOf(c, |queries|, query + 1))
    ensures SecondsUpTo(c, owners, queries, frontiers, query + 1, seconds)
  {
    hide *;
    FrontierAt(c, owners, queries, frontiers, query);
    StartStep(c, |queries|, query);
    var rows := FollowFrontier(c, owners, layouts, stacks, repr, queries[query], frontiers[query], queries[query].relation2,
                               StartOf(c, |queries|, query), PlannedReads(c, |queries|));
    SecondsNext(c, owners, queries, frontiers, query, before, rows);
    seconds := before + [rows];
  }

  /** All dependent reads; they end exactly where the public schedule does. */
  method HopTwo(c: Config, ghost owners: seq<seq<RawEdge>>, ghost layouts: seq<Layout>, stacks: seq<OwnerStacks>, ghost repr: set<object>,
                queries: seq<SecretQuery>, frontiers: seq<seq<Slot>>) returns (seconds: seq<seq<seq<Slot>>>)
    requires DenseFederation(c, owners, layouts) && AllServing(c, layouts, stacks, repr, |queries|)
    requires AllBudgeted(c, stacks, PlannedReads(c, |queries|)) && FrontiersUpTo(c, owners, queries, |queries|, frontiers)
    modifies repr
    ensures AllServing(c, layouts, stacks, repr, PlannedReads(c, |queries|))
    ensures SecondsUpTo(c, owners, queries, frontiers, |queries|, seconds)
  {
    hide *;
    StartStep(c, |queries|, 0);
    StartStep(c, |queries|, |queries|);
    NoSeconds(c, owners, queries, frontiers);
    seconds := [];
    for query := 0 to |queries|
      invariant AllServing(c, layouts, stacks, repr, StartOf(c, |queries|, query))
      invariant SecondsUpTo(c, owners, queries, frontiers, query, seconds)
    {
      seconds := NextSecond(c, owners, layouts, stacks, repr, queries, frontiers, query, seconds);
    }
  }

  // --- Ranking -----------------------------------------------------------------------------------------

  ghost predicate AnsweredUpTo(c: Config, owners: seq<seq<RawEdge>>, queries: seq<SecretQuery>, n: nat, results: seq<seq<Row>>) {
    n <= |queries| && |results| == n && forall i :: 0 <= i < n ==> AnswerOf(c, owners, queries[i], results[i])
  }

  lemma {:induction false} RowsDone(c: Config, owners: seq<seq<RawEdge>>, relation: nat, frontier: seq<Slot>, rows: seq<seq<Slot>>)
    requires RowsUpTo(c, owners, relation, frontier, |frontier|, rows)
    ensures |rows| == |frontier| && forall f :: 0 <= f < |rows| ==> Follows(c, owners, relation, frontier[f], rows[f])
  {
    hide Follows;
  }

  lemma {:induction false} LaneReady(c: Config, owners: seq<seq<RawEdge>>, q: SecretQuery, lane: Lane)
    requires LaneOf(c, owners, q, lane)
    ensures lane.WellFormed(CandidateSlots(c))
  {
  }

  /** One query's candidates, ranked. */
  method RankOne(c: Config, ghost owners: seq<seq<RawEdge>>, ghost q: SecretQuery, frontier: seq<Slot>, rows: seq<seq<Slot>>) returns (result: seq<Row>)
    requires FrontierOf(c, owners, q, frontier) && RowsUpTo(c, owners, q.relation2, frontier, |frontier|, rows)
    ensures AnswerOf(c, owners, q, result)
  {
    hide *;
    RowsDone(c, owners, q.relation2, frontier, rows);
    var lane := FinishLane(c, owners, q, frontier, rows);
    LaneReady(c, owners, q, lane);
    result := RankScalar(lane, CandidateSlots(c), c.topK, c.dedup);
    LaneAnswer(c, owners, q, lane, result);
  }

  method RankAll(c: Config, ghost owners: seq<seq<RawEdge>>, queries: seq<SecretQuery>, frontiers: seq<seq<Slot>>, seconds: seq<seq<seq<Slot>>>)
    returns (results: seq<seq<Row>>)
    requires FrontiersUpTo(c, owners, queries, |queries|, frontiers) && SecondsUpTo(c, owners, queries, frontiers, |queries|, seconds)
    ensures AnsweredUpTo(c, owners, queries, |queries|, results)
  {
    hide FrontierOf, RowsUpTo, AnswerOf;
    results := [];
    for query := 0 to |queries|
      invariant AnsweredUpTo(c, owners, queries, query, results)
    {
      var result := RankOne(c, owners, queries[query], frontiers[query], seconds[query]);
      results := results + [result];
    }
  }

  /**
   * The program over given stacks: every query gets the rows of its followed paths, and every
   * owner serves exactly the planned accesses, whatever the secret queries are.
   */
  method RunStacks(c: Config, ghost owners: seq<seq<RawEdge>>, ghost layouts: seq<Layout>, stacks: seq<OwnerStacks>, ghost repr: set<object>,
                   queries: seq<SecretQuery>) returns (results: seq<seq<Row>>)
    requires DenseFederation(c, owners, layouts) && AllServing(c, layouts, stacks, repr, 0)
    requires AllBudgeted(c, stacks, PlannedReads(c, |queries|))
    modifies repr
    ensures AllServing(c, layouts, stacks, repr, PlannedReads(c, |queries|))
    ensures AnsweredUpTo(c, owners, queries, |queries|, results)
  {
    FederationSize(c, owners, layouts);
    hide *;
    var hops := HopOne(c, owners, layouts, stacks, repr, queries);
    var frontiers := CompactHops(c, owners, queries, hops);
    var seconds := HopTwo(c, owners, layouts, stacks, repr, queries, frontiers);
    results := RankAll(c, owners, queries, frontiers, seconds);
  }
}
