// The rendered relation-paged circuit, wired end to end: directory reads, page
// reads, compaction, the dependent second hop, candidate formation, ranking.
module PagedCircuit {
  import opened Wrappers
  import opened Gates
  import opened Bits
  import opened PackedEdges
  import opened PageConfig
  import opened OwnerEdges
  import opened PageLayout
  import opened PageReads
  import opened Ranking
  import opened TwoHop
  import opened Compaction
  import opened Candidates
  import opened GraphAnswer
  import opened PagedOracle
  import opened PagedEvaluation
  import opened BucketTable
  import opened DirectoryReads
  import opened KeyReads
  import opened FoldedReads
  import opened Sharing
  import opened DirectoryAssembly

  // --- Reading a key from every owner ---------------------------------------------

  /** The matches of one owner for a gated key. */
  ghost function OwnerHits(c: Config, owners: seq<seq<RawEdge>>, key: Key, valid: int, o: nat): seq<Hit>
    requires OwnersAcceptable(c, owners) && o < |owners|
  {
    if valid == 1 then HitsOf(SortedAt(ResolveOwners(c, owners)[o], key)) else []
  }

  /** The federation's matches for a gated key. */
  ghost function GatedHits(c: Config, owners: seq<seq<RawEdge>>, key: Key, valid: int): seq<Hit>
    requires OwnersAcceptable(c, owners)
  {
    if valid == 1 then KeyHits(ResolveOwners(c, owners), key) else []
  }

  /** Slots of one owner that carry exactly that owner's matches. */
  ghost predicate CarriesOne(c: Config, owners: seq<seq<RawEdge>>, key: Key, valid: int, o: nat, slots: seq<Slot>) {
    && OwnersAcceptable(c, owners) && o < |owners|
    && |slots| == c.SlotsPerKey() && BitSlots(slots)
    && Live(slots) == OwnerHits(c, owners, key, valid, o)
    && |Live(slots)| <= c.OwnerFrontier()
  }

  /** Owner slots that carry exactly the owners' matches. */
  ghost predicate Carries(c: Config, owners: seq<seq<RawEdge>>, key: Key, valid: int, slots: seq<seq<Slot>>) {
    && OwnersAcceptable(c, owners) && |slots| == |owners|
    && forall o :: 0 <= o < |slots| ==> CarriesOne(c, owners, key, valid, o, slots[o])
  }

  /** One owner's slots, from what its window holds. */
  lemma {:induction false} OwnerCarries(c: Config, owners: seq<seq<RawEdge>>, layouts: seq<Layout>, key: Key, valid: int,
                                        row: seq<nat>, ds: seq<nat>, o: nat, slots: seq<Slot>)
    requires Federation(c, owners, layouts) && Fetched(c, layouts, key, valid, row, ds) && o < c.owners
    requires var (b, n) := UnpackDescriptor(c, ds[o]);
      var usable := valid == 1 && b < c.pageBudget && n <= c.pagesPerKey;
      && (usable ==> b + n <= |layouts[o].pages|)
      && slots == UnpackSlots(c, 1,
           Window(layouts[o].pages, if usable then b else 0, if usable then n else 0, c.pagesPerKey, c.pageSize))
    ensures CarriesOne(c, owners, key, valid, o, slots)
  {
    var rs := ResolveOwners(c, owners)[o];
    assert Lossless(c, rs, layouts[o]);
    var records := if valid == 1 then SortedAt(rs, key) else [];
    var pages := layouts[o].pages;
    if valid == 1 {
      assert ReadsBack(c, rs, layouts[o], key);
    } else {
      PagesNeededZero(c.pageSize);
      WindowContents(c.EdgeWidths(), pages, 0, 0, [], c.pageSize, c.pagesPerKey);
    }
    forall i | 0 <= i < |records|
      ensures RecordFits(c.EdgeWidths(), records[i]) && 1 <= records[i].target < c.EntityCount()
    {
      StoredRecordFacts(c, owners[o], key, records[i]);
    }
    WindowSlots(c, records, c.SlotsPerKey());
  }

  /** One owner's part of `read_keys`. */
  method ReadFromOwner(c: Config, ghost owners: seq<seq<RawEdge>>, ghost layouts: seq<Layout>, pools: seq<seq<seq<nat>>>, ghost key: Key, valid: int,
                       row: seq<nat>, ghost ds: seq<nat>, o: nat) returns (slots: seq<Slot>)
    requires Federation(c, owners, layouts) && PoolsAre(layouts, pools) && Fetched(c, layouts, key, valid, row, ds) && o < c.owners
    ensures CarriesOne(c, owners, key, valid, o, slots)
  {
    PoolOf(c, owners, layouts, o);
    FetchedFacts(c, layouts, key, valid, row, ds);
    assert o < |pools| && pools[o] == layouts[o].pages;
    hide *;
    slots := ReadOwnerSlots(c, row, ds, valid, o, pools[o]);
    OwnerCarries(c, owners, layouts, key, valid, row, ds, o, slots);
  }

  lemma {:induction false} PoolOf(c: Config, owners: seq<seq<RawEdge>>, layouts: seq<Layout>, o: nat)
    requires Federation(c, owners, layouts) && o < c.owners
    ensures |layouts| == |owners| == c.owners && OwnersAcceptable(c, owners) && Pool(c, layouts[o].pages)
  {
    assert Lossless(c, ResolveOwners(c, owners)[o], layouts[o]);
  }

  /** `read_keys` for one address: every owner's slots. */
  method ReadKeySlots(c: Config, ghost owners: seq<seq<RawEdge>>, ghost layouts: seq<Layout>, pools: seq<seq<seq<nat>>>, ghost key: Key, valid: int,
                      row: seq<nat>, ghost ds: seq<nat>) returns (slots: seq<seq<Slot>>)
    requires Federation(c, owners, layouts) && PoolsAre(layouts, pools) && Fetched(c, layouts, key, valid, row, ds)
    ensures Carries(c, owners, key, valid, slots)
  {
    hide *;
    slots := [];
    for o := 0 to c.owners
      invariant |slots| == o
      invariant forall i :: 0 <= i < o ==> CarriesOne(c, owners, key, valid, i, slots[i])
    {
      var read := ReadFromOwner(c, owners, layouts, pools, key, valid, row, ds, o);
      slots := slots + [read];
    }
    AllCarry(c, owners, layouts, key, valid, slots);
  }

  lemma {:induction false} AllCarry(c: Config, owners: seq<seq<RawEdge>>, layouts: seq<Layout>, key: Key, valid: int, slots: seq<seq<Slot>>)
    requires Federation(c, owners, layouts) && |slots| == c.owners
    requires forall o :: 0 <= o < |slots| ==> CarriesOne(c, owners, key, valid, o, slots[o])
    ensures Carries(c, owners, key, valid, slots)
  {
    hide CarriesOne, Lossless;
  }

  lemma {:induction false} JoinedSnoc(slots: seq<seq<Slot>>, n: nat)
    requires n < |slots|
    ensures Live(Joined(slots[..n + 1])) == Live(Joined(slots[..n])) + Live(slots[n])
  {
    assert slots[..n + 1][..n] == slots[..n];
    LiveConcat(Joined(slots[..n]), slots[n]);
    hide Live;
  }

  lemma {:induction false} CarriesAt(c: Config, owners: seq<seq<RawEdge>>, key: Key, valid: int, slots: seq<seq<Slot>>, o: nat)
    requires Carries(c, owners, key, valid, slots) && o < |slots|
    ensures |slots| == |owners| && OwnersAcceptable(c, owners) && AllAcceptable(c, owners[o])
    ensures Live(slots[o]) == if valid == 1 then HitsOf(SortedAt(ResolveAll(c, owners[o]), key)) else []
  {
    assert CarriesOne(c, owners, key, valid, o, slots[o]);
    hide Live, SortedAt, ResolveAll;
  }

  /** The owners' slots end to end carry the federation's matches. */
  lemma {:induction false} JoinedHits(c: Config, owners: seq<seq<RawEdge>>, key: Key, valid: int, slots: seq<seq<Slot>>, n: nat)
    requires Carries(c, owners, key, valid, slots) && n <= |slots|
    ensures |slots| == |owners| && OwnersAcceptable(c, owners)
    ensures Live(Joined(slots[..n])) == if valid == 1 then KeyHits(ResolveOwners(c, owners)[..n], key) else []
  {
    JoinedNone(c, owners, key, valid, slots);
    if n > 0 {
      CarriesAt(c, owners, key, valid, slots, n - 1);
      KeyHitsStep(c, owners, key, n - 1);
      JoinedSnoc(slots, n - 1);
      hide *;
      JoinedHits(c, owners, key, valid, slots, n - 1);
    } else {
      hide *;
    }
  }

  lemma {:induction false} JoinedNone(c: Config, owners: seq<seq<RawEdge>>, key: Key, valid: int, slots: seq<seq<Slot>>)
    requires Carries(c, owners, key, valid, slots)
    ensures |slots| == |owners| && OwnersAcceptable(c, owners)
    ensures Live(Joined(slots[..0])) == if valid == 1 then KeyHits(ResolveOwners(c, owners)[..0], key) else []
  {
  }

  lemma {:induction false} AllHits(c: Config, owners: seq<seq<RawEdge>>, key: Key, valid: int, slots: seq<seq<Slot>>)
    requires Carries(c, owners, key, valid, slots)
    ensures Live(Joined(slots)) == GatedHits(c, owners, key, valid)
  {
    JoinedHits(c, owners, key, valid, slots, |slots|);
    assert slots[..|slots|] == slots && ResolveOwners(c, owners)[..|owners|] == ResolveOwners(c, owners);
  }

  // --- The first-hop frontier ---------------------------------------------------------

  /** The matches that survive the declared federation-wide frontier. */
  function Followed(c: Config, hits: seq<Hit>): seq<Hit> {
    if c.globalFrontier.Some? && |hits| > c.globalFrontier.value then hits[..c.globalFrontier.value] else hits
  }

  /** Federation-wide compaction when a global frontier is declared, owner-local compaction otherwise. */
  method CompactFrontier(c: Config, ghost owners: seq<seq<RawEdge>>, ghost key: Key, ghost valid: int,
                         slots: seq<seq<Slot>>) returns (frontier: seq<Slot>)
    requires c.Valid() && |owners| == c.owners && Carries(c, owners, key, valid, slots)
    ensures BitSlots(frontier) && |frontier| == FrontierSlots(c)
    ensures forall f :: 0 <= f < |frontier| ==> frontier[f].target >= 0
    ensures Live(frontier) == Followed(c, GatedHits(c, owners, key, valid))
  {
    match c.globalFrontier
    case Some(width) => frontier := CompactGlobally(c, owners, key, valid, slots, width);
    case None => frontier := CompactLocally(c, owners, key, valid, slots);
  }

  method CompactGlobally(c: Config, ghost owners: seq<seq<RawEdge>>, ghost key: Key, ghost valid: int,
                         slots: seq<seq<Slot>>, width: nat) returns (frontier: seq<Slot>)
    requires c.Valid() && Carries(c, owners, key, valid, slots)
    ensures BitSlots(frontier) && |frontier| == width
    ensures forall f :: 0 <= f < |frontier| ==> frontier[f].target >= 0
    ensures var hits := GatedHits(c, owners, key, valid);
      Live(frontier) == if |hits| > width then hits[..width] else hits
  {
    AllHits(c, owners, key, valid, slots);
    CarriedBits(c, owners, key, valid, slots);
    hide *;
    frontier := StableCompaction(Joined(slots), width);
    GlobalFrontier(c, owners, key, valid, slots, width);
  }

  lemma {:induction false} CarriedBits(c: Config, owners: seq<seq<RawEdge>>, key: Key, valid: int, slots: seq<seq<Slot>>)
    requires Carries(c, owners, key, valid, slots)
    ensures BitSlots(Joined(slots))
  {
    forall o | 0 <= o < |slots|
      ensures BitSlots(slots[o])
    {
      assert CarriesOne(c, owners, key, valid, o, slots[o]);
    }
    hide Carries, CarriesOne;
    JoinedBits(slots);
  }

  /** What a federation-wide compaction holds. */
  lemma {:induction false} GlobalFrontier(c: Config, owners: seq<seq<RawEdge>>, key: Key, valid: int, slots: seq<seq<Slot>>, width: nat)
    requires c.Valid() && OwnersAcceptable(c, owners)
    requires Live(Joined(slots)) == GatedHits(c, owners, key, valid)
    ensures var hits, frontier := GatedHits(c, owners, key, valid), Compact(Joined(slots), width);
      && BitSlots(frontier) && |frontier| == width
      && (forall f :: 0 <= f < |frontier| ==> frontier[f].target >= 0)
      && Live(frontier) == if |hits| > width then hits[..width] else hits
  {
    GatedTargets(c, owners, key, valid);
    LivePadded(Live(Joined(slots)), width);
    hide GatedHits, Live, Joined, OwnersAcceptable;
  }

  method CompactLocally(c: Config, ghost owners: seq<seq<RawEdge>>, ghost key: Key, ghost valid: int,
                        slots: seq<seq<Slot>>) returns (frontier: seq<Slot>)
    requires c.Valid() && |owners| == c.owners && Carries(c, owners, key, valid, slots)
    ensures BitSlots(frontier) && |frontier| == Times(c.owners, c.OwnerFrontier())
    ensures forall f :: 0 <= f < |frontier| ==> frontier[f].target >= 0
    ensures Live(frontier) == GatedHits(c, owners, key, valid)
  {
    AllHits(c, owners, key, valid, slots);
    PerOwner(c, owners, key, valid, slots);
    CompactEachLossless(slots, c.OwnerFrontier());
    CarriesCount(c, owners, key, valid, slots);
    hide *;
    frontier := CompactOwners(c, slots, c.OwnerFrontier());
  }

  lemma {:induction false} CarriesCount(c: Config, owners: seq<seq<RawEdge>>, key: Key, valid: int, slots: seq<seq<Slot>>)
    requires Carries(c, owners, key, valid, slots)
    ensures |slots| == |owners|
  {
  }

  /** What owner-local compaction needs of every owner's slots. */
  lemma {:induction false} PerOwner(c: Config, owners: seq<seq<RawEdge>>, key: Key, valid: int, slots: seq<seq<Slot>>)
    requires c.Valid() && Carries(c, owners, key, valid, slots)
    ensures forall o :: 0 <= o < |slots| ==>
      RealTargets(c, Live(slots[o])) && BitSlots(slots[o]) && |Live(slots[o])| <= c.OwnerFrontier()
  {
    forall o | 0 <= o < |slots|
      ensures RealTargets(c, Live(slots[o])) && BitSlots(slots[o]) && |Live(slots[o])| <= c.OwnerFrontier()
    {
      assert CarriesOne(c, owners, key, valid, o, slots[o]);
      OwnerTargets(c, owners[o], key);
    }
  }

  lemma {:induction false} GatedTargets(c: Config, owners: seq<seq<RawEdge>>, key: Key, valid: int)
    requires c.Valid() && OwnersAcceptable(c, owners)
    ensures RealTargets(c, GatedHits(c, owners, key, valid))
  {
    HitTargets(c, owners, key, |owners|);
    assert ResolveOwners(c, owners)[..|owners|] == ResolveOwners(c, owners);
  }

  lemma {:induction false} JoinedBits(slots: seq<seq<Slot>>)
    requires forall o :: 0 <= o < |slots| ==> BitSlots(slots[o])
    ensures BitSlots(Joined(slots))
  {
    if slots != [] {
      JoinedBits(slots[..|slots| - 1]);
    }
  }

  method CompactOwners(c: Config, slots: seq<seq<Slot>>, width: nat) returns (frontier: seq<Slot>)
    requires forall o :: 0 <= o < |slots| ==> BitSlots(slots[o]) && RealTargets(c, Live(slots[o]))
    ensures frontier == Joined(CompactEach(slots, width)) && BitSlots(frontier)
    ensures |frontier| == Times(|slots|, width)
    ensures forall f :: 0 <= f < |frontier| ==> frontier[f].target >= 0
  {
    frontier := [];
    TimesFacts(0, width);
    for o := 0 to |slots|
      invariant frontier == Joined(CompactEach(slots[..o], width)) && BitSlots(frontier)
      invariant |frontier| == Times(o, width)
      invariant forall f :: 0 <= f < |frontier| ==> frontier[f].target >= 0
    {
      TimesFacts(o, width);
      hide Times, Live;
      var compacted := StableCompaction(slots[o], width);
      assert CompactEach(slots[..o + 1], width)[..o] == CompactEach(slots[..o], width);
      frontier := frontier + compacted;
    }
    assert slots[..|slots|] == slots;
  }

  // --- Hop two ------------------------------------------------------------------------

  /** Hop two's gates: the key's validity, and its entity and address when valid, zeros otherwise. */
  method SecondGate(c: Config, slot: Slot, relation: nat) returns (valid: int, entity: nat, address: nat)
    requires c.Valid() && IsBit(slot.valid) && slot.target >= 0
    ensures valid == if slot.valid == 1 && c.InRange(Key(slot.target, relation)) then 1 else 0
    ensures entity == (if valid == 1 then slot.target else 0) && entity < c.EntityCount()
    ensures relation >= 1 || valid != 1
    ensures address == MainAddress(c, Key(entity, relation), valid)
  {
    var ok, direct := DirectoryAddress(c, slot.target, relation);
    BitProduct(ok, slot.valid);
    valid := ok * slot.valid;
    entity := IfElse(valid, slot.target, 0);
    address := IfElse(valid, direct, 0);
  }

  /** Keys no edge can have match nothing. */
  lemma {:induction false} OutOfRangeHits(c: Config, owners: seq<seq<RawEdge>>, key: Key, n: nat)
    requires c.Valid() && OwnersAcceptable(c, owners) && !c.InRange(key) && n <= |owners|
    ensures KeyHits(ResolveOwners(c, owners)[..n], key) == []
  {
    if n > 0 {
      KeyHitsStep(c, owners, key, n - 1);
      OutOfRangeHits(c, owners, key, n - 1);
      DummyKeyIsEmpty(c, owners[n - 1], key);
    }
  }

  /** A gated read returns the key's matches whatever the key is. */
  lemma {:induction false} GatedHitsAreHits(c: Config, owners: seq<seq<RawEdge>>, key: Key, valid: int)
    requires c.Valid() && OwnersAcceptable(c, owners) && valid == if c.InRange(key) then 1 else 0
    ensures GatedHits(c, owners, key, valid) == KeyHits(ResolveOwners(c, owners), key)
  {
    if valid == 0 {
      OutOfRangeHits(c, owners, key, |owners|);
      assert ResolveOwners(c, owners)[..|owners|] == ResolveOwners(c, owners);
    }
  }

  /** A second-hop row of slots: full width, and carrying the matches of its frontier slot's target. */
  ghost predicate Follows(c: Config, owners: seq<seq<RawEdge>>, relation: nat, first: Slot, row: seq<Slot>) {
    && OwnersAcceptable(c, owners)
    && |row| == Times(c.owners, c.SlotsPerKey()) && BitSlots(row)
    && (first.valid == 1 ==> Live(row) == SecondHop(ResolveOwners(c, owners), relation)(first.target))
  }

  lemma {:induction false} JoinedLength(slots: seq<seq<Slot>>, size: nat)
    requires forall o :: 0 <= o < |slots| ==> |slots[o]| == size
    ensures |Joined(slots)| == Times(|slots|, size)
  {
    TimesFacts(|slots|, size);
    hide Times;
    if slots != [] {
      JoinedLength(slots[..|slots| - 1], size);
    }
  }

  lemma {:induction false} CarriesFollows(c: Config, owners: seq<seq<RawEdge>>, relation: nat, first: Slot,
                                          entity: nat, valid: int, slots: seq<seq<Slot>>)
    requires c.Valid() && |owners| == c.owners && IsBit(first.valid) && first.target >= 0
    requires valid == if first.valid == 1 && c.InRange(Key(first.target, relation)) then 1 else 0
    requires entity == if valid == 1 then first.target else 0
    requires Carries(c, owners, Key(entity, relation), valid, slots)
    ensures Follows(c, owners, relation, first, Joined(slots))
  {
    assert forall o :: 0 <= o < |slots| ==> CarriesOne(c, owners, Key(entity, relation), valid, o, slots[o]);
    JoinedBits(slots);
    JoinedLength(slots, c.SlotsPerKey());
    AllHits(c, owners, Key(entity, relation), valid, slots);
    if first.valid == 1 {
      GatedHitsAreHits(c, owners, Key(first.target, relation), valid);
      if valid == 0 {
        assert KeyHits(ResolveOwners(c, owners), Key(first.target, relation)) == [];
      }
    }
  }

  /** One dependent read, through whatever is folded. */
  method ReadSecondSlot(c: Config, ghost owners: seq<seq<RawEdge>>, ghost layouts: seq<Layout>, tables: Tables, ghost filings: seq<seq<seq<Filed>>>,
                        sw: Switches, folds: Folds, first: Slot, relation: nat, ghost index: nat) returns (row: seq<Slot>)
    requires Deployed(c, owners, layouts, tables, filings) && FoldsHold(c, tables, sw, index, folds)
    requires IsBit(first.valid) && first.target >= 0
    requires 1 <= relation <= c.RelationCount() ==> index == relation - 1
    ensures Follows(c, owners, relation, first, row)
  {
    DeployedParts(c, owners, layouts, tables, filings);
    var valid, entity, address := SecondGate(c, first, relation);
    SecondKey(c, first, relation, entity, valid);
    ghost var ds;
    var read;
    hide *;
    read, ds := FetchSecond(c, owners, layouts, tables, filings, sw, folds, index, entity, relation, valid, address);
    var slots := ReadKeySlots(c, owners, layouts, tables.pools, Key(entity, relation), valid, read, ds);
    CarriesFollows(c, owners, relation, first, entity, valid, slots);
    row := Joined(slots);
  }

  lemma {:induction false} SecondKey(c: Config, first: Slot, relation: nat, entity: nat, valid: int)
    requires valid == if first.valid == 1 && first.target >= 0 && c.InRange(Key(first.target, relation)) then 1 else 0
    requires entity == if valid == 1 then first.target else 0
    ensures IsBit(valid) && (valid == 1 ==> c.InRange(Key(entity, relation)) && 1 <= relation <= c.RelationCount())
  {
  }

  lemma {:induction false} SlotIsBit(slots: seq<Slot>, i: nat)
    requires BitSlots(slots) && i < |slots|
    ensures IsBit(slots[i].valid)
  {
  }

  /** Hop two: fold the relation out once, then read every frontier slot. */
  method SecondHopRows(c: Config, ghost owners: seq<seq<RawEdge>>, ghost layouts: seq<Layout>, tables: Tables, ghost filings: seq<seq<seq<Filed>>>,
                       sw: Switches, frontier: seq<Slot>, relation: nat) returns (rows: seq<seq<Slot>>)
    requires Deployed(c, owners, layouts, tables, filings) && sw.chunk >= 1
    requires BitSlots(frontier) && forall f :: 0 <= f < |frontier| ==> frontier[f].target >= 0
    ensures |rows| == |frontier|
    ensures forall f :: 0 <= f < |rows| ==> Follows(c, owners, relation, frontier[f], rows[f])
  {
    hide *;
    var folds;
    ghost var index;
    folds, index := FoldAll(c, owners, layouts, tables, filings, sw, relation);
    rows := [];
    for f := 0 to |frontier|
      invariant |rows| == f
      invariant forall i :: 0 <= i < f ==> Follows(c, owners, relation, frontier[i], rows[i])
    {
      SlotIsBit(frontier, f);
      var row := ReadSecondSlot(c, owners, layouts, tables, filings, sw, folds, frontier[f], relation, index);
      rows := rows + [row];
    }
  }

  // --- One query, and the whole program ---------------------------------------------------

  /** A query by secret identifiers; identifiers out of range simply match nothing. */
  datatype SecretQuery = SecretQuery(source: nat, relation1: nat, relation2: nat)

  /** What the circuit must rank for a query: the followed first-hop matches, extended. */
  ghost function CircuitPaths(c: Config, owners: seq<seq<RawEdge>>, q: SecretQuery): seq<Candidate>
    requires OwnersAcceptable(c, owners)
  {
    Paths(Followed(c, KeyHits(ResolveOwners(c, owners), Key(q.source, q.relation1))),
          SecondHop(ResolveOwners(c, owners), q.relation2))
  }

  /** `frontier_slots`. */
  function FrontierSlots(c: Config): nat {
    match c.globalFrontier
    case Some(width) => width
    case None => Times(c.owners, c.OwnerFrontier())
  }

  /** `candidate_count`. */
  function CandidateSlots(c: Config): nat {
    Times(FrontierSlots(c), Times(c.owners, c.SlotsPerKey()))
  }

  /** A lane whose valid candidates are the query's paths. */
  ghost predicate LaneOf(c: Config, owners: seq<seq<RawEdge>>, q: SecretQuery, lane: Lane) {
    && OwnersAcceptable(c, owners) && lane.WellFormed(CandidateSlots(c))
    && Valid(lane, CandidateSlots(c)) == CircuitPaths(c, owners, q)
  }

  /** The followed matches of the first hop. */
  ghost predicate FrontierOf(c: Config, owners: seq<seq<RawEdge>>, q: SecretQuery, frontier: seq<Slot>) {
    && OwnersAcceptable(c, owners) && BitSlots(frontier) && |frontier| == FrontierSlots(c)
    && (forall f :: 0 <= f < |frontier| ==> frontier[f].target >= 0)
    && Live(frontier) == Followed(c, KeyHits(ResolveOwners(c, owners), Key(q.source, q.relation1)))
  }

  /** Hop one and its compaction. */
  method FirstHopSlots(c: Config, ghost owners: seq<seq<RawEdge>>, ghost layouts: seq<Layout>, tables: Tables,
                       ghost filings: seq<seq<seq<Filed>>>, q: SecretQuery) returns (frontier: seq<Slot>)
    requires Deployed(c, owners, layouts, tables, filings)
    ensures FrontierOf(c, owners, q, frontier)
  {
    ghost var key := Key(q.source, q.relation1);
    ghost var ds;
    var valid, address, row;
    DeployedParts(c, owners, layouts, tables, filings);
    FederationFacts(c, owners, layouts);
    valid, address := DirectoryAddress(c, q.source, q.relation1);
    FirstKey(c, key, valid);
    hide *;
    row, ds := ReadUnfolded(c, owners, layouts, tables, filings, q.source, q.relation1, valid, address);
    var hop1 := ReadKeySlots(c, owners, layouts, tables.pools, key, valid, row, ds);
    frontier := CompactFrontier(c, owners, key, valid, hop1);
    GatedHitsAreHits(c, owners, key, valid);
    FrontierIs(c, owners, q, frontier);
  }

  lemma {:induction false} FirstKey(c: Config, key: Key, valid: int)
    requires valid == if c.InRange(key) then 1 else 0
    ensures IsBit(valid) && (valid == 1 ==> c.InRange(key))
  {
  }

  lemma {:induction false} FrontierIs(c: Config, owners: seq<seq<RawEdge>>, q: SecretQuery, frontier: seq<Slot>)
    requires OwnersAcceptable(c, owners) && BitSlots(frontier) && |frontier| == FrontierSlots(c)
    requires forall f :: 0 <= f < |frontier| ==> frontier[f].target >= 0
    requires Live(frontier) == Followed(c, KeyHits(ResolveOwners(c, owners), Key(q.source, q.relation1)))
    ensures FrontierOf(c, owners, q, frontier)
  {
  }

  lemma {:induction false} FrontierFacts(c: Config, owners: seq<seq<RawEdge>>, q: SecretQuery, frontier: seq<Slot>)
    requires FrontierOf(c, owners, q, frontier)
    ensures BitSlots(frontier) && forall f :: 0 <= f < |frontier| ==> frontier[f].target >= 0
  {
  }

  /** One query: both hops and candidate formation. */
  method QueryLane(c: Config, ghost owners: seq<seq<RawEdge>>, ghost layouts: seq<Layout>, tables: Tables,
                   ghost filings: seq<seq<seq<Filed>>>, sw: Switches, q: SecretQuery) returns (lane: Lane)
    requires Deployed(c, owners, layouts, tables, filings) && sw.chunk >= 1
    ensures LaneOf(c, owners, q, lane)
  {
    hide *;
    var frontier := FirstHopSlots(c, owners, layouts, tables, filings, q);
    FrontierFacts(c, owners, q, frontier);
    var rows := SecondHopRows(c, owners, layouts, tables, filings, sw, frontier, q.relation2);
    lane := FinishLane(c, owners, q, frontier, rows);
  }

  method FinishLane(c: Config, ghost owners: seq<seq<RawEdge>>, ghost q: SecretQuery,
                    frontier: seq<Slot>, rows: seq<seq<Slot>>) returns (lane: Lane)
    requires FrontierOf(c, owners, q, frontier)
    requires |rows| == |frontier| && forall f :: 0 <= f < |rows| ==> Follows(c, owners, q.relation2, frontier[f], rows[f])
    ensures LaneOf(c, owners, q, lane)
  {
    lane := FormCandidates(frontier, rows, Times(c.owners, c.SlotsPerKey()));
    SlotPathsArePaths(frontier, rows, SecondHop(ResolveOwners(c, owners), q.relation2));
  }

  /** The rows every query must get. */
  ghost predicate AnswerOf(c: Config, owners: seq<seq<RawEdge>>, q: SecretQuery, rows: seq<Row>) {
    OwnersAcceptable(c, owners) && rows == TopK(CircuitPaths(c, owners, q), c.topK, c.dedup)
  }

  lemma {:induction false} LanesReady(c: Config, owners: seq<seq<RawEdge>>, queries: seq<SecretQuery>, lanes: seq<Lane>)
    requires |lanes| == |queries|
    requires forall i :: 0 <= i < |lanes| ==> LaneOf(c, owners, queries[i], lanes[i])
    ensures forall i :: 0 <= i < |lanes| ==> lanes[i].WellFormed(CandidateSlots(c))
  {
  }

  lemma {:induction false} LaneAnswer(c: Config, owners: seq<seq<RawEdge>>, q: SecretQuery, lane: Lane, rows: seq<Row>)
    requires LaneOf(c, owners, q, lane) && lane.WellFormed(CandidateSlots(c))
    requires rows == TopK(Valid(lane, CandidateSlots(c)), c.topK, c.dedup)
    ensures AnswerOf(c, owners, q, rows)
  {
    hide TopK, CircuitPaths, Valid;
  }

  /**
   * The whole program.  A single query is ranked by the scalar circuit and a batch by the
   * vectorised one; either way every query gets the rows of its followed paths.
   */
  method RunProgram(c: Config, ghost owners: seq<seq<RawEdge>>, ghost layouts: seq<Layout>, tables: Tables,
                    ghost filings: seq<seq<seq<Filed>>>, sw: Switches, queries: seq<SecretQuery>) returns (results: seq<seq<Row>>)
    requires Deployed(c, owners, layouts, tables, filings) && sw.chunk >= 1
    ensures |results| == |queries|
    ensures forall q :: 0 <= q < |queries| ==> AnswerOf(c, owners, queries[q], results[q])
  {
    hide *;
    var lanes: seq<Lane> := [];
    for q := 0 to |queries|
      invariant |lanes| == q
      invariant forall i :: 0 <= i < q ==> LaneOf(c, owners, queries[i], lanes[i])
    {
      var lane := QueryLane(c, owners, layouts, tables, filings, sw, queries[q]);
      lanes := lanes + [lane];
    }
    LanesReady(c, owners, queries, lanes);
    if |queries| == 1 {
      var rows := RankScalar(lanes[0], CandidateSlots(c), c.topK, c.dedup);
      results := [rows];
    } else {
      results := RankBatch(lanes, CandidateSlots(c), c.topK, c.dedup);
    }
    forall q | 0 <= q < |queries|
      ensures AnswerOf(c, owners, queries[q], results[q])
    {
      LaneAnswer(c, owners, queries[q], lanes[q], results[q]);
    }
  }

  // --- The circuit against the oracle -----------------------------------------------------

  /** A longer frontier only appends paths, and appends none exactly when the extra matches lead nowhere. */
  lemma {:induction false} PathsPrefix(firsts: seq<Hit>, second: int -> seq<Hit>, n: nat)
    requires n <= |firsts|
    ensures Paths(firsts[..n], second) <= Paths(firsts, second)
    ensures Paths(firsts[..n], second) == Paths(firsts, second)
       <==> forall i :: n <= i < |firsts| ==> second(firsts[i].target) == []
  {
    if n < |firsts| {
      var m := |firsts| - 1;
      PathsPrefix(firsts[..m], second, n);
      assert firsts[..m][..n] == firsts[..n];
      assert forall i :: n <= i < m ==> firsts[..m][i] == firsts[i];
      assert |Paths(firsts, second)| == |Paths(firsts[..m], second)| + |second(firsts[m].target)|;
    } else {
      assert firsts[..n] == firsts;
    }
  }

  lemma {:induction false} PathsAre(c: Config, owners: seq<seq<RawEdge>>, q: SecretQuery)
    requires OwnersAcceptable(c, owners)
    ensures var rs := ResolveOwners(c, owners);
      && CircuitPaths(c, owners, q) == Paths(Followed(c, KeyHits(rs, Key(q.source, q.relation1))), SecondHop(rs, q.relation2))
      && QueryPaths(rs, q.source, q.relation1, q.relation2) == Paths(KeyHits(rs, Key(q.source, q.relation1)), SecondHop(rs, q.relation2))
  {
    hide KeyHits, SecondHop, Paths, Followed, OwnersAcceptable;
  }

  lemma {:induction false} FollowsPrefix(c: Config, hits: seq<Hit>)
    ensures |Followed(c, hits)| <= |hits| && hits[..|Followed(c, hits)|] == Followed(c, hits)
  {
  }

  lemma {:induction false} FollowsAll(c: Config, owners: seq<seq<RawEdge>>, key: Key)
    requires OwnersAcceptable(c, owners) && FrontierHolds(c, owners, key)
    ensures Followed(c, KeyHits(ResolveOwners(c, owners), key)) == KeyHits(ResolveOwners(c, owners), key)
  {
  }

  /**
   * What the declared federation-wide frontier costs.  The circuit ranks a prefix of the
   * query's paths, and it ranks all of them exactly when every match beyond the frontier is
   * a dead end; in particular whenever the oracle's frontier test passes.
   */
  lemma {:induction false} FrontierCost(c: Config, owners: seq<seq<RawEdge>>, q: SecretQuery)
    requires OwnersAcceptable(c, owners)
    ensures var rs := ResolveOwners(c, owners);
      var hits, truth := KeyHits(rs, Key(q.source, q.relation1)), QueryPaths(rs, q.source, q.relation1, q.relation2);
      && CircuitPaths(c, owners, q) <= truth
      && (CircuitPaths(c, owners, q) == truth <==>
            forall i :: |Followed(c, hits)| <= i < |hits| ==> SecondHop(rs, q.relation2)(hits[i].target) == [])
      && (FrontierHolds(c, owners, Key(q.source, q.relation1)) ==> CircuitPaths(c, owners, q) == truth)
  {
    var rs := ResolveOwners(c, owners);
    var hits := KeyHits(rs, Key(q.source, q.relation1));
    PathsAre(c, owners, q);
    FollowsPrefix(c, hits);
    if FrontierHolds(c, owners, Key(q.source, q.relation1)) {
      FollowsAll(c, owners, Key(q.source, q.relation1));
    }
    hide *;
    PathsPrefix(hits, SecondHop(rs, q.relation2), |Followed(c, hits)|);
  }

  /** The identifiers a client shares for a named query; a name outside the catalogue becomes the reserved 0. */
  function SecretOf(c: Config, q: Query): SecretQuery
    requires c.Valid()
  {
    SecretQuery(if q.source in c.entities then c.entities[q.source] else 0,
                if q.relation1 in c.relations then c.relations[q.relation1] else 0,
                if q.relation2 in c.relations then c.relations[q.relation2] else 0)
  }

  lemma {:induction false} NoSeconds(firsts: seq<Hit>, second: int -> seq<Hit>)
    requires forall i :: 0 <= i < |firsts| ==> second(firsts[i].target) == []
    ensures Paths(firsts, second) == []
  {
    if firsts != [] {
      NoSeconds(firsts[..|firsts| - 1], second);
    }
  }

  /** A query with a name outside the catalogue matches nothing: all its rows are zero. */
  lemma {:induction false} UnknownMatchesNothing(c: Config, owners: seq<seq<RawEdge>>, q: Query, rows: seq<Row>)
    requires c.Valid() && OwnersAcceptable(c, owners) && !QueryKnown(c, q) && AnswerOf(c, owners, SecretOf(c, q), rows)
    ensures |rows| == c.topK
    ensures forall i :: 0 <= i < |rows| ==> rows[i].valid == 0 && rows[i].left == 0 && rows[i].right == 0 && rows[i].score == 0
  {
    var s := SecretOf(c, q);
    var rs := ResolveOwners(c, owners);
    assert rs[..|owners|] == rs;
    var firsts := Followed(c, KeyHits(rs, Key(s.source, s.relation1)));
    if s.source == 0 || s.relation1 == 0 {
      OutOfRangeHits(c, owners, Key(s.source, s.relation1), |owners|);
    } else {
      assert s.relation2 == 0;
      forall i | 0 <= i < |firsts|
        ensures SecondHop(rs, 0)(firsts[i].target) == []
      {
        if firsts[i].target >= 0 {
          OutOfRangeHits(c, owners, Key(firsts[i].target, 0), |owners|);
        }
      }
      NoSeconds(firsts, SecondHop(rs, 0));
    }
    PathsAre(c, owners, s);
    assert CircuitPaths(c, owners, s) == [];
    hide Config.Valid, KeyHits, SecondHop, OwnersAcceptable;
  }

  /** What the oracle answers are the rows the circuit must rank. */
  lemma {:induction false} AnswersAgree(c: Config, owners: seq<seq<RawEdge>>, q: Query, extra: bool, r: Result<seq<Row>>)
    requires c.Valid() && Answers(c, owners, q, extra, r) && r.Ok?
    ensures AnswerOf(c, owners, SecretOf(c, q), r.value)
  {
    FrontierCost(c, owners, SecretOf(c, q));
  }

  /**
   * What a run of the circuit yields: rows for every query, unless an owner's data or an
   * index does not fit, or the hashed store is a single row and its selector two.
   */
  ghost predicate RanOn(c: Config, owners: seq<seq<RawEdge>>, layouts: seq<Layout>, queries: seq<Query>, circuit: Option<seq<seq<Row>>>) {
    && c.Valid() && (OwnersFit(c, owners) ==> Federation(c, owners, layouts))
    && (circuit.Some? <==> OwnersFit(c, owners) && Indexes(c, layouts) && SelectorsFit(c))
    && (circuit.Some? ==>
          && |circuit.value| == |queries|
          && forall i :: 0 <= i < |queries| ==> AnswerOf(c, owners, SecretOf(c, queries[i]), circuit.value[i]))
  }

  /** From the owners' edges, through the layouts they build and the shares they send, to the rows. */
  method RunCircuit(c: Config, owners: seq<seq<RawEdge>>, queries: seq<Query>, sw: Switches, p: nat, draw: Draw)
    returns (circuit: Option<seq<seq<Row>>>, ghost layouts: seq<Layout>)
    requires c.Valid() && Renderable(c) && FieldCarries(c, p, draw) && |owners| == c.owners && sw.chunk >= 1
    ensures RanOn(c, owners, layouts, queries, circuit)
  {
    NotRun(c, owners, queries);
    hide *;
    circuit, layouts := None, [];
    var built := BuildAll(c, owners);
    if built.Err? {
      return;
    }
    layouts := built.value;
    var tables;
    ghost var filings;
    tables, filings := Assemble(c, owners, built.value, p, draw);
    if tables.Some? && SelectorsFit(c) {
      var secret := seq(|queries|, i requires 0 <= i < |queries| => SecretOf(c, queries[i]));
      var results := RunProgram(c, owners, built.value, tables.value, filings, sw, secret);
      circuit := Some(results);
      assert forall i :: 0 <= i < |queries| ==> secret[i] == SecretOf(c, queries[i]);
    }
    Ran(c, owners, built.value, queries, circuit);
  }

  lemma {:induction false} NotRun(c: Config, owners: seq<seq<RawEdge>>, queries: seq<Query>)
    requires c.Valid()
    ensures c.pageBudget >= 1
    ensures !OwnersFit(c, owners) ==> RanOn(c, owners, [], queries, None)
  {
  }

  lemma {:induction false} Ran(c: Config, owners: seq<seq<RawEdge>>, layouts: seq<Layout>, queries: seq<Query>, circuit: Option<seq<seq<Row>>>)
    requires Federation(c, owners, layouts) && c.Valid() && OwnersFit(c, owners)
    requires circuit.Some? <==> Indexes(c, layouts) && SelectorsFit(c)
    requires circuit.Some? ==> |circuit.value| == |queries|
    requires circuit.Some? ==> forall i :: 0 <= i < |queries| ==> AnswerOf(c, owners, SecretOf(c, queries[i]), circuit.value[i])
    ensures RanOn(c, owners, layouts, queries, circuit)
  {
    hide Federation, OwnersFit, Indexes, SelectorsFit, AnswerOf;
  }

  /** Every query both the circuit and the oracle answer gets the same rows. */
  ghost predicate SameAnswers(circuit: Option<seq<seq<Row>>>, oracle: seq<Result<seq<Row>>>) {
    circuit.Some? ==>
      && |circuit.value| == |oracle|
      && forall i :: 0 <= i < |oracle| && oracle[i].Ok? ==> circuit.value[i] == oracle[i].value
  }

  lemma {:induction false} RowsAreSame(c: Config, owners: seq<seq<RawEdge>>, queries: seq<Query>, extra: bool,
                                       rows: seq<seq<Row>>, oracle: seq<Result<seq<Row>>>)
    requires c.Valid() && |rows| == |oracle| == |queries|
    requires forall i :: 0 <= i < |queries| ==> AnswerOf(c, owners, SecretOf(c, queries[i]), rows[i])
    requires forall i :: 0 <= i < |queries| ==> Answers(c, owners, queries[i], extra, oracle[i])
    ensures SameAnswers(Some(rows), oracle)
  {
    forall i | 0 <= i < |oracle| && oracle[i].Ok?
      ensures rows[i] == oracle[i].value
    {
      AnswersAgree(c, owners, queries[i], extra, oracle[i]);
    }
  }

  /** A run, against the oracle's answers. */
  lemma {:induction false} RunIsSame(c: Config, owners: seq<seq<RawEdge>>, layouts: seq<Layout>, queries: seq<Query>,
                                     circuit: Option<seq<seq<Row>>>, oracle: seq<Result<seq<Row>>>)
    requires RanOn(c, owners, layouts, queries, circuit) && |oracle| == |queries| && c.Valid()
    requires forall i :: 0 <= i < |queries| ==> Answers(c, owners, queries[i], true, oracle[i])
    ensures SameAnswers(circuit, oracle)
  {
    if circuit.Some? {
      RowsAreSame(c, owners, queries, true, circuit.value, oracle);
    }
    hide Answers, AnswerOf, SecretOf;
  }

  /** The cleartext oracle on every query. */
  method AskOracle(c: Config, owners: seq<seq<RawEdge>>, queries: seq<Query>) returns (oracle: seq<Result<seq<Row>>>)
    requires c.Valid()
    ensures |oracle| == |queries| && forall i :: 0 <= i < |queries| ==> Answers(c, owners, queries[i], true, oracle[i])
  {
    oracle := [];
    hide *;
    for i := 0 to |queries|
      invariant |oracle| == i && forall j :: 0 <= j < i ==> Answers(c, owners, queries[j], true, oracle[j])
    {
      var r := EvaluatePaged(c, owners, queries[i]);
      oracle := oracle + [r];
    }
  }

  /**
   * The circuit on shared data against the oracle, for any owners' edges, any draws, any batch
   * of queries, any directory form, folded or not.  The oracle answers exactly under its own
   * checks; the circuit runs exactly when the owners' data fits, the declared hash tables have
   * room and the first hop's selector is as tall as the hashed store; and every query both
   * answer gets the same rows -- ties, deduplication and padding included.
   */
  method AgreesWithOracle(c: Config, owners: seq<seq<RawEdge>>, queries: seq<Query>, sw: Switches, p: nat, draw: Draw)
    returns (oracle: seq<Result<seq<Row>>>, circuit: Option<seq<seq<Row>>>, ghost layouts: seq<Layout>)
    requires c.Valid() && Renderable(c) && FieldCarries(c, p, draw) && |owners| == c.owners && sw.chunk >= 1
    ensures |oracle| == |queries| && forall i :: 0 <= i < |queries| ==> Answers(c, owners, queries[i], true, oracle[i])
    ensures RanOn(c, owners, layouts, queries, circuit)
    ensures SameAnswers(circuit, oracle)
  {
    NotRun(c, owners, queries);
    hide *;
    oracle := AskOracle(c, owners, queries);
    circuit, layouts := RunCircuit(c, owners, queries, sw, p, draw);
    RunIsSame(c, owners, layouts, queries, circuit, oracle);
  }
}
