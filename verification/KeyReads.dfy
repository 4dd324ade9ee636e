// Reading one key through whichever tables a configuration stores: the affine
// directory, the hashed directory, or both added up.
module KeyReads {
  import opened Wrappers
  import opened Gates
  import opened Bits
  import opened PageConfig
  import opened OwnerEdges
  import opened PageLayout
  import opened PackedDirectory
  import opened ObliviousRead
  import opened PageReads
  import opened BucketTable
  import opened PagedEvaluation
  import opened DirectoryReads

  /** What the servers hold: the affine directory, the hashed one, and every owner's page pool. */
  datatype Tables = Tables(main: seq<seq<nat>>, residual: seq<seq<nat>>, pools: seq<seq<seq<nat>>>)

  /** The stored tables match the owners' layouts; `filings` are the hashed keys, table by table. */
  ghost predicate StoredTables(c: Config, layouts: seq<Layout>, tables: Tables, filings: seq<seq<seq<Filed>>>) {
    match c.addressing
    case Dense(None) => Assembled(c, layouts, tables.main)
    case Dense(Some(b)) => ResidualHolds(c, b, layouts, tables.residual, filings)
    case Blocked(_, b) => Assembled(c, layouts, tables.main) && ResidualHolds(c, b, layouts, tables.residual, filings)
  }

  /** The pools are the owners' page pools. */
  ghost predicate PoolsAre(layouts: seq<Layout>, pools: seq<seq<seq<nat>>>) {
    |pools| == |layouts| && forall o :: 0 <= o < |layouts| ==> pools[o] == layouts[o].pages
  }

  /** Lossless layouts of the owners' edges, and tables that store them. */
  ghost predicate Tabled(c: Config, owners: seq<seq<RawEdge>>, layouts: seq<Layout>, tables: Tables, filings: seq<seq<seq<Filed>>>) {
    && Federation(c, owners, layouts) && c.DescriptorBits() <= c.usableBits
    && StoredTables(c, layouts, tables, filings) && PoolsAre(layouts, tables.pools)
  }

  /** The hashed directory, if there is one, is as tall as its selector. */
  ghost predicate SelectorsMatch(c: Config, tables: Tables) {
    match c.addressing
    case Dense(None) => true
    case Dense(Some(_)) => SelectorFits(|tables.residual|)
    case Blocked(_, _) => SelectorFits(|tables.residual|)
  }

  /** Stored tables that the rendered reads can be applied to. */
  ghost predicate Deployed(c: Config, owners: seq<seq<RawEdge>>, layouts: seq<Layout>, tables: Tables, filings: seq<seq<seq<Filed>>>) {
    Tabled(c, owners, layouts, tables, filings) && SelectorsMatch(c, tables)
  }

  /** The affine directory's part of a key: the owners' descriptors in its gated row. */
  ghost predicate MainRow(c: Config, layouts: seq<Layout>, key: Key, valid: int, row: seq<nat>, ds: seq<nat>) {
    && RowHolds(c, row, ds) && |layouts| == c.owners && (key.relation >= 1 || valid != 1)
    && forall o :: 0 <= o < c.owners ==>
      MainAddress(c, key, valid) < |layouts[o].directory| && ds[o] == layouts[o].directory[MainAddress(c, key, valid)]
  }

  // --- The hybrid sum -------------------------------------------------------------------

  /** No key lives in directory row zero. */
  lemma {:induction false} DummyRowEmpty(c: Config, layout: Layout)
    requires c.Valid() && OnlyKeysHeld(c, layout)
    ensures |layout.directory| == c.DirectoryRows() >= 1 && layout.directory[0] == 0
  {
    DirectoryNotEmpty(c);
    if layout.directory[0] != 0 {
      var key :| c.InRange(key) && c.Address(key) == Some(0);
      AddressInRange(c, key);
    }
  }

  /**
   * The two halves of the hybrid directory: at every key an edge could have, the affine row
   * and the residual add up to the descriptor, and at most one of them is occupied.
   */
  lemma {:induction false} HybridDescriptor(c: Config, layout: Layout, key: Key)
    requires c.Valid() && OnlyKeysHeld(c, layout) && c.addressing.Blocked? && c.InRange(key)
    ensures MainAddress(c, key, 1) < |layout.directory|
    ensures layout.directory[MainAddress(c, key, 1)] + ResidualOf(c, layout, key) == DescriptorOf(c, layout, key)
    ensures layout.directory[MainAddress(c, key, 1)] == 0 || ResidualOf(c, layout, key) == 0
  {
    MainAddressInRange(c, key, 1);
    if c.Address(key).Some? {
      if c.Tag(key) in layout.residual {
        var other :| c.InRange(other) && c.Address(other) == None && c.Tag(other) == c.Tag(key);
        TagInjective(c, key, other);
      }
    } else {
      DummyRowEmpty(c, layout);
    }
  }

  /** In a hashed-only configuration the residual is the whole descriptor. */
  lemma {:induction false} HashedDescriptor(c: Config, layout: Layout, key: Key)
    requires c.Valid() && OnlyKeysHeld(c, layout) && c.addressing.Dense? && c.InRange(key)
    ensures ResidualOf(c, layout, key) == DescriptorOf(c, layout, key)
  {
    DenseIndexInRange(c, key);
  }

  lemma {:induction false} DescriptorSmall(c: Config, rs: seq<Resolved>, layout: Layout, key: Key)
    requires Lossless(c, rs, layout) && c.InRange(key)
    ensures DescriptorOf(c, layout, key) < Pow2(c.DescriptorBits())
  {
    assert ReadsBack(c, rs, layout, key);
  }

  /** One owner's two halves, for a gated key. */
  lemma {:induction false} HalvesAdd(c: Config, rs: seq<Resolved>, layout: Layout, key: Key, valid: int)
    requires Lossless(c, rs, layout) && c.addressing.Blocked? && IsBit(valid) && (valid == 1 ==> c.InRange(key))
    requires MainAddress(c, key, valid) < |layout.directory|
    ensures var sum := layout.directory[MainAddress(c, key, valid)] + if valid == 1 then ResidualOf(c, layout, key) else 0;
      sum < Pow2(c.DescriptorBits()) && (valid == 1 ==> sum == DescriptorOf(c, layout, key))
  {
    if valid == 1 {
      HybridDescriptor(c, layout, key);
      DescriptorSmall(c, rs, layout, key);
    } else {
      DescriptorFits(c, rs, layout, 0);
    }
  }

  /** The two packed rows add up to the packed row of the descriptors. */
  lemma {:induction false} AddHalves(c: Config, owners: seq<seq<RawEdge>>, layouts: seq<Layout>, key: Key, valid: int,
                                     main: seq<nat>, mainDs: seq<nat>, residual: seq<nat>, residualDs: seq<nat>)
    requires Federation(c, owners, layouts) && c.addressing.Blocked? && IsBit(valid) && (valid == 1 ==> c.InRange(key))
    requires MainRow(c, layouts, key, valid, main, mainDs) && ResidualDescriptors(c, layouts, key, valid, residual, residualDs)
    ensures |main| == |residual| && |mainDs| == |residualDs|
    ensures Fetched(c, layouts, key, valid, SumOwners(main, residual), SumOwners(mainDs, residualDs))
  {
    PackedRowSum(c, mainDs, residualDs);
    var ds := SumOwners(mainDs, residualDs);
    forall o | 0 <= o < c.owners
      ensures ds[o] < Pow2(c.DescriptorBits()) && (valid == 1 ==> ds[o] == DescriptorOf(c, layouts[o], key))
    {
      HalvesAdd(c, ResolveOwners(c, owners)[o], layouts[o], key, valid);
    }
    hide PackedRow, MainAddress, ResidualOf, DescriptorOf, Lossless, Pow2;
  }

  /** A dense directory row alone is the descriptor. */
  lemma {:induction false} MainIsFetched(c: Config, layouts: seq<Layout>, key: Key, valid: int, row: seq<nat>, ds: seq<nat>)
    requires MainRow(c, layouts, key, valid, row, ds) && c.addressing.Dense? && IsBit(valid) && (valid == 1 ==> c.InRange(key))
    ensures Fetched(c, layouts, key, valid, row, ds)
  {
  }

  /** The hashed directory alone is the descriptor. */
  lemma {:induction false} ResidualIsFetched(c: Config, owners: seq<seq<RawEdge>>, layouts: seq<Layout>, key: Key, valid: int, row: seq<nat>, ds: seq<nat>)
    requires Federation(c, owners, layouts) && c.DescriptorBits() <= c.usableBits
    requires ResidualDescriptors(c, layouts, key, valid, row, ds) && c.addressing.Dense? && IsBit(valid) && (valid == 1 ==> c.InRange(key))
    ensures Fetched(c, layouts, key, valid, row, ds)
  {
    forall o | 0 <= o < c.owners
      ensures ds[o] < Pow2(c.DescriptorBits()) && (valid == 1 ==> ds[o] == DescriptorOf(c, layouts[o], key))
    {
      if valid == 1 {
        HashedDescriptor(c, layouts[o], key);
        DescriptorSmall(c, ResolveOwners(c, owners)[o], layouts[o], key);
      }
    }
    hide PackedRow, ResidualOf, DescriptorOf, Lossless, Pow2;
  }

  // --- Unfolded reads ---------------------------------------------------------------------

  lemma {:induction false} DeployedParts(c: Config, owners: seq<seq<RawEdge>>, layouts: seq<Layout>, tables: Tables, filings: seq<seq<seq<Filed>>>)
    requires Deployed(c, owners, layouts, tables, filings)
    ensures Federation(c, owners, layouts) && c.Valid() && c.DescriptorBits() <= c.usableBits && |layouts| == |owners| == c.owners
    ensures c.addressing.Blocked? || c.addressing.compact.None? ==> Assembled(c, layouts, tables.main)
    ensures c.addressing.Blocked? ==> ResidualHolds(c, c.addressing.residual, layouts, tables.residual, filings)
    ensures c.addressing.Dense? && c.addressing.compact.Some? ==>
      ResidualHolds(c, c.addressing.compact.value, layouts, tables.residual, filings)
    ensures c.addressing.Blocked? || c.addressing.compact.Some? ==> SelectorFits(|tables.residual|)
    ensures PoolsAre(layouts, tables.pools)
  {
    hide Assembled, ResidualHolds, Lossless, PoolsAre, SelectorFits;
  }

  lemma {:induction false} MainRowIs(c: Config, owners: seq<seq<RawEdge>>, layouts: seq<Layout>, table: seq<seq<nat>>, key: Key, valid: int)
    requires Federation(c, owners, layouts) && Assembled(c, layouts, table) && IsBit(valid) && (valid == 1 ==> c.InRange(key))
    ensures MainAddress(c, key, valid) < |table| && (forall o :: 0 <= o < |layouts| ==> MainAddress(c, key, valid) < |layouts[o].directory|)
    ensures MainRow(c, layouts, key, valid, table[MainAddress(c, key, valid)], RowDescriptors(layouts, MainAddress(c, key, valid)))
  {
    if valid == 1 {
      MainAddressInRange(c, key, valid);
    } else {
      DirectoryNotEmpty(c);
    }
    AssembledRow(c, owners, layouts, table, MainAddress(c, key, valid));
    hide MainAddress, PackedRow, Pow2, Lossless;
  }

  /** `read_directory` for one address. */
  method ReadMain(c: Config, ghost owners: seq<seq<RawEdge>>, ghost layouts: seq<Layout>, table: seq<seq<nat>>,
                  ghost key: Key, ghost valid: int, address: nat) returns (row: seq<nat>, ghost ds: seq<nat>)
    requires Federation(c, owners, layouts) && Assembled(c, layouts, table)
    requires IsBit(valid) && (valid == 1 ==> c.InRange(key)) && address == MainAddress(c, key, valid)
    ensures MainRow(c, layouts, key, valid, row, ds) && address < |table| && row == table[address]
  {
    MainRowIs(c, owners, layouts, table, key, valid);
    RowsAreRectangular(c, layouts, table);
    hide *;
    var read := ReadRow(table, address, IndexBits(|table|), DirectoryColumns(c));
    row := read;
    ds := RowDescriptors(layouts, address);
  }

  /** Hop one, and the ablated second hop: every stored table read at its own address. */
  method ReadUnfolded(c: Config, ghost owners: seq<seq<RawEdge>>, ghost layouts: seq<Layout>, tables: Tables,
                 ghost filings: seq<seq<seq<Filed>>>, entity: nat, relation: nat, valid: int, address: nat)
    returns (row: seq<nat>, ghost ds: seq<nat>)
    requires Deployed(c, owners, layouts, tables, filings) && IsBit(valid)
    requires (valid == 1 ==> c.InRange(Key(entity, relation))) && address == MainAddress(c, Key(entity, relation), valid)
    ensures Fetched(c, layouts, Key(entity, relation), valid, row, ds)
  {
    DeployedParts(c, owners, layouts, tables, filings);
    ghost var key := Key(entity, relation);
    match c.addressing
    case Dense(None) =>
      hide *;
      row, ds := ReadMain(c, owners, layouts, tables.main, key, valid, address);
      MainIsFetched(c, layouts, key, valid, row, ds);
    case Dense(Some(b)) =>
      UsesResidual(c, b);
      hide *;
      row, ds := ReadResidual(c, b, owners, layouts, tables.residual, filings, entity, relation, valid);
      ResidualIsFetched(c, owners, layouts, key, valid, row, ds);
    case Blocked(_, b) =>
      UsesResidual(c, b);
      hide *;
      var main, residual;
      ghost var mainDs, residualDs;
      main, mainDs := ReadMain(c, owners, layouts, tables.main, key, valid, address);
      residual, residualDs := ReadResidual(c, b, owners, layouts, tables.residual, filings, entity, relation, valid);
      AddHalves(c, owners, layouts, key, valid, main, mainDs, residual, residualDs);
      row, ds := SumOwners(main, residual), SumOwners(mainDs, residualDs);
  }

  lemma {:induction false} UsesResidual(c: Config, b: Buckets)
    requires c.Valid()
    requires c.addressing == Dense(Some(b)) || (c.addressing.Blocked? && c.addressing.residual == b)
    ensures Uses(c, b) && (b.partition ==> c.addressing.Blocked?)
  {
  }
}
