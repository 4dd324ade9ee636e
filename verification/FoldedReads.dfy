// Hop two reads many entities at one relation, so the circuit contracts the
// relation out of each table once per query. Each folded read returns what the
// unfolded read of the same key returns.
module FoldedReads {
  import opened Wrappers
  import opened Gates
  import opened Bits
  import opened PageConfig
  import opened OwnerEdges
  import opened PageLayout
  import opened PackedDirectory
  import opened ObliviousRead
  import opened PageReads
  import opened BucketTable
  import opened CompactRead
  import opened PagedEvaluation
  import opened DirectoryReads
  import opened KeyReads

  // --- The dense fold ---------------------------------------------------------------------

  /** The folded table holds, for each entity, the directory element of the shared relation. */
  ghost predicate Folded(c: Config, table: seq<seq<nat>>, folded: seq<seq<int>>, index: nat) {
    && c.pageBudget >= 1 && index < c.RelationCount()
    && |folded| == c.EntityCount() && Rectangular(folded, DirectoryColumns(c))
    && forall e :: 0 <= e < |folded| ==>
      Times(e, c.RelationCount()) + index < |table| && folded[e] == Cell(table, c.RelationCount(), e, index)
  }

  /** `fold_directory`. */
  method FoldDense(c: Config, ghost layouts: seq<Layout>, table: seq<seq<nat>>, index: nat, chunk: nat) returns (folded: seq<seq<int>>)
    requires c.addressing.Dense? && Assembled(c, layouts, table) && chunk >= 1 && index < c.RelationCount()
    ensures Folded(c, table, folded, index)
  {
    RowsAreRectangular(c, layouts, table);
    hide Assembled, Cell;
    folded := FoldTable(table, c.EntityCount(), c.RelationCount(), index, IndexBits(c.RelationCount()), chunk, DirectoryColumns(c));
  }

  /** `read_folded_directory` for one entity; a gated-off slot reads entity zero. */
  method ReadFoldedDense(c: Config, ghost owners: seq<seq<RawEdge>>, ghost layouts: seq<Layout>, ghost table: seq<seq<nat>>,
                         folded: seq<seq<int>>, entity: nat, ghost relation: nat, ghost index: nat, ghost valid: int)
    returns (row: seq<nat>, ghost ds: seq<nat>)
    requires c.addressing.Dense? && Federation(c, owners, layouts) && Assembled(c, layouts, table)
    requires Folded(c, table, folded, index) && entity < c.EntityCount() && IsBit(valid)
    requires valid == 1 ==> c.InRange(Key(entity, relation)) && index == relation - 1
    ensures Fetched(c, layouts, Key(entity, relation), valid, row, ds)
  {
    ghost var address := Times(entity, c.RelationCount()) + index;
    FoldedShape(c, table, folded, index, entity);
    AssembledRow(c, owners, layouts, table, address);
    FoldedFetch(c, owners, layouts, table, Key(entity, relation), index, valid);
    hide *;
    var read := ReadRow(folded, entity, IndexBits(|folded|), DirectoryColumns(c));
    row := read;
    ds := RowDescriptors(layouts, address);
  }

  lemma {:induction false} FoldedShape(c: Config, table: seq<seq<nat>>, folded: seq<seq<int>>, index: nat, entity: nat)
    requires Folded(c, table, folded, index) && entity < c.EntityCount()
    ensures c.pageBudget >= 1 && entity < |folded| && Rectangular(folded, DirectoryColumns(c))
    ensures Times(entity, c.RelationCount()) + index < |table| && folded[entity] == table[Times(entity, c.RelationCount()) + index]
  {
    hide DirectoryColumns;
  }

  lemma {:induction false} FoldedFetch(c: Config, owners: seq<seq<RawEdge>>, layouts: seq<Layout>, table: seq<seq<nat>>,
                                       key: Key, index: nat, valid: int)
    requires c.addressing.Dense? && Federation(c, owners, layouts) && Assembled(c, layouts, table) && IsBit(valid)
    requires valid == 1 ==> c.InRange(key) && index == key.relation - 1
    requires Times(key.source, c.RelationCount()) + index < |table|
    requires forall o :: 0 <= o < |layouts| ==> Times(key.source, c.RelationCount()) + index < |layouts[o].directory|
    requires RowHolds(c, table[Times(key.source, c.RelationCount()) + index], RowDescriptors(layouts, Times(key.source, c.RelationCount()) + index))
    ensures Fetched(c, layouts, key, valid, table[Times(key.source, c.RelationCount()) + index],
                    RowDescriptors(layouts, Times(key.source, c.RelationCount()) + index))
  {
    PoolCount(c, owners, layouts);
    hide Federation, PackedRow, Lossless;
  }

  // --- The type-block fold ------------------------------------------------------------------

  /** `max_block`: every folded block is padded to the widest. */
  function MaxWidth(blocks: seq<Block>): (m: nat)
    ensures forall r :: 0 <= r < |blocks| ==> blocks[r].width <= m
  {
    if blocks == [] then 0
    else
      var n := |blocks| - 1;
      var m := MaxWidth(blocks[..n]);
      if m < blocks[n].width then blocks[n].width else m
  }

  /** A relation's block lies inside the directory. */
  lemma {:induction false} BlockInside(t: TypeBlocks, e: nat, n: nat, r: nat)
    requires t.Valid(e, n) && r < n
    ensures 1 <= t.blocks[r].blockStart && t.blocks[r].blockStart + t.blocks[r].width <= t.TotalRows()
  {
    if 0 < r {
      BlocksInOrder(t, e, n, 0, r);
    }
    if r < n - 1 {
      BlocksInOrder(t, e, n, r, n - 1);
    }
  }

  /** Row `i` of a relation's block of directory rows, padded with zero rows. */
  function PaddedRow(table: seq<seq<int>>, b: Block, i: nat, width: nat): (r: seq<int>)
    requires b.blockStart + b.width <= |table| && Rectangular(table, width)
    ensures |r| == width
  {
    if i < b.width then table[b.blockStart + i] else ZeroRow(width)
  }

  function PaddedBlock(table: seq<seq<int>>, b: Block, height: nat, width: nat): (r: seq<seq<int>>)
    requires b.blockStart + b.width <= |table| && Rectangular(table, width)
    ensures |r| == height && Rectangular(r, width)
    ensures forall i :: 0 <= i < height ==> r[i] == PaddedRow(table, b, i, width)
  {
    seq(height, i requires 0 <= i < height => PaddedRow(table, b, i, width))
  }

  function ZeroBlock(height: nat, width: nat): (r: seq<seq<int>>)
    ensures |r| == height && Rectangular(r, width) && forall i :: 0 <= i < height ==> r[i] == ZeroRow(width)
  {
    seq(height, _ => ZeroRow(width))
  }

  /** `folded + weight * block`. */
  function AddBlock(sum: seq<seq<int>>, weight: int, block: seq<seq<int>>, width: nat): (r: seq<seq<int>>)
    requires |sum| == |block| && Rectangular(sum, width) && Rectangular(block, width)
    ensures |r| == |sum| && Rectangular(r, width) && forall i :: 0 <= i < |r| ==> r[i] == AddScaled(sum[i], weight, block[i])
  {
    seq(|sum|, i requires 0 <= i < |sum| => AddScaled(sum[i], weight, block[i]))
  }

  lemma {:induction false} AddBlockBit(sum: seq<seq<int>>, weight: int, block: seq<seq<int>>, width: nat)
    requires |sum| == |block| && Rectangular(sum, width) && Rectangular(block, width) && (weight == 0 || weight == 1)
    ensures weight == 0 ==> AddBlock(sum, weight, block, width) == sum
    ensures weight == 1 && sum == ZeroBlock(|sum|, width) ==> AddBlock(sum, weight, block, width) == block
  {
    forall i | 0 <= i < |sum|
      ensures weight == 0 ==> AddScaled(sum[i], weight, block[i]) == sum[i]
      ensures weight == 1 && sum[i] == ZeroRow(width) ==> AddScaled(sum[i], weight, block[i]) == block[i]
    {
      AddScaledBit(sum[i], weight, block[i]);
    }
    hide AddScaled;
  }

  /** The folded primary block and the bounds of its entities. */
  ghost predicate BlockFolded(c: Config, table: seq<seq<nat>>, folded: seq<seq<int>>, start: int, width: int, index: nat) {
    && c.Valid() && c.addressing.Blocked? && index < c.RelationCount()
    && var bs := c.addressing.blocks.blocks;
      && start == bs[index].typeStart && width == bs[index].width
      && |folded| == MaxWidth(bs) && Rectangular(folded, DirectoryColumns(c))
      && bs[index].blockStart + width <= |table| && Rectangular(table, DirectoryColumns(c))
      && folded == PaddedBlock(table, bs[index], MaxWidth(bs), DirectoryColumns(c))
  }

  lemma {:induction false} BlockIs(c: Config, table: seq<seq<nat>>, index: nat)
    requires c.Valid() && c.addressing.Blocked? && index < c.RelationCount()
    requires Rectangular(table, DirectoryColumns(c)) && |table| == c.DirectoryRows()
    ensures var b := c.addressing.blocks.blocks[index];
      && b.blockStart + b.width <= |table|
      && BlockFolded(c, table, PaddedBlock(table, b, MaxWidth(c.addressing.blocks.blocks), DirectoryColumns(c)), b.typeStart, b.width, index)
  {
    BlockInside(c.addressing.blocks, c.EntityCount(), c.RelationCount(), index);
    hide DirectoryColumns, MaxWidth;
  }

  /** `fold_type_block_directory`. */
  method FoldBlocks(c: Config, ghost layouts: seq<Layout>, table: seq<seq<nat>>, index: nat)
    returns (folded: seq<seq<int>>, start: int, width: int)
    requires c.addressing.Blocked? && Assembled(c, layouts, table) && index < c.RelationCount()
    ensures BlockFolded(c, table, folded, start, width, index)
  {
    var blocks := c.addressing.blocks;
    var bs := blocks.blocks;
    var columns := DirectoryColumns(c);
    RowsAreRectangular(c, layouts, table);
    var bits := IndexBits(c.RelationCount());
    var selector := Demux(index, bits);
    DemuxInRange(index, bits);
    folded, start, width := ZeroBlock(MaxWidth(bs), columns), 0, 0;
    forall r | 0 <= r < |bs|
      ensures bs[r].blockStart + bs[r].width <= |table|
    {
      BlockInside(blocks, c.EntityCount(), c.RelationCount(), r);
    }
    assert c.RelationCount() == |bs|;
    BlockIs(c, table, index);
    hide *;
    for r := 0 to |bs|
      invariant Rectangular(folded, columns) && |folded| == MaxWidth(bs)
      invariant folded == if index < r then PaddedBlock(table, bs[index], MaxWidth(bs), columns) else ZeroBlock(MaxWidth(bs), columns)
      invariant start == if index < r then bs[index].typeStart else 0
      invariant width == if index < r then bs[index].width else 0
    {
      var block := PaddedBlock(table, bs[r], MaxWidth(bs), columns);
      AddBlockBit(folded, selector[r], block, columns);
      folded := AddBlock(folded, selector[r], block, columns);
      start := start + Gate(selector[r], bs[r].typeStart);
      width := width + Gate(selector[r], bs[r].width);
    }
  }

  /** `active * fetched`. */
  function Mask(active: int, row: seq<int>): (r: seq<int>)
    ensures |r| == |row|
    ensures active == 1 ==> r == row
    ensures active == 0 ==> r == ZeroRow(|row|)
  {
    seq(|row|, i requires 0 <= i < |row| => active * row[i])
  }

  /** A packed row of empty descriptors is zero. */
  lemma {:induction false} ZeroDescriptors(c: Config, ds: seq<nat>)
    requires c.pageBudget >= 1 && |ds| <= c.owners && forall o :: 0 <= o < |ds| ==> ds[o] == 0
    ensures PackedRow(c, ds) == ZeroRow(DirectoryColumns(c))
  {
    if ds == [] {
      EmptyRow(c);
    } else {
      var n := |ds| - 1;
      ZeroDescriptors(c, ds[..n]);
      assert ds == ds[..n] + [0];
      AppendOwner(c, ds[..n], 0);
      ShiftZero(DirectorySlot(c, n).1);
    }
    hide PackedColumn, DirectoryColumns, DirectorySlot;
  }

  lemma {:induction false} ShiftZero(offset: nat)
    ensures ShiftLeft(0, offset) == 0
  {
  }

  /** The dummy row of an assembled directory is zero. */
  lemma {:induction false} DummyRowZero(c: Config, owners: seq<seq<RawEdge>>, layouts: seq<Layout>, table: seq<seq<nat>>)
    requires Federation(c, owners, layouts) && Assembled(c, layouts, table)
    ensures |table| > 0 && table[0] == ZeroRow(DirectoryColumns(c))
  {
    forall o | 0 <= o < |layouts|
      ensures |layouts[o].directory| > 0 && layouts[o].directory[0] == 0
    {
      DummyRowEmpty(c, layouts[o]);
    }
    DirectoryNotEmpty(c);
    ZeroDescriptors(c, RowDescriptors(layouts, 0));
  }

  /** `valid * in_block`. */
  function Active(valid: int, inBlock: int): (r: int)
    ensures valid == 0 ==> r == 0
    ensures valid == 1 ==> r == inBlock
  {
    valid * inBlock
  }

  /** The window row of an active slot is the row its unfolded address names. */
  lemma {:induction false} FoldedRowIs(c: Config, table: seq<seq<nat>>, folded: seq<seq<int>>, start: int, width: int, index: nat,
                                       key: Key, valid: int)
    requires BlockFolded(c, table, folded, start, width, index) && IsBit(valid)
    requires valid == 1 ==> c.InRange(key) && index == key.relation - 1
    ensures InBlock(key.source, start, width) == 1 ==> 0 <= key.source - start < |folded|
    ensures Active(valid, InBlock(key.source, start, width)) == 1 ==>
      MainAddress(c, key, valid) < |table| && folded[key.source - start] == table[MainAddress(c, key, valid)]
    ensures Active(valid, InBlock(key.source, start, width)) == 0 ==> (key.relation >= 1 || valid != 1) && MainAddress(c, key, valid) == 0
    ensures Active(valid, InBlock(key.source, start, width)) == 0 || Active(valid, InBlock(key.source, start, width)) == 1
    ensures Active(valid, InBlock(key.source, start, width)) == 1 ==> InBlock(key.source, start, width) == 1
    ensures c.pageBudget >= 1 && 0 < |folded| && Rectangular(folded, DirectoryColumns(c))
  {
    hide DirectoryColumns, Active;
  }

  /** The window row at a gated offset, masked by whether the slot is active. */
  method FetchWindow(folded: seq<seq<int>>, active: int, offset: int, columns: nat) returns (row: seq<int>)
    requires Rectangular(folded, columns) && |folded| > 0 && (active == 0 || active == 1)
    requires active == 1 ==> 0 <= offset < |folded|
    ensures row == if active == 1 then folded[offset] else ZeroRow(columns)
  {
    var gated := IfElse(active, offset, 0);
    var address: nat := gated;
    var fetched := ReadRow(folded, address, IndexBits(|folded|), columns);
    row := Mask(active, fetched);
  }

  /** `read_folded_type_block` for one slot: exactly the row the unfolded read fetches. */
  method ReadFoldedBlock(c: Config, ghost owners: seq<seq<RawEdge>>, ghost layouts: seq<Layout>, ghost table: seq<seq<nat>>,
                         folded: seq<seq<int>>, start: int, width: int, ghost index: nat, entity: nat, ghost relation: nat, valid: int)
    returns (row: seq<nat>)
    requires Federation(c, owners, layouts) && Assembled(c, layouts, table) && BlockFolded(c, table, folded, start, width, index)
    requires IsBit(valid) && (valid == 1 ==> c.InRange(Key(entity, relation)) && index == relation - 1)
    ensures relation >= 1 || valid != 1
    ensures MainAddress(c, Key(entity, relation), valid) < |table| && row == table[MainAddress(c, Key(entity, relation), valid)]
  {
    FoldedRowIs(c, table, folded, start, width, index, Key(entity, relation), valid);
    DummyRowZero(c, owners, layouts, table);
    hide *;
    var fetched := FetchWindow(folded, Active(valid, InBlock(entity, start, width)), entity - start, DirectoryColumns(c));
    row := fetched;
  }

  // --- The partitioned residual fold ----------------------------------------------------------

  /** The slice of one relation. */
  ghost predicate SliceFolded(b: Buckets, rows: seq<seq<nat>>, folded: seq<seq<int>>, index: nat) {
    && |folded| == b.Count() && Times(index, b.Count()) + b.Count() <= |rows|
    && forall k :: 0 <= k < |folded| ==> folded[k] == rows[Times(index, b.Count()) + k]
  }

  /** Relation `r`'s slice of a relation-major table. */
  function SliceOf(rows: seq<seq<int>>, size: nat, r: nat): (s: seq<seq<int>>)
    requires Times(r, size) + size <= |rows|
    ensures |s| == size && forall k :: 0 <= k < size ==> s[k] == rows[Times(r, size) + k]
  {
    rows[Times(r, size)..Times(r, size) + size]
  }

  /** `fold_partitioned_residuals` for one query: the selector times the relation-major table. */
  method FoldResidual(c: Config, b: Buckets, ghost layouts: seq<Layout>, rows: seq<seq<nat>>, ghost filings: seq<seq<seq<Filed>>>, index: nat)
    returns (folded: seq<seq<int>>)
    requires ResidualHolds(c, b, layouts, rows, filings) && b.partition && index < c.RelationCount()
    ensures SliceFolded(b, rows, folded, index)
  {
    var bits := IndexBits(c.RelationCount());
    DemuxInRange(index, bits);
    SlicesFit(c, b, layouts, rows, filings, index);
    hide *;
    folded := FoldSlices(rows, Demux(index, bits), c.RelationCount(), b.Count(), Times(c.owners, b.slots), index);
    SliceIsFolded(b, rows, folded, index);
  }

  lemma {:induction false} SliceIsFolded(b: Buckets, rows: seq<seq<nat>>, folded: seq<seq<int>>, index: nat)
    requires Times(index, b.Count()) + b.Count() <= |rows| && folded == SliceOf(rows, b.Count(), index)
    ensures SliceFolded(b, rows, folded, index)
  {
  }

  /** The sum over all relations of the selected slices is the selected slice. */
  method FoldSlices(rows: seq<seq<int>>, selector: seq<int>, relations: nat, size: nat, width: nat, ghost index: nat) returns (folded: seq<seq<int>>)
    requires index < relations <= |selector| && Rectangular(rows, width)
    requires forall r :: 0 <= r < |selector| ==> selector[r] == if r == index then 1 else 0
    requires forall r :: 0 <= r < relations ==> Times(r, size) + size <= |rows|
    ensures folded == SliceOf(rows, size, index)
  {
    hide Times;
    folded := ZeroBlock(size, width);
    for r := 0 to relations
      invariant Rectangular(folded, width) && |folded| == size
      invariant folded == if index < r then SliceOf(rows, size, index) else ZeroBlock(size, width)
    {
      var slice := SliceOf(rows, size, r);
      AddBlockBit(folded, selector[r], slice, width);
      folded := AddBlock(folded, selector[r], slice, width);
    }
  }

  lemma {:induction false} SlicesFit(c: Config, b: Buckets, layouts: seq<Layout>, rows: seq<seq<nat>>, filings: seq<seq<seq<Filed>>>, index: nat)
    requires ResidualHolds(c, b, layouts, rows, filings) && b.partition && index < c.RelationCount()
    ensures Rectangular(rows, Times(c.owners, b.slots))
    ensures forall r :: 0 <= r < c.RelationCount() ==> Times(r, b.Count()) + b.Count() <= |rows|
  {
    ResidualParts(c, b, layouts, rows, filings, index, 0);
    forall r | 0 <= r < c.RelationCount()
      ensures Times(r, b.Count()) + b.Count() <= |rows|
    {
      SliceInside(c, b, layouts, rows, filings, r);
    }
  }

  lemma {:induction false} SliceInside(c: Config, b: Buckets, layouts: seq<Layout>, rows: seq<seq<nat>>, filings: seq<seq<seq<Filed>>>, r: nat)
    requires ResidualHolds(c, b, layouts, rows, filings) && r < TableCount(c, b)
    ensures Times(r, b.Count()) + b.Count() <= |rows|
  {
    assert TableHolds(c, b, layouts, rows, filings[r], r);
  }

  /** The bucket of a folded slice; a single bucket is taken without a selector. */
  method FetchBucket(folded: seq<seq<int>>, bucket: nat, width: nat) returns (row: seq<int>)
    requires bucket < |folded| && Rectangular(folded, width)
    ensures row == folded[bucket]
  {
    if |folded| == 1 {
      row := folded[0];
    } else {
      row := ReadRow(folded, bucket, IndexBits(|folded|), width);
    }
  }

  /** `read_folded_residuals` for one slot: the same descriptors as the unfolded residual read. */
  method ReadFoldedResidual(c: Config, b: Buckets, ghost owners: seq<seq<RawEdge>>, ghost layouts: seq<Layout>, ghost rows: seq<seq<nat>>,
                            ghost filings: seq<seq<seq<Filed>>>, folded: seq<seq<int>>, ghost index: nat,
                            entity: nat, ghost relation: nat, valid: int)
    returns (row: seq<nat>, ghost ds: seq<nat>)
    requires Federation(c, owners, layouts) && ResidualHolds(c, b, layouts, rows, filings) && Uses(c, b)
    requires b.partition && c.addressing.Blocked? && SliceFolded(b, rows, folded, index) && index < c.RelationCount()
    requires IsBit(valid) && (valid == 1 ==> c.InRange(Key(entity, relation)) && index == relation - 1)
    ensures ResidualDescriptors(c, layouts, Key(entity, relation), valid, row, ds)
  {
    ghost var key := Key(entity, relation);
    var tag := EntityTag(c, b, entity, relation, valid);
    var bucket := ResidualBucket(c, b, layouts, rows, filings, tag, valid, key);
    SliceShape(c, b, layouts, rows, filings, folded, index, bucket);
    hide *;
    var fetched := FetchBucket(folded, bucket, Times(c.owners, b.slots));
    var cells: seq<nat> := fetched;
    row, ds := ResolveCells(c, b, owners, layouts, rows, filings, cells, index, key, tag, valid);
  }

  /** `valid.if_else(entity + 1, 0)`. */
  method EntityTag(c: Config, b: Buckets, entity: nat, ghost relation: nat, valid: int) returns (tag: nat)
    requires b.partition && IsBit(valid)
    ensures tag == GatedTag(c, b, Key(entity, relation), valid)
  {
    var gated := IfElse(valid, entity + 1, 0);
    tag := gated;
  }

  lemma {:induction false} SliceShape(c: Config, b: Buckets, layouts: seq<Layout>, rows: seq<seq<nat>>, filings: seq<seq<seq<Filed>>>,
                                      folded: seq<seq<int>>, index: nat, bucket: nat)
    requires ResidualHolds(c, b, layouts, rows, filings) && SliceFolded(b, rows, folded, index)
    requires index < c.RelationCount() && b.partition && bucket < b.Count()
    ensures index < TableCount(c, b) && bucket < |folded| && Rectangular(folded, Times(c.owners, b.slots))
    ensures Times(index, b.Count()) + bucket < |rows| && folded[bucket] == rows[Times(index, b.Count()) + bucket]
  {
    ResidualParts(c, b, layouts, rows, filings, index, bucket);
    hide ResidualHolds, TableHolds, ResidualRow;
  }

  // --- All folds of one query ---------------------------------------------------------------

  /** The ablation switches and the fold's public chunk size. */
  datatype Switches = Switches(unfoldDirectory: bool, unfoldResidual: bool, chunk: nat)

  /** What a query contracts once, before its second-hop reads. */
  datatype Folds = Folds(main: seq<seq<int>>, start: int, width: int, residual: seq<seq<int>>)

  /** Every fold the configuration and the switches ask for is in place. */
  ghost predicate FoldsHold(c: Config, tables: Tables, sw: Switches, index: nat, folds: Folds) {
    && c.Valid() && index < c.RelationCount() && sw.chunk >= 1
    && (!sw.unfoldDirectory ==>
          match c.addressing
          case Dense(compact) => compact.None? ==> Folded(c, tables.main, folds.main, index)
          case Blocked(_, b) =>
            && BlockFolded(c, tables.main, folds.main, folds.start, folds.width, index)
            && (b.partition && !sw.unfoldResidual ==> SliceFolded(b, tables.residual, folds.residual, index)))
  }

  /** Contract the shared, gated relation out of every table that is folded. */
  method FoldAll(c: Config, ghost owners: seq<seq<RawEdge>>, ghost layouts: seq<Layout>, tables: Tables,
                 ghost filings: seq<seq<seq<Filed>>>, sw: Switches, relation: nat) returns (folds: Folds, ghost index: nat)
    requires Deployed(c, owners, layouts, tables, filings) && sw.chunk >= 1
    ensures FoldsHold(c, tables, sw, index, folds)
    ensures 1 <= relation <= c.RelationCount() ==> index == relation - 1
  {
    DeployedParts(c, owners, layouts, tables, filings);
    var gated := RelationIndex(c, relation);
    index := gated;
    hide Deployed, Assembled, ResidualHolds, Folded, BlockFolded, SliceFolded;
    folds := Folds([], 0, 0, []);
    if !sw.unfoldDirectory {
      match c.addressing
      case Dense(None) =>
        var folded := FoldDense(c, layouts, tables.main, gated, sw.chunk);
        folds := folds.(main := folded);
      case Dense(Some(_)) =>
      case Blocked(_, b) =>
        var folded, start, width := FoldBlocks(c, layouts, tables.main, gated);
        folds := Folds(folded, start, width, []);
        if b.partition && !sw.unfoldResidual {
          var slice := FoldResidual(c, b, layouts, tables.residual, filings, gated);
          folds := folds.(residual := slice);
        }
    }
  }

  lemma {:induction false} FoldsFacts(c: Config, tables: Tables, sw: Switches, index: nat, folds: Folds)
    requires FoldsHold(c, tables, sw, index, folds)
    ensures c.Valid() && index < c.RelationCount()
    ensures !sw.unfoldDirectory && c.addressing == Dense(None) ==> Folded(c, tables.main, folds.main, index)
    ensures !sw.unfoldDirectory && c.addressing.Blocked? ==> BlockFolded(c, tables.main, folds.main, folds.start, folds.width, index)
    ensures !sw.unfoldDirectory && c.addressing.Blocked? && c.addressing.residual.partition && !sw.unfoldResidual ==>
      SliceFolded(c.addressing.residual, tables.residual, folds.residual, index)
  {
    hide Folded, BlockFolded, SliceFolded;
  }

  /**
   * A second-hop read through whatever is folded.  It meets the same contract as the unfolded
   * read, for valid and gated-off slots alike.
   */
  method FetchSecond(c: Config, ghost owners: seq<seq<RawEdge>>, ghost layouts: seq<Layout>, tables: Tables,
                     ghost filings: seq<seq<seq<Filed>>>, sw: Switches, folds: Folds, ghost index: nat,
                     entity: nat, relation: nat, valid: int, address: nat)
    returns (row: seq<nat>, ghost ds: seq<nat>)
    requires Deployed(c, owners, layouts, tables, filings) && FoldsHold(c, tables, sw, index, folds)
    requires IsBit(valid) && entity < c.EntityCount()
    requires valid == 1 ==> c.InRange(Key(entity, relation)) && index == relation - 1
    requires address == MainAddress(c, Key(entity, relation), valid)
    ensures Fetched(c, layouts, Key(entity, relation), valid, row, ds)
  {
    if sw.unfoldDirectory || (c.addressing.Dense? && c.addressing.compact.Some?) {
      hide *;
      row, ds := ReadUnfolded(c, owners, layouts, tables, filings, entity, relation, valid, address);
    } else {
      DeployedParts(c, owners, layouts, tables, filings);
      FoldsFacts(c, tables, sw, index, folds);
      if c.addressing.Dense? {
        hide *;
        row, ds := ReadFoldedDense(c, owners, layouts, tables.main, folds.main, entity, relation, index, valid);
      } else {
        hide *;
        row, ds := FetchHybrid(c, owners, layouts, tables, filings, sw, folds, index, entity, relation, valid);
      }
    }
  }

  /** The folded hybrid: the type block always, the residual when it is partitioned and not ablated. */
  method FetchHybrid(c: Config, ghost owners: seq<seq<RawEdge>>, ghost layouts: seq<Layout>, tables: Tables,
                     ghost filings: seq<seq<seq<Filed>>>, sw: Switches, folds: Folds, ghost index: nat,
                     entity: nat, relation: nat, valid: int)
    returns (row: seq<nat>, ghost ds: seq<nat>)
    requires Deployed(c, owners, layouts, tables, filings) && FoldsHold(c, tables, sw, index, folds)
    requires c.addressing.Blocked? && !sw.unfoldDirectory && IsBit(valid)
    requires valid == 1 ==> c.InRange(Key(entity, relation)) && index == relation - 1
    ensures Fetched(c, layouts, Key(entity, relation), valid, row, ds)
  {
    ghost var key := Key(entity, relation);
    var b := c.addressing.residual;
    DeployedParts(c, owners, layouts, tables, filings);
    FoldsFacts(c, tables, sw, index, folds);
    UsesResidual(c, b);
    MainRowIs(c, owners, layouts, tables.main, key, valid);
    hide *;
    var main := ReadFoldedBlock(c, owners, layouts, tables.main, folds.main, folds.start, folds.width, index, entity, relation, valid);
    ghost var mainDs := RowDescriptors(layouts, MainAddress(c, key, valid));
    var residual;
    ghost var residualDs;
    if b.partition && !sw.unfoldResidual {
      residual, residualDs := ReadFoldedResidual(c, b, owners, layouts, tables.residual, filings, folds.residual, index, entity, relation, valid);
    } else {
      residual, residualDs := ReadResidual(c, b, owners, layouts, tables.residual, filings, entity, relation, valid);
    }
    AddHalves(c, owners, layouts, key, valid, main, mainDs, residual, residualDs);
    row, ds := SumOwners(main, residual), SumOwners(mainDs, residualDs);
  }
}
