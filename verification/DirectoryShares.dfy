// Assembling the shared directory: every server shifts and adds its own shares,
// and the three results reconstruct to the packed directory the circuit reads.
module DirectoryShares {
  import opened Wrappers
  import opened Bits
  import opened FieldPacking
  import opened PageConfig
  import opened OwnerEdges
  import opened PageLayout
  import opened PackedDirectory
  import opened PagedEvaluation
  import opened PrimeField
  import opened DirectoryReads
  import opened Sharing

  // --- One row on one server -------------------------------------------------------------------

  /** `columns[column] = (columns[column] + (share << offset) % p) % p`. */
  function AddShare(row: seq<nat>, column: nat, share: nat, offset: nat, p: nat): (r: seq<nat>)
    requires column < |row| && p > 0
    ensures |r| == |row| && r[column] == Mod(row[column] + Mod(ShiftLeft(share, offset), p), p)
    ensures forall i :: 0 <= i < |r| && i != column ==> r[i] == row[i]
  {
    var next: nat := Mod(row[column] + Mod(ShiftLeft(share, offset), p), p);
    row[column := next]
  }

  /** The columns a server has after adding the first owners' shares. */
  function ServerColumns(c: Config, p: nat, shares: seq<nat>): (r: seq<nat>)
    requires c.pageBudget >= 1 && p > 0 && |shares| <= c.owners
    ensures |r| == DirectoryColumns(c)
  {
    if shares == [] then seq(DirectoryColumns(c), _ => 0)
    else
      var n := |shares| - 1;
      ColumnInRange(c, n);
      AddShare(ServerColumns(c, p, shares[..n]), DirectorySlot(c, n).0, shares[n], DirectorySlot(c, n).1, p)
  }

  /** `iter_paged_batch_input_values` for one directory row. */
  method AssembleServerRow(c: Config, p: nat, shares: seq<nat>) returns (columns: seq<nat>)
    requires c.pageBudget >= 1 && p > 0 && |shares| == c.owners
    ensures columns == ServerColumns(c, p, shares)
  {
    columns := seq(DirectoryColumns(c), _ => 0);
    for owner := 0 to c.owners
      invariant columns == ServerColumns(c, p, shares[..owner])
    {
      ColumnInRange(c, owner);
      assert shares[..owner + 1][..owner] == shares[..owner];
      hide DirectoryColumns, DirectorySlot, AddShare;
      var slot := DirectorySlot(c, owner);
      columns := AddShare(columns, slot.0, shares[owner], slot.1, p);
    }
    assert shares[..|shares|] == shares;
  }

  // --- Reconstruction ----------------------------------------------------------------------------

  /** One more owner's shifted shares split one more owner's packed descriptor. */
  lemma {:induction false} AddShareSplits(row: seq<nat>, a: seq<nat>, b: seq<nat>, c: seq<nat>, column: nat, d: nat, x: nat, y: nat, z: nat, offset: nat, p: nat)
    requires p > 0 && SplitVector(row, a, b, c, p) && column < |row| && Splits(d, x, y, z, p)
    ensures SplitVector(AddShifted(row, column, d, offset), AddShare(a, column, x, offset, p), AddShare(b, column, y, offset, p),
                        AddShare(c, column, z, offset, p), p)
  {
    SplitsShift(d, x, y, z, offset, p);
    SplitsAdd(row[column], a[column], b[column], c[column], ShiftLeft(d, offset),
              Mod(ShiftLeft(x, offset), p), Mod(ShiftLeft(y, offset), p), Mod(ShiftLeft(z, offset), p), p);
    hide Splits, Mod, ShiftLeft;
  }

  /** Shifting and adding commute with reconstruction: the servers' columns split the packed row. */
  lemma {:induction false} ColumnsSplit(c: Config, p: nat, ds: seq<nat>, a: seq<nat>, b: seq<nat>, s: seq<nat>)
    requires c.pageBudget >= 1 && p > 0 && |ds| <= c.owners && SplitVector(ds, a, b, s, p)
    ensures |a| == |b| == |s| == |ds|
    ensures SplitVector(PackedRow(c, ds), ServerColumns(c, p, a), ServerColumns(c, p, b), ServerColumns(c, p, s), p)
  {
    if ds == [] {
      EmptyRow(c);
      SplitsZero(p);
      hide PackedRow, DirectoryColumns, Splits;
    } else {
      var n := |ds| - 1;
      LastOwner(c, p, ds, a, b, s);
      hide *;
      ColumnsSplit(c, p, ds[..n], a[..n], b[..n], s[..n]);
      AddShareSplits(PackedRow(c, ds[..n]), ServerColumns(c, p, a[..n]), ServerColumns(c, p, b[..n]), ServerColumns(c, p, s[..n]),
                     DirectorySlot(c, n).0, ds[n], a[n], b[n], s[n], DirectorySlot(c, n).1, p);
    }
  }

  lemma {:induction false} LastOwner(c: Config, p: nat, ds: seq<nat>, a: seq<nat>, b: seq<nat>, s: seq<nat>)
    requires c.pageBudget >= 1 && p > 0 && 0 < |ds| <= c.owners && SplitVector(ds, a, b, s, p)
    ensures var n := |ds| - 1;
      && |a| == |b| == |s| == |ds| && SplitVector(ds[..n], a[..n], b[..n], s[..n], p) && Splits(ds[n], a[n], b[n], s[n], p)
      && DirectorySlot(c, n).0 < DirectoryColumns(c)
      && PackedRow(c, ds) == AddShifted(PackedRow(c, ds[..n]), DirectorySlot(c, n).0, ds[n], DirectorySlot(c, n).1)
      && ServerColumns(c, p, a) == AddShare(ServerColumns(c, p, a[..n]), DirectorySlot(c, n).0, a[n], DirectorySlot(c, n).1, p)
      && ServerColumns(c, p, b) == AddShare(ServerColumns(c, p, b[..n]), DirectorySlot(c, n).0, b[n], DirectorySlot(c, n).1, p)
      && ServerColumns(c, p, s) == AddShare(ServerColumns(c, p, s[..n]), DirectorySlot(c, n).0, s[n], DirectorySlot(c, n).1, p)
  {
    var n := |ds| - 1;
    assert ds == ds[..n] + [ds[n]];
    AppendOwner(c, ds[..n], ds[n]);
    hide PackedRow, DirectoryColumns, DirectorySlot, Splits, AddShare, AddShifted;
  }

  /** A packed element fits the usable bits of the field. */
  lemma {:induction false} PackedElementFits(c: Config, ds: seq<nat>, col: nat)
    requires c.pageBudget >= 1 && c.DescriptorBits() <= c.usableBits && |ds| == c.owners && col < DirectoryColumns(c)
    requires forall o :: 0 <= o < |ds| ==> ds[o] < Pow2(c.DescriptorBits())
    ensures PackedRow(c, ds)[col] < Pow2(c.usableBits)
  {
    var per, w := OwnersPerElement(c), c.DescriptorBits();
    var (from, to) := ColumnOwners(per, |ds|, col);
    var slice, widths := ds[from..to], Uniform(to - from, w);
    PackBound(slice, widths);
    TotalUniform(to - from, w);
    TimesMonotone(to - from, per, w);
    OffsetInField(c, 0);
    Pow2Monotone(Times(to - from, w), c.usableBits);
  }

  /**
   * The three assembled columns reconstruct to the packed element, which stays below the
   * modulus: every owner's descriptor sits at its own column and bit offset.
   */
  lemma {:induction false} RowReconstructs(c: Config, p: nat, ds: seq<nat>, a: seq<nat>, b: seq<nat>, s: seq<nat>, col: nat)
    requires c.pageBudget >= 1 && c.DescriptorBits() <= c.usableBits && Pow2(c.usableBits) <= p
    requires |ds| == c.owners && SplitVector(ds, a, b, s, p) && col < DirectoryColumns(c)
    requires forall o :: 0 <= o < |ds| ==> ds[o] < Pow2(c.DescriptorBits())
    ensures |a| == |b| == |s| == c.owners
    ensures Reconstruct([ServerColumns(c, p, a)[col], ServerColumns(c, p, b)[col], ServerColumns(c, p, s)[col]], p) == Ok(PackedRow(c, ds)[col])
    ensures forall o :: 0 <= o < c.owners && DirectorySlot(c, o).0 == col ==>
      Field(PackedRow(c, ds)[col], DirectorySlot(c, o).1, DirectorySlot(c, o).1 + c.DescriptorBits()) == ds[o]
  {
    ColumnsSplit(c, p, ds, a, b, s);
    PackedElementFits(c, ds, col);
    forall o | 0 <= o < c.owners && DirectorySlot(c, o).0 == col
      ensures Field(PackedRow(c, ds)[col], DirectorySlot(c, o).1, DirectorySlot(c, o).1 + c.DescriptorBits()) == ds[o]
    {
      OwnerField(c, ds, o);
    }
    hide PackedRow, DirectorySlot, Splits, Reconstruct, ServerColumns, Field;
    var x, y, z := ServerColumns(c, p, a)[col], ServerColumns(c, p, b)[col], ServerColumns(c, p, s)[col];
    assert Splits(PackedRow(c, ds)[col], x, y, z, p);
    ReconstructIff(PackedRow(c, ds)[col], x, y, z, p);
  }

  // --- The whole directory --------------------------------------------------------------------------

  /** One owner's directory, split over the servers. */
  datatype Shards = Shards(a: seq<nat>, b: seq<nat>, c: seq<nat>)

  ghost predicate Sharded(layouts: seq<Layout>, shards: seq<Shards>, rows: nat, p: nat) {
    && |shards| == |layouts|
    && forall o :: 0 <= o < |layouts| ==> OwnerSharded(layouts[o], shards[o], rows, p)
  }

  ghost predicate OwnerSharded(layout: Layout, shards: Shards, rows: nat, p: nat) {
    |layout.directory| == rows && SplitVector(layout.directory, shards.a, shards.b, shards.c, p)
  }

  /** Owners share their directories on their own, with their own randomness. */
  method ShareDirectories(c: Config, ghost owners: seq<seq<RawEdge>>, layouts: seq<Layout>, p: nat, draw: Draw)
    returns (shards: seq<Shards>)
    requires Federation(c, owners, layouts) && c.DescriptorBits() <= c.usableBits && Pow2(c.usableBits) <= p
    requires InField(draw, p)
    ensures Sharded(layouts, shards, c.DirectoryRows(), p)
    ensures forall o :: 0 <= o < |shards| ==> DrawnFrom(shards[o].a, shards[o].b, draw, Affine, o, 0, c.DirectoryRows())
  {
    LayoutHeights(c, owners, layouts);
    shards := [];
    for o := 0 to |layouts|
      invariant |shards| == o
      invariant forall i :: 0 <= i < o ==> OwnerSharded(layouts[i], shards[i], c.DirectoryRows(), p)
      invariant forall i :: 0 <= i < o ==> DrawnFrom(shards[i].a, shards[i].b, draw, Affine, i, 0, c.DirectoryRows())
    {
      DirectoryInField(c, owners, layouts, o, p);
      hide Federation, SplitVector, Pow2;
      var pieces := ShareVector(layouts[o].directory, p, RowDraws(draw, Affine, o, 0, |layouts[o].directory|));
      shards := shards + [Shards(pieces.value.0, pieces.value.1, pieces.value.2)];
    }
  }

  lemma {:induction false} DirectoryInField(c: Config, owners: seq<seq<RawEdge>>, layouts: seq<Layout>, o: nat, p: nat)
    requires Federation(c, owners, layouts) && c.DescriptorBits() <= c.usableBits && Pow2(c.usableBits) <= p && o < |layouts|
    ensures forall row :: 0 <= row < |layouts[o].directory| ==> 0 <= layouts[o].directory[row] < p
  {
    Pow2Monotone(c.DescriptorBits(), c.usableBits);
    forall row | 0 <= row < |layouts[o].directory|
      ensures layouts[o].directory[row] < p
    {
      DescriptorFits(c, ResolveOwners(c, owners)[o], layouts[o], row);
    }
  }

  /** One server's shares of one row, owner by owner. */
  function RowShares(shards: seq<Shards>, server: nat, row: nat): (r: seq<nat>)
    requires forall o :: 0 <= o < |shards| ==> row < |shards[o].a| == |shards[o].b| == |shards[o].c|
    ensures |r| == |shards|
    ensures forall o :: 0 <= o < |r| ==>
      r[o] == if server == 0 then shards[o].a[row] else if server == 1 then shards[o].b[row] else shards[o].c[row]
  {
    seq(|shards|, o requires 0 <= o < |shards| =>
      if server == 0 then shards[o].a[row] else if server == 1 then shards[o].b[row] else shards[o].c[row])
  }

  lemma {:induction false} RowIsSplit(layouts: seq<Layout>, shards: seq<Shards>, rows: nat, p: nat, row: nat)
    requires Sharded(layouts, shards, rows, p) && row < rows
    ensures forall o :: 0 <= o < |shards| ==> row < |shards[o].a| == |shards[o].b| == |shards[o].c|
    ensures forall o :: 0 <= o < |layouts| ==> row < |layouts[o].directory|
    ensures SplitVector(RowDescriptors(layouts, row), RowShares(shards, 0, row), RowShares(shards, 1, row), RowShares(shards, 2, row), p)
  {
    forall o | 0 <= o < |layouts|
      ensures row < |shards[o].a| == |shards[o].b| == |shards[o].c| && row < |layouts[o].directory|
      ensures Splits(layouts[o].directory[row], shards[o].a[row], shards[o].b[row], shards[o].c[row], p)
    {
      assert OwnerSharded(layouts[o], shards[o], rows, p);
    }
    hide Splits;
  }

  /** The sum of the three servers' private inputs for one row, as the circuit forms it. */
  method ReconstructRow(c: Config, ghost owners: seq<seq<RawEdge>>, ghost layouts: seq<Layout>, shards: seq<Shards>, p: nat, row: nat)
    returns (columns: seq<nat>)
    requires Federation(c, owners, layouts) && c.DescriptorBits() <= c.usableBits && Pow2(c.usableBits) <= p
    requires Sharded(layouts, shards, c.DirectoryRows(), p) && row < c.DirectoryRows()
    ensures forall o :: 0 <= o < |layouts| ==> row < |layouts[o].directory|
    ensures c.pageBudget >= 1 && columns == PackedRow(c, RowDescriptors(layouts, row))
  {
    RowIsSplit(layouts, shards, c.DirectoryRows(), p, row);
    RowSmallEnough(c, owners, layouts, row);
    SplitCount(c, owners, layouts, shards, p);
    hide *;
    ColumnsInField(c, p, RowDescriptors(layouts, row), RowShares(shards, 0, row), RowShares(shards, 1, row), RowShares(shards, 2, row));
    var a := AssembleServerRow(c, p, RowShares(shards, 0, row));
    var b := AssembleServerRow(c, p, RowShares(shards, 1, row));
    var s := AssembleServerRow(c, p, RowShares(shards, 2, row));
    columns := ReconstructVector(PackedRow(c, RowDescriptors(layouts, row)), a, b, s, p);
  }

  lemma {:induction false} SplitCount(c: Config, owners: seq<seq<RawEdge>>, layouts: seq<Layout>, shards: seq<Shards>, p: nat)
    requires Federation(c, owners, layouts) && Sharded(layouts, shards, c.DirectoryRows(), p) && Pow2(c.usableBits) <= p
    ensures |shards| == |layouts| == c.owners && p > 0
  {
  }

  /** The servers' columns of a row, ready to be revealed. */
  lemma {:induction false} ColumnsInField(c: Config, p: nat, ds: seq<nat>, a: seq<nat>, b: seq<nat>, s: seq<nat>)
    requires c.pageBudget >= 1 && c.DescriptorBits() <= c.usableBits && p > 0 && Pow2(c.usableBits) <= p
    requires |ds| == c.owners && SplitVector(ds, a, b, s, p)
    requires forall o :: 0 <= o < |ds| ==> ds[o] < Pow2(c.DescriptorBits())
    ensures |a| == |b| == |s| == c.owners
    ensures SplitVector(PackedRow(c, ds), ServerColumns(c, p, a), ServerColumns(c, p, b), ServerColumns(c, p, s), p)
    ensures forall col :: 0 <= col < |PackedRow(c, ds)| ==> PackedRow(c, ds)[col] < p
  {
    ColumnsSplit(c, p, ds, a, b, s);
    forall col | 0 <= col < |PackedRow(c, ds)|
      ensures PackedRow(c, ds)[col] < p
    {
      PackedElementFits(c, ds, col);
    }
    hide PackedRow, ServerColumns, Splits, Pow2;
  }

  lemma {:induction false} RowSmallEnough(c: Config, owners: seq<seq<RawEdge>>, layouts: seq<Layout>, row: nat)
    requires Federation(c, owners, layouts) && row < c.DirectoryRows()
    ensures c.pageBudget >= 1 && |layouts| == c.owners
    ensures forall o :: 0 <= o < |layouts| ==> row < |layouts[o].directory|
    ensures forall o :: 0 <= o < |layouts| ==> RowDescriptors(layouts, row)[o] < Pow2(c.DescriptorBits())
  {
    LayoutHeights(c, owners, layouts);
    forall o | 0 <= o < |layouts|
      ensures RowDescriptors(layouts, row)[o] < Pow2(c.DescriptorBits())
    {
      DescriptorFits(c, ResolveOwners(c, owners)[o], layouts[o], row);
    }
  }

  /** From the owners' layouts through the shares to the directory the circuit reads. */
  method ShareAndAssemble(c: Config, ghost owners: seq<seq<RawEdge>>, layouts: seq<Layout>, p: nat, draw: Draw)
    returns (table: seq<seq<nat>>)
    requires Federation(c, owners, layouts) && c.DescriptorBits() <= c.usableBits && Pow2(c.usableBits) <= p
    requires InField(draw, p)
    ensures Assembled(c, layouts, table)
  {
    LayoutHeights(c, owners, layouts);
    var shards := ShareDirectories(c, owners, layouts, p, draw);
    table := [];
    for row := 0 to c.DirectoryRows()
      invariant |table| == row
      invariant forall r :: 0 <= r < row ==> table[r] == PackedRow(c, RowDescriptors(layouts, r))
    {
      hide Federation, Sharded, PackedRow;
      var columns := ReconstructRow(c, owners, layouts, shards, p, row);
      table := table + [columns];
    }
  }
}
