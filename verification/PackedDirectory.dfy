// Several owners' descriptors side by side in one field element.
module PackedDirectory {
  import opened Bits
  import opened FieldPacking
  import opened PageConfig

  /** `owners_per_directory_element`. */
  function OwnersPerElement(c: Config): (r: nat)
    requires c.pageBudget >= 1
    ensures r >= 1
  {
    DescriptorWidthPositive(c);
    var q := Quotient(c.usableBits, c.DescriptorBits());
    if q == 0 then 1 else q
  }

  lemma {:induction false} DescriptorWidthPositive(c: Config)
    requires c.pageBudget >= 1
    ensures c.DescriptorBits() > 0
  {
  }

  /** `directory_slot`: which column, and which bit offset, an owner occupies. */
  function DirectorySlot(c: Config, owner: nat): (nat, nat)
    requires c.pageBudget >= 1
  {
    var per := OwnersPerElement(c);
    (Quotient(owner, per), Times(Remainder(owner, per), c.DescriptorBits()))
  }

  /** `ceil(owners / per_element)` columns. */
  function DirectoryColumns(c: Config): nat
    requires c.pageBudget >= 1
  {
    Quotient(c.owners + OwnersPerElement(c) - 1, OwnersPerElement(c))
  }

  function Uniform(n: nat, w: nat): (r: seq<nat>)
    ensures |r| == n && forall i :: 0 <= i < n ==> r[i] == w
  {
    seq(n, _ => w)
  }

  lemma {:induction false} TotalUniform(n: nat, w: nat)
    ensures Total(Uniform(n, w)) == Times(n, w)
  {
    TimesFacts(n, w);
    hide Times;
    if n > 0 {
      TotalUniform(n - 1, w);
      assert Uniform(n, w)[1..] == Uniform(n - 1, w);
    }
  }

  /** The owners whose descriptors share column `col`. */
  function ColumnOwners(per: nat, owners: nat, col: nat): (nat, nat) {
    var from, to := Times(col, per), Times(col, per) + per;
    (if from <= owners then from else owners, if to <= owners then to else owners)
  }

  /** One packed element. */
  function PackedColumn(ds: seq<nat>, per: nat, w: nat, col: nat): nat {
    var (from, to) := ColumnOwners(per, |ds|, col);
    Pack(ds[from..to], Uniform(to - from, w))
  }

  /** The packed directory row holding the owners' descriptors `ds`. */
  function PackedRow(c: Config, ds: seq<nat>): (row: seq<nat>)
    requires c.pageBudget >= 1
    ensures |row| == DirectoryColumns(c)
  {
    seq(DirectoryColumns(c), col requires 0 <= col => PackedColumn(ds, OwnersPerElement(c), c.DescriptorBits(), col))
  }

  /** An owner's column exists. */
  lemma {:induction false} ColumnInRange(c: Config, owner: nat)
    requires c.pageBudget >= 1 && owner < c.owners
    ensures DirectorySlot(c, owner).0 < DirectoryColumns(c)
  {
    var per := OwnersPerElement(c);
    hide OwnersPerElement;
    var col, n := Quotient(owner, per), DirectoryColumns(c);
    DivMod(owner, per);
    DivMod(c.owners + per - 1, per);
    hide *;
    if col >= n {
      ProductOrder(n, col, per);
    }
  }

  /** A descriptor's bit range lies within the usable field. */
  lemma {:induction false} OffsetInField(c: Config, owner: nat)
    requires c.pageBudget >= 1 && c.DescriptorBits() <= c.usableBits
    ensures DirectorySlot(c, owner).1 + c.DescriptorBits() <= Times(OwnersPerElement(c), c.DescriptorBits()) <= c.usableBits
  {
    var per, w := OwnersPerElement(c), c.DescriptorBits();
    var r := Remainder(owner, per);
    TimesMonotone(r + 1, per, w);
    TimesFacts(r, w);
    TimesFacts(1, w);
    TimesFacts(0, w);
    DivMod(c.usableBits, w);
  }

  /** Reading an owner's bit range of its column gives back its descriptor. */
  lemma {:induction false} OwnerField(c: Config, ds: seq<nat>, owner: nat)
    requires c.pageBudget >= 1 && owner < |ds| == c.owners
    requires forall o :: 0 <= o < |ds| ==> ds[o] < Pow2(c.DescriptorBits())
    ensures DirectorySlot(c, owner).0 < DirectoryColumns(c)
    ensures var (col, offset) := DirectorySlot(c, owner);
      Field(PackedRow(c, ds)[col], offset, offset + c.DescriptorBits()) == ds[owner]
  {
    ColumnInRange(c, owner);
    var per, w := OwnersPerElement(c), c.DescriptorBits();
    var (col, offset) := DirectorySlot(c, owner);
    var (from, to) := ColumnOwners(per, |ds|, col);
    var i := Remainder(owner, per);
    OwnerPosition(owner, per, |ds|);
    var slice, widths := ds[from..to], Uniform(to - from, w);
    hide OwnersPerElement, DirectoryColumns, DirectorySlot, Quotient, Remainder;
    UnpackPack(slice, widths);
    UnpackAt(Pack(slice, widths), widths, i);
    assert widths[..i] == Uniform(i, w);
    TotalUniform(i, w);
  }

  /** An owner is member `owner % per` of column `owner / per`. */
  lemma {:induction false} OwnerPosition(owner: nat, per: nat, owners: nat)
    requires per >= 1 && owner < owners
    ensures var (from, to) := ColumnOwners(per, owners, Quotient(owner, per));
      from + Remainder(owner, per) == owner && owner < to
  {
    DivMod(owner, per);
    hide Quotient, Remainder;
  }

  // --- Building a row owner by owner ----------------------------------------------------

  /** `columns[column] += d << offset`. */
  function AddShifted(row: seq<nat>, column: nat, d: nat, offset: nat): (r: seq<nat>)
    requires column < |row|
    ensures |r| == |row| && r[column] == row[column] + ShiftLeft(d, offset)
    ensures forall i :: 0 <= i < |r| && i != column ==> r[i] == row[i]
  {
    var next: nat := row[column] + ShiftLeft(d, offset);
    row[column := next]
  }

  /** One more owner adds its shifted descriptor to its own column only. */
  lemma {:induction false} AppendOwner(c: Config, ds: seq<nat>, d: nat)
    requires c.pageBudget >= 1 && |ds| < c.owners
    ensures var (column, offset) := DirectorySlot(c, |ds|);
      column < DirectoryColumns(c) && PackedRow(c, ds + [d]) == AddShifted(PackedRow(c, ds), column, d, offset)
  {
    ColumnInRange(c, |ds|);
    var (column, offset) := DirectorySlot(c, |ds|);
    var per, w := OwnersPerElement(c), c.DescriptorBits();
    hide OwnersPerElement, DirectoryColumns;
    forall col: nat | col < DirectoryColumns(c)
      ensures PackedColumn(ds + [d], per, w, col) == PackedColumn(ds, per, w, col) + if col == column then ShiftLeft(d, offset) else 0
    {
      AppendColumn(ds, d, per, w, col);
    }
    hide PackedColumn, DirectorySlot, ShiftLeft;
    assert PackedRow(c, ds + [d]) == AddShifted(PackedRow(c, ds), column, d, offset);
  }

  lemma {:induction false} AppendColumn(ds: seq<nat>, d: nat, per: nat, w: nat, col: nat)
    requires per >= 1
    ensures PackedColumn(ds + [d], per, w, col)
         == PackedColumn(ds, per, w, col) + if col == Quotient(|ds|, per) then ShiftLeft(d, Times(Remainder(|ds|, per), w)) else 0
  {
    var (from, to) := ColumnOwners(per, |ds|, col);
    var (from', to') := ColumnOwners(per, |ds| + 1, col);
    OwnerColumn(|ds|, per, col);
    hide Quotient, Remainder, Times, ShiftLeft;
    if col == Quotient(|ds|, per) {
      var n := |ds| - from;
      assert from' == from && to == |ds| && to' == |ds| + 1;
      assert (ds + [d])[from'..to'] == ds[from..to] + [d];
      assert Uniform(to' - from', w) == Uniform(n, w) + [w];
      PackSnoc(ds[from..to], Uniform(n, w), d, w);
      TotalUniform(n, w);
    } else {
      assert (ds + [d])[from'..to'] == ds[from..to];
    }
  }

  /** Where the next owner's column lies relative to a column's range. */
  lemma {:induction false} OwnerColumn(owner: nat, per: nat, col: nat)
    requires per >= 1
    ensures col == Quotient(owner, per) ==> Times(col, per) + Remainder(owner, per) == owner && Times(col, per) <= owner < Times(col, per) + per
    ensures col < Quotient(owner, per) ==> Times(col, per) + per <= owner
    ensures col > Quotient(owner, per) ==> owner < Times(col, per)
  {
    DivMod(owner, per);
    var q := Quotient(owner, per);
    hide Quotient, Remainder;
    TimesFacts(q, per);
    if col < q {
      TimesMonotone(col + 1, q, per);
      TimesFacts(col, per);
    } else if col > q {
      TimesMonotone(q + 1, col, per);
    }
  }

  /** The row of the first `n` owners is zero beyond them, so a row starts empty. */
  lemma {:induction false} EmptyRow(c: Config)
    requires c.pageBudget >= 1
    ensures forall col :: 0 <= col < DirectoryColumns(c) ==> PackedRow(c, [])[col] == 0
  {
    forall col: nat | col < DirectoryColumns(c)
      ensures PackedColumn([], OwnersPerElement(c), c.DescriptorBits(), col) == 0
    {
      assert ColumnOwners(OwnersPerElement(c), 0, col) == (0, 0);
    }
  }

  function SumOwners(a: seq<nat>, b: seq<nat>): (r: seq<nat>)
    requires |a| == |b|
    ensures |r| == |a| && forall i :: 0 <= i < |r| ==> r[i] == a[i] + b[i]
  {
    seq(|a|, i requires 0 <= i < |a| => a[i] + b[i])
  }

  /** Packing is linear: rows add up owner by owner. */
  lemma {:induction false} PackedRowSum(c: Config, a: seq<nat>, b: seq<nat>)
    requires c.pageBudget >= 1 && |a| == |b| <= c.owners
    ensures SumOwners(PackedRow(c, a), PackedRow(c, b)) == PackedRow(c, SumOwners(a, b))
  {
    if a == [] {
      EmptyRow(c);
      assert SumOwners([], []) == [];
    } else {
      hide *;
      LastSum(a, b);
      PackedRowSum(c, a[..|a| - 1], b[..|b| - 1]);
      RowSumStep(c, a[..|a| - 1], b[..|b| - 1], a[|a| - 1], b[|b| - 1]);
    }
  }

  lemma {:induction false} RowSumStep(c: Config, u: seq<nat>, v: seq<nat>, d: nat, e: nat)
    requires c.pageBudget >= 1 && |u| == |v| < c.owners
    requires SumOwners(PackedRow(c, u), PackedRow(c, v)) == PackedRow(c, SumOwners(u, v))
    ensures SumOwners(PackedRow(c, u + [d]), PackedRow(c, v + [e])) == PackedRow(c, SumOwners(u, v) + [d + e])
  {
    hide *;
    AppendOwner(c, u, d);
    AppendOwner(c, v, e);
    AppendOwner(c, SumOwners(u, v), d + e);
    var slot := DirectorySlot(c, |u|);
    ShiftedRowsSum(PackedRow(c, u), PackedRow(c, v), slot.0, d, e, slot.1);
  }

  lemma {:induction false} LastSum(a: seq<nat>, b: seq<nat>)
    requires |a| == |b| > 0
    ensures var n := |a| - 1; a == a[..n] + [a[n]] && b == b[..n] + [b[n]] && SumOwners(a, b) == SumOwners(a[..n], b[..n]) + [a[n] + b[n]]
  {
  }

  lemma {:induction false} ShiftedRowsSum(r: seq<nat>, s: seq<nat>, column: nat, d: nat, e: nat, offset: nat)
    requires |r| == |s| && column < |r|
    ensures SumOwners(AddShifted(r, column, d, offset), AddShifted(s, column, e, offset)) == AddShifted(SumOwners(r, s), column, d + e, offset)
  {
    ShiftSum(d, e, offset);
    hide ShiftLeft;
  }

  lemma {:induction false} ShiftSum(a: nat, b: nat, offset: nat)
    ensures ShiftLeft(a + b, offset) == ShiftLeft(a, offset) + ShiftLeft(b, offset)
  {
  }
}
