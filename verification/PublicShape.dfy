// The public numbers of a layout, each as tight as it can be: field widths, pool
// height, packed descriptors, packed columns, tag widths and store heights.
module PublicShape {
  import opened Bits
  import opened PageConfig
  import opened PackedDirectory
  import opened DirectoryReads
  import opened DirectoryAssembly

  /** `bits` is the least width, at least one, that writes every number up to `largest`. */
  ghost predicate LeastWidth(largest: nat, bits: nat) {
    bits >= 1 && largest < Pow2(bits) && (bits > 1 ==> Pow2(bits - 1) <= largest)
  }

  /** A descriptor has just enough bits for every base and every count. */
  lemma {:induction false} DescriptorWidths(c: Config)
    requires c.pageBudget >= 1
    ensures LeastWidth(c.pageBudget - 1, c.PageBaseBits()) && LeastWidth(c.pagesPerKey, c.PageCountBits())
    ensures c.DescriptorBits() == c.PageBaseBits() + c.PageCountBits()
  {
    assert Pow2(0) == 1 && Pow2(1) == 2;
    hide Pow2, BitLength;
  }

  /** A packed edge has just enough bits for every slot and every relation, and the declared ones for the rest. */
  lemma {:induction false} EdgeFieldWidths(c: Config)
    ensures var w := c.EdgeWidths();
      && LeastWidth(c.EntityCount() - 1, w.slotBits) && LeastWidth(c.RelationCount(), w.relationBits)
      && w.evidenceBits == c.evidenceBits && w.scoreBits == c.scoreBits && w.usableBits == c.usableBits
  {
    assert Pow2(0) == 1 && Pow2(1) == 2;
    hide Pow2, BitLength;
  }

  /** A residual tag has just enough bits for the largest tag. */
  lemma {:induction false} TagWidth(c: Config, b: Buckets)
    ensures LeastWidth(if b.partition then c.EntityCount() else c.DenseRows(), TagBits(c, b))
  {
    assert Pow2(0) == 1 && Pow2(1) == 2;
    hide Pow2, BitLength;
  }

  /** A descriptor is its base below its count. */
  lemma {:induction false} DescriptorFormat(c: Config, base: nat, count: nat)
    requires c.pageBudget >= 1
    ensures PackDescriptor(c, base, count).Ok? <==> base < c.pageBudget && count <= c.pagesPerKey
    ensures PackDescriptor(c, base, count).Ok? ==> PackDescriptor(c, base, count).value == base + count * Pow2(c.PageBaseBits())
  {
    if base < c.pageBudget {
      OrDisjoint(base, count, c.PageBaseBits());
    }
    hide Or;
  }

  /** Page `offset` of a window at `base`. */
  ghost predicate WindowRow(c: Config, base: nat, offset: nat, row: nat) {
    base < c.pageBudget && offset < c.pagesPerKey && row == base + offset
  }

  /** The pool's rows are exactly those that some full-width window reads. */
  lemma {:induction false} PoolHeight(c: Config, row: nat)
    requires c.pagesPerKey >= 1 && c.pageBudget >= 1
    ensures row < c.PoolRows() <==> exists base: nat, offset: nat :: WindowRow(c, base, offset, row)
  {
    if row < c.PoolRows() {
      var base := if row < c.pageBudget then row else c.pageBudget - 1;
      assert WindowRow(c, base, row - base, row);
    }
  }

  /**
   * As many owners share an element as their descriptors fit, the columns are just enough,
   * and owner `o`'s place is column by column, bit range by bit range.
   */
  lemma {:induction false} ColumnLayout(c: Config, o: nat)
    requires c.pageBudget >= 1 && c.owners >= 1 && c.DescriptorBits() <= c.usableBits
    ensures var per, width := OwnersPerElement(c), c.DescriptorBits();
      && Times(per, width) <= c.usableBits < Times(per + 1, width)
      && Times(DirectoryColumns(c) - 1, per) < c.owners <= Times(DirectoryColumns(c), per)
    ensures var per, (column, offset) := OwnersPerElement(c), DirectorySlot(c, o);
      exists k: nat :: k < per && o == Times(column, per) + k && offset == Times(k, c.DescriptorBits())
  {
    var per, width := OwnersPerElement(c), c.DescriptorBits();
    DivMod(c.usableBits, width);
    DivMod(c.owners + per - 1, per);
    DivMod(o, per);
    QuotientAtLeast(c.usableBits, width);
    var k := Remainder(o, per);
    assert o == Times(Quotient(o, per), per) + k;
    TimesFacts(per, width);
    var columns := DirectoryColumns(c);
    assert columns >= 1 by {
      if columns == 0 {
        TimesFacts(0, per);
      }
    }
    TimesFacts(columns, per);
    hide Quotient, Remainder, Times;
  }

  lemma {:induction false} QuotientAtLeast(v: nat, d: nat)
    requires 0 < d <= v
    ensures Quotient(v, d) >= 1
  {
    DivMod(v, d);
    hide Quotient;
  }

  /** A partitioned store is padded to the least power of two that holds its tables. */
  lemma {:induction false} StoreHeight(c: Config, b: Buckets) returns (k: nat)
    requires c.Valid()
    ensures PaddedRows(c, b) == Pow2(k) && (!b.partition ==> k == b.bits)
    ensures b.partition ==> Times(c.RelationCount(), Pow2(b.bits)) <= Pow2(k)
    ensures b.partition && k > 0 ==> Pow2(k - 1) < Times(c.RelationCount(), Pow2(b.bits))
  {
    TimesFacts(1, Pow2(b.bits));
    TimesFacts(0, Pow2(b.bits));
    TimesMonotone(1, c.RelationCount(), Pow2(b.bits));
    var rows := Times(c.RelationCount(), Pow2(b.bits));
    assert rows >= 1;
    k := if b.partition then BitLength(rows - 1) else b.bits;
    assert Pow2(0) == 1;
    hide Times, Pow2, BitLength;
  }
}
