// The circuit's read of one owner's pages for one key: descriptor unpacking,
// gating, the shifted one-hot window scan, and edge unpacking.
module PageReads {
  import opened Gates
  import opened Bits
  import opened FieldPacking
  import opened PackedEdges
  import opened PageConfig
  import opened PageLayout
  import opened PackedDirectory
  import opened ObliviousRead
  import opened Compaction
  import opened GraphAnswer

  // --- Edge unpacking ---------------------------------------------------------------

  /** The gates that turn a stored value into a slot. */
  function UnpackSlot(c: Config, active: int, value: nat): Slot {
    var w := c.EdgeWidths();
    var bits := Decompose(value, w.Bits());
    var afterRelation := w.slotBits + w.relationBits;
    var afterEvidence := afterRelation + w.evidenceBits;
    var target := Compose(bits[..w.slotBits]);
    var handle := Compose(bits[afterRelation..afterEvidence]);
    var score := Compose(bits[afterEvidence..afterEvidence + w.scoreBits]);
    var stored := bits[w.Bits() - 1];
    var ok := active * stored * Not(Equal(target, 0)) * Less(target, c.EntityCount());
    Slot(ok, ok * target, ok * handle, ok * score)
  }

  /** The bit slices are the packed fields. */
  lemma {:induction false} SliceFields(w: Widths, value: nat)
    ensures var bits, f := Decompose(value, w.Bits()), Unpack(value, w.List());
      var afterRelation := w.slotBits + w.relationBits;
      var afterEvidence := afterRelation + w.evidenceBits;
      && Compose(bits[..w.slotBits]) == f[0]
      && Compose(bits[afterRelation..afterEvidence]) == f[2]
      && Compose(bits[afterEvidence..afterEvidence + w.scoreBits]) == f[3]
      && bits[w.Bits() - 1] == f[4]
  {
    var bits, l := Decompose(value, w.Bits()), w.List();
    var a := w.slotBits + w.relationBits;
    var b := a + w.evidenceBits;
    PrefixTotals(w);
    hide Total;
    assert bits[..w.slotBits] == bits[0..w.slotBits];
    ComposeSlice(value, w.Bits(), 0, w.slotBits);
    UnpackAt(value, l, 0);
    ComposeSlice(value, w.Bits(), a, b);
    UnpackAt(value, l, 2);
    ComposeSlice(value, w.Bits(), b, b + w.scoreBits);
    UnpackAt(value, l, 3);
    DecomposeBit(value, w.Bits(), w.Bits() - 1);
    UnpackAt(value, l, 4);
  }

  lemma {:induction false} PrefixTotals(w: Widths)
    ensures var l := w.List();
      && Total(l[..0]) == 0
      && Total(l[..2]) == w.slotBits + w.relationBits
      && Total(l[..3]) == w.slotBits + w.relationBits + w.evidenceBits
      && Total(l[..4]) == w.Bits() - 1
  {
    var l := w.List();
    TotalSnoc(l[..0], w.slotBits);
    assert l[..1] == l[..0] + [w.slotBits];
    TotalSnoc(l[..1], w.relationBits);
    assert l[..2] == l[..1] + [w.relationBits];
    TotalSnoc(l[..2], w.evidenceBits);
    assert l[..3] == l[..2] + [w.evidenceBits];
    TotalSnoc(l[..3], w.scoreBits);
    assert l[..4] == l[..3] + [w.scoreBits];
  }

  lemma {:induction false} TotalSnoc(ws: seq<nat>, w: nat)
    ensures Total(ws + [w]) == Total(ws) + w
  {
    if ws == [] {
      assert ws + [w] == [w];
      assert [w][1..] == [];
    } else {
      TotalSnoc(ws[1..], w);
      assert (ws + [w])[1..] == ws[1..] + [w];
    }
  }

  /** The slot's gates, given the unpacked fields. */
  function SlotGates(entityCount: nat, active: int, f: seq<nat>): Slot
    requires |f| == 5
  {
    var ok := active * f[4] * Not(Equal(f[0], 0)) * Less(f[0], entityCount);
    Slot(ok, ok * f[0], ok * f[2], ok * f[3])
  }

  lemma {:induction false} SlotGateCases(entityCount: nat, active: int, f: seq<nat>)
    requires |f| == 5 && IsBit(active)
    ensures active == 0 || f[4] == 0 ==> SlotGates(entityCount, active, f) == EMPTY_SLOT
    ensures active == 1 && f[4] == 1 && 1 <= f[0] < entityCount ==>
      SlotGates(entityCount, active, f) == Slot(1, f[0], f[2], f[3])
  {
    var product := active * f[4];
    if active == 0 || f[4] == 0 {
      assert product == 0;
      assert 0 * Not(Equal(f[0], 0)) == 0;
    }
  }

  /** The bits' gates are the fields' gates. */
  lemma {:induction false} SlotFields(c: Config, active: int, value: nat)
    ensures UnpackSlot(c, active, value) == SlotGates(c.EntityCount(), active, Unpack(value, c.EdgeWidths().List()))
  {
    hide Unpack, Decompose, Compose, Equal, Less, Not;
    SliceFields(c.EdgeWidths(), value);
  }

  lemma {:induction false} EmptyValue(c: Config, active: int)
    requires IsBit(active)
    ensures UnpackSlot(c, active, 0) == EMPTY_SLOT
  {
    var l := c.EdgeWidths().List();
    UnpackZero(l);
    SlotFields(c, active, 0);
    SlotGateCases(c.EntityCount(), active, Unpack(0, l));
    hide UnpackSlot, SlotGates;
  }

  lemma {:induction false} GatedOff(c: Config, value: nat)
    ensures UnpackSlot(c, 0, value) == EMPTY_SLOT
  {
    SlotFields(c, 0, value);
    SlotGateCases(c.EntityCount(), 0, Unpack(value, c.EdgeWidths().List()));
    hide UnpackSlot, SlotGates, Unpack;
  }

  lemma {:induction false} StoredValue(c: Config, e: Record)
    requires RecordFits(c.EdgeWidths(), e) && 1 <= e.target < c.EntityCount()
    ensures UnpackSlot(c, 1, PackedRecord(c.EdgeWidths(), e)) == SlotOf(HitOf(e))
  {
    var value := PackedRecord(c.EdgeWidths(), e);
    PackedRecordReads(c.EdgeWidths(), e);
    SlotFields(c, 1, value);
    SlotGateCases(c.EntityCount(), 1, Unpack(value, c.EdgeWidths().List()));
    hide UnpackSlot, SlotGates, PackedRecord;
  }

  /** Inactive and unoccupied slots come out empty; an active stored edge comes out valid. */
  lemma {:induction false} UnpackSlotCases(c: Config, active: int)
    requires IsBit(active)
    ensures UnpackSlot(c, active, 0) == EMPTY_SLOT
    ensures active == 0 ==> forall value :: UnpackSlot(c, active, value) == EMPTY_SLOT
    ensures active == 1 ==> forall e: Record :: RecordFits(c.EdgeWidths(), e) && 1 <= e.target < c.EntityCount() ==>
      UnpackSlot(c, active, PackedRecord(c.EdgeWidths(), e)) == SlotOf(HitOf(e))
  {
    hide UnpackSlot;
    EmptyValue(c, active);
    if active == 0 {
      forall value: nat
        ensures UnpackSlot(c, active, value) == EMPTY_SLOT
      {
        GatedOff(c, value);
      }
    } else {
      forall e: Record | RecordFits(c.EdgeWidths(), e) && 1 <= e.target < c.EntityCount()
        ensures UnpackSlot(c, active, PackedRecord(c.EdgeWidths(), e)) == SlotOf(HitOf(e))
      {
        StoredValue(c, e);
      }
    }
  }

  /** A row of values as slots. */
  function UnpackSlots(c: Config, active: int, values: seq<nat>): (r: seq<Slot>)
    ensures |r| == |values| && forall i :: 0 <= i < |r| ==> r[i] == UnpackSlot(c, active, values[i])
  {
    seq(|values|, i requires 0 <= i < |values| => UnpackSlot(c, active, values[i]))
  }

  /** A masked page is a page of zeros. */
  lemma {:induction false} MaskedSlots(c: Config, active: int, values: seq<nat>)
    requires IsBit(active)
    ensures UnpackSlots(c, active, values) == UnpackSlots(c, 1, if active == 1 then values else Zeros(|values|))
  {
    UnpackSlotCases(c, active);
    UnpackSlotCases(c, 1);
    hide UnpackSlot;
  }

  lemma {:induction false} UnpackSlotsConcat(c: Config, a: seq<nat>, b: seq<nat>)
    ensures UnpackSlots(c, 1, a + b) == UnpackSlots(c, 1, a) + UnpackSlots(c, 1, b)
  {
    hide UnpackSlot;
  }

  /** The slots of a key's window carry exactly its records. */
  lemma {:induction false} WindowSlots(c: Config, records: seq<Record>, n: nat)
    requires |records| <= n
    requires forall i :: 0 <= i < |records| ==> RecordFits(c.EdgeWidths(), records[i]) && 1 <= records[i].target < c.EntityCount()
    ensures var slots := UnpackSlots(c, 1, PaddedPrefix(c.EdgeWidths(), records, n));
      BitSlots(slots) && Live(slots) == HitsOf(records)
  {
    var slots := UnpackSlots(c, 1, PaddedPrefix(c.EdgeWidths(), records, n));
    forall i | 0 <= i < n
      ensures slots[i] == Padded(HitsOf(records), n)[i]
    {
      WindowSlotAt(c, records, n, i);
    }
    hide UnpackSlot, PaddedPrefix;
    assert slots == Padded(HitsOf(records), n);
    LivePadded(HitsOf(records), n);
  }

  lemma {:induction false} WindowSlotAt(c: Config, records: seq<Record>, n: nat, i: nat)
    requires |records| <= n && i < n
    requires i < |records| ==> RecordFits(c.EdgeWidths(), records[i]) && 1 <= records[i].target < c.EntityCount()
    ensures UnpackSlots(c, 1, PaddedPrefix(c.EdgeWidths(), records, n))[i] == Padded(HitsOf(records), n)[i]
  {
    var w := c.EdgeWidths();
    assert records[..Min(n, |records|)] == records;
    var value := PaddedPrefix(w, records, n)[i];
    assert value == if i < |records| then PackedRecord(w, records[i]) else 0;
    hide UnpackSlot, PackedRecord, PaddedPrefix;
    if i < |records| {
      StoredValue(c, records[i]);
    } else {
      EmptyValue(c, 1);
    }
  }

  // --- The window scan ----------------------------------------------------------------

  /** The gates on a descriptor: out-of-range parts and gated-off keys fall back to the dummy page. */
  method UnpackGated(c: Config, packed: nat, offset: nat, valid: int) returns (base: int, count: int)
    requires c.Valid() && IsBit(valid) && offset + c.DescriptorBits() <= Times(OwnersPerElement(c), c.DescriptorBits())
    ensures var d := Field(packed, offset, offset + c.DescriptorBits());
      var (b, n) := UnpackDescriptor(c, d);
      && base == (if valid == 1 && b < c.pageBudget && n <= c.pagesPerKey then b else 0)
      && count == (if valid == 1 && b < c.pageBudget && n <= c.pagesPerKey then n else 0)
  {
    var bits := Decompose(packed, Times(OwnersPerElement(c), c.DescriptorBits()));
    var own := bits[offset..offset + c.DescriptorBits()];
    var b := Compose(own[..c.PageBaseBits()]);
    var n := Compose(own[c.PageBaseBits()..c.DescriptorBits()]);
    DescriptorSlices(c, packed, offset);
    hide UnpackDescriptor, Decompose, Compose, Field, Config.Valid;
    var usable := Usable(c, b, n);
    base := IfElse(valid, IfElse(usable, b, 0), 0);
    count := CountGate(valid, usable, n);
  }

  /** The descriptor's parts are in range. */
  function Usable(c: Config, base: int, count: int): (usable: int)
    ensures usable == if base < c.pageBudget && count <= c.pagesPerKey then 1 else 0
  {
    Less(base, c.pageBudget) * Not(Greater(count, c.pagesPerKey))
  }

  function CountGate(valid: int, usable: int, count: int): (r: int)
    requires IsBit(valid) && 0 <= usable <= 1
    ensures r == if valid == 1 && usable == 1 then count else 0
  {
    valid * usable * count
  }

  /** Slicing the packed element twice is unpacking the owner's descriptor. */
  lemma {:induction false} DescriptorSlices(c: Config, packed: nat, offset: nat)
    requires c.Valid() && offset + c.DescriptorBits() <= Times(OwnersPerElement(c), c.DescriptorBits())
    ensures var bits := Decompose(packed, Times(OwnersPerElement(c), c.DescriptorBits()));
      var own := bits[offset..offset + c.DescriptorBits()];
      (Compose(own[..c.PageBaseBits()]), Compose(own[c.PageBaseBits()..c.DescriptorBits()]))
      == UnpackDescriptor(c, Field(packed, offset, offset + c.DescriptorBits()))
  {
    hide Decompose, Compose, Field, Quotient, Remainder, And, Pow2, Times, OwnersPerElement;
    var total := Times(OwnersPerElement(c), c.DescriptorBits());
    var bits := Decompose(packed, total);
    var m, n := c.PageBaseBits(), c.PageCountBits();
    var own := bits[offset..offset + (m + n)];
    assert own[..m] == bits[offset..offset + m];
    assert own[m..m + n] == bits[offset + m..offset + (m + n)];
    ComposeSlice(packed, total, offset, offset + m);
    ComposeSlice(packed, total, offset + m, offset + (m + n));
    FieldSplit(packed, offset, m, n);
    AndMask(Field(packed, offset, offset + (m + n)), m);
    assert c.DescriptorBits() == m + n;
  }

  /** The low and high parts of a bit field. */
  lemma {:induction false} FieldSplit(v: nat, lo: nat, m: nat, n: nat)
    ensures Remainder(Field(v, lo, lo + (m + n)), Pow2(m)) == Field(v, lo, lo + m)
    ensures Quotient(Field(v, lo, lo + (m + n)), Pow2(m)) == Field(v, lo + m, lo + (m + n))
  {
    var x := Quotient(v, Pow2(lo));
    Pow2Add(m, n);
    Pow2Add(lo, m);
    DivDiv(x, Pow2(m), Pow2(n));
    DivDiv(v, Pow2(lo), Pow2(m));
    var low, high := Remainder(x, Pow2(m)), Remainder(Quotient(x, Pow2(m)), Pow2(n));
    assert Field(v, lo, lo + (m + n)) == low + Pow2(m) * high;
    assert Pow2(m) * high == high * Pow2(m);
    DivModUnique(low + Pow2(m) * high, Pow2(m), high, low);
  }

  /** A pool as a table of secret integers. */
  ghost predicate Pool(c: Config, pages: seq<seq<nat>>) {
    && c.Valid() && |pages| == c.PoolRows()
    && forall i :: 0 <= i < |pages| ==> |pages[i]| == c.pageSize
  }

  /** One page of the shifted scan. */
  method ReadShifted(c: Config, pages: seq<seq<nat>>, selector: seq<int>, offset: nat, ghost base: nat)
    returns (page: seq<nat>)
    requires Pool(c, pages) && base < c.pageBudget <= |selector| && offset < c.pagesPerKey
    requires forall i :: 0 <= i < |selector| ==> selector[i] == if i == base then 1 else 0
    ensures base + offset < |pages| && page == pages[base + offset]
  {
    var row := SelectRow(selector, pages, c.pageBudget, offset, c.pageSize, base);
    page := row;
  }

  /** The fixed-width window of one owner for one gated descriptor. */
  method ReadWindowSlots(c: Config, pages: seq<seq<nat>>, base: nat, count: nat) returns (slots: seq<Slot>)
    requires Pool(c, pages) && base < c.pageBudget && count <= c.pagesPerKey
    ensures base + count <= |pages|
    ensures slots == UnpackSlots(c, 1, Window(pages, base, count, c.pagesPerKey, c.pageSize))
  {
    var selector := Demux(base, IndexBits(c.pageBudget));
    DemuxInRange(base, IndexBits(c.pageBudget));
    slots := [];
    for offset := 0 to c.pagesPerKey
      invariant slots == UnpackSlots(c, 1, Window(pages, base, count, offset, c.pageSize))
    {
      hide Demux, UnpackSlots, UnpackSlot, IndexBits;
      var page := ReadShifted(c, pages, selector, offset, base);
      var active := Greater(count, offset);
      MaskedSlots(c, active, page);
      UnpackSlotsConcat(c, Window(pages, base, count, offset, c.pageSize), if offset < count then page else Zeros(c.pageSize));
      slots := slots + UnpackSlots(c, active, page);
    }
  }

  /** The directory element of a key that holds the given descriptors. */
  ghost predicate RowHolds(c: Config, row: seq<nat>, ds: seq<nat>) {
    && c.Valid() && c.DescriptorBits() <= c.usableBits
    && |ds| == c.owners && row == PackedRow(c, ds)
    && forall o :: 0 <= o < |ds| ==> ds[o] < Pow2(c.DescriptorBits())
  }

  /** One owner's contribution to a key read. */
  method ReadOwnerSlots(c: Config, row: seq<nat>, ghost ds: seq<nat>, valid: int, owner: nat, pages: seq<seq<nat>>)
    returns (slots: seq<Slot>)
    requires RowHolds(c, row, ds) && IsBit(valid) && owner < c.owners && Pool(c, pages)
    ensures var (b, n) := UnpackDescriptor(c, ds[owner]);
      var usable := valid == 1 && b < c.pageBudget && n <= c.pagesPerKey;
      && (usable ==> b + n <= |pages|)
      && slots == UnpackSlots(c, 1,
           Window(pages, if usable then b else 0, if usable then n else 0, c.pagesPerKey, c.pageSize))
  {
    OwnerField(c, ds, owner);
    OffsetInField(c, owner);
    var (column, offset) := DirectorySlot(c, owner);
    hide *;
    var base, count := UnpackGated(c, row[column], offset, valid);
    slots := ReadWindowSlots(c, pages, base, count);
  }
}
