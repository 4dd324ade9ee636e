// The circuit's read of the hashed directory: the bucket from a bit slice, the
// tag comparison by XNOR and an AND tree, and the rebuilt packed row.
module CompactRead {
  import opened Gates
  import opened Bits
  import opened PageConfig
  import opened BucketTable
  import opened PackedDirectory

  // --- The bucket of a secret tag -----------------------------------------------------

  /** `compact_buckets`: bits of the exact product, truncated to the word, top `bits` of it. */
  function CircuitBucket(tag: nat, tagBits: nat, bits: nat): int
    requires bits <= HASH_WORD_BITS
  {
    if bits == 0 then 0
    else Compose(Decompose(Times(tag, MULTIPLIER), tagBits + HASH_WORD_BITS)[HASH_WORD_BITS - bits..HASH_WORD_BITS])
  }

  /** The slice is the hash's bucket. */
  lemma {:induction false} CircuitBucketIs(tag: nat, tagBits: nat, bits: nat)
    requires bits <= HASH_WORD_BITS
    ensures CircuitBucket(tag, tagBits, bits) == Bucket(tag, bits)
  {
    if bits > 0 {
      var v, lo := Times(tag, MULTIPLIER), HASH_WORD_BITS - bits;
      ComposeSlice(v, tagBits + HASH_WORD_BITS, lo, HASH_WORD_BITS);
      HighField(v, lo, bits);
      hide Times, Decompose, Compose, Field;
    }
  }

  /** Truncating to the word and shifting is taking a middle bit field. */
  lemma {:induction false} HighField(v: nat, lo: nat, n: nat)
    ensures Field(v, lo, lo + n) == Quotient(Remainder(v, Pow2(lo + n)), Pow2(lo))
  {
    Pow2Add(lo, n);
    DivDiv(v, Pow2(lo), Pow2(n));
    var q, r := Quotient(v, Pow2(lo)), Remainder(v, Pow2(lo));
    var high := Remainder(q, Pow2(n));
    hide Quotient, Remainder;
    assert Pow2(lo) * high == high * Pow2(lo);
    DivModUnique(r + Pow2(lo) * high, Pow2(lo), high, r);
  }

  // --- Comparing tags bit by bit --------------------------------------------------------

  ghost predicate AreBits(bits: seq<int>) {
    forall i :: 0 <= i < |bits| ==> IsBit(bits[i])
  }

  /** `1 - a - b + 2ab`, element-wise. */
  function Xnor(a: seq<int>, b: seq<int>): (r: seq<int>)
    requires |a| == |b|
    ensures |r| == |a| && forall i :: 0 <= i < |r| ==> r[i] == 1 - a[i] - b[i] + 2 * (a[i] * b[i])
  {
    seq(|a|, i requires 0 <= i < |a| => 1 - a[i] - b[i] + 2 * (a[i] * b[i]))
  }

  lemma {:induction false} XnorGate(a: int, b: int)
    requires IsBit(a) && IsBit(b)
    ensures 1 - a - b + 2 * (a * b) == if a == b then 1 else 0
  {
  }

  ghost predicate AllOnes(bits: seq<int>) {
    forall i :: 0 <= i < |bits| ==> bits[i] == 1
  }

  /** One round of the tree: neighbours are multiplied, an odd one is carried over. */
  function AndRound(bits: seq<int>): (r: seq<int>)
    ensures |r| == (|bits| + 1) / 2
    ensures forall i :: 0 <= i < |r| ==> r[i] == if 2 * i + 1 < |bits| then bits[2 * i] * bits[2 * i + 1] else bits[2 * i]
  {
    seq((|bits| + 1) / 2, i requires 0 <= i < (|bits| + 1) / 2 =>
      if 2 * i + 1 < |bits| then bits[2 * i] * bits[2 * i + 1] else bits[2 * i])
  }

  /** A round keeps what the bits say together. */
  lemma {:induction false} AndRoundKeeps(bits: seq<int>)
    requires AreBits(bits)
    ensures AreBits(AndRound(bits)) && (AllOnes(AndRound(bits)) <==> AllOnes(bits))
  {
    var r := AndRound(bits);
    forall i | 0 <= i < |r|
      ensures IsBit(r[i])
      ensures r[i] == 1 <==> bits[2 * i] == 1 && (2 * i + 1 < |bits| ==> bits[2 * i + 1] == 1)
    {
      if 2 * i + 1 < |bits| {
        BitProduct(bits[2 * i], bits[2 * i + 1]);
      }
    }
    hide AndRound;
    if AllOnes(r) {
      forall j | 0 <= j < |bits|
        ensures bits[j] == 1
      {
        assert r[j / 2] == 1;
      }
    }
  }

  /** The rendered AND tree. */
  method AndTree(bits: seq<int>) returns (all: int)
    requires |bits| >= 1 && AreBits(bits)
    ensures all == if AllOnes(bits) then 1 else 0
  {
    var level := bits;
    while |level| > 1
      invariant |level| >= 1 && AreBits(level) && (AllOnes(level) <==> AllOnes(bits))
      decreases |level|
    {
      AndRoundKeeps(level);
      hide AreBits, AllOnes;
      level := AndRound(level);
    }
    all := level[0];
    assert level == [all];
  }

  /** The bits of a number are bits, and equal numbers are those with equal bits. */
  lemma {:induction false} DecomposeBits(v: nat, n: nat)
    ensures AreBits(Decompose(v, n)) && (v < Pow2(n) ==> Compose(Decompose(v, n)) == v)
  {
    if n > 0 {
      DecomposeBits(v / 2, n - 1);
      assert Decompose(v, n)[1..] == Decompose(v / 2, n - 1);
    }
  }

  lemma {:induction false} SameBits(a: seq<int>, b: seq<int>)
    requires |a| == |b| && AreBits(a) && AreBits(b)
    ensures Compose(a) == Compose(b) <==> a == b
  {
    if a != [] {
      SameBits(a[1..], b[1..]);
      assert a == [a[0]] + a[1..] && b == [b[0]] + b[1..];
      assert AreBits(a[1..]) && AreBits(b[1..]);
      if Compose(a) == Compose(b) {
        assert a[0] == b[0];
      }
    }
  }

  /** The XNOR bits are all one exactly when the numbers agree. */
  lemma {:induction false} XnorMeansEqual(a: seq<int>, b: seq<int>)
    requires |a| == |b| && AreBits(a) && AreBits(b)
    ensures AreBits(Xnor(a, b)) && (AllOnes(Xnor(a, b)) <==> Compose(a) == Compose(b))
  {
    SameBits(a, b);
    forall i | 0 <= i < |a|
      ensures Xnor(a, b)[i] == if a[i] == b[i] then 1 else 0
    {
      XnorGate(a[i], b[i]);
    }
    hide Compose, Xnor;
    if AllOnes(Xnor(a, b)) {
      assert a == b;
    }
  }

  // --- One fetched slot ------------------------------------------------------------------

  /** The slot's descriptor if its tag is the wanted one, zero otherwise. */
  method SlotGate(cell: nat, tag: nat, tagBits: nat, descriptorBits: nat) returns (selected: int)
    requires cell < Pow2(descriptorBits + tagBits) && tag < Pow2(tagBits) && tagBits >= 1
    ensures selected == if ShiftRight(cell, descriptorBits) == tag then Remainder(cell, Pow2(descriptorBits)) else 0
  {
    var bits := Decompose(cell, descriptorBits + tagBits);
    var descriptor := Compose(bits[..descriptorBits]);
    var stored, wanted := bits[descriptorBits..], Decompose(tag, tagBits);
    SlotParts(cell, tagBits, descriptorBits);
    DecomposeBits(cell, descriptorBits + tagBits);
    DecomposeBits(tag, tagBits);
    assert AreBits(stored);
    XnorMeansEqual(stored, wanted);
    hide *;
    var equal := AndTree(Xnor(stored, wanted));
    selected := Gate(equal, descriptor);
  }

  /** `equal * descriptor`. */
  function Gate(equal: int, descriptor: int): (r: int)
    ensures equal == 1 ==> r == descriptor
    ensures equal == 0 ==> r == 0
  {
    equal * descriptor
  }

  lemma {:induction false} SlotParts(cell: nat, tagBits: nat, descriptorBits: nat)
    requires cell < Pow2(descriptorBits + tagBits)
    ensures var bits := Decompose(cell, descriptorBits + tagBits);
      && Compose(bits[..descriptorBits]) == Remainder(cell, Pow2(descriptorBits))
      && Compose(bits[descriptorBits..]) == ShiftRight(cell, descriptorBits)
  {
    var n := descriptorBits + tagBits;
    var bits := Decompose(cell, n);
    ComposeSlice(cell, n, 0, descriptorBits);
    ComposeSlice(cell, n, descriptorBits, n);
    DivModUnique(cell, 1, cell, 0);
    Pow2Add(descriptorBits, tagBits);
    QuotientBound(cell, Pow2(descriptorBits), Pow2(tagBits));
    SmallQuotient(Quotient(cell, Pow2(descriptorBits)), Pow2(tagBits));
    hide Quotient, Remainder;
    assert bits[0..descriptorBits] == bits[..descriptorBits];
    assert bits[descriptorBits..n] == bits[descriptorBits..];
  }

  /** All slots of one owner: the matching descriptors added up. */
  method OwnerTotal(cells: seq<nat>, tag: nat, tagBits: nat, descriptorBits: nat) returns (total: nat)
    requires tag < Pow2(tagBits) && tagBits >= 1 && SmallCells(cells, descriptorBits + tagBits)
    ensures total == Matched(cells, tag, descriptorBits)
  {
    total := 0;
    for slot := 0 to |cells|
      invariant total == Matched(cells[..slot], tag, descriptorBits)
    {
      assert cells[..slot + 1][..slot] == cells[..slot];
      hide Pow2, ShiftRight, Remainder;
      var selected := SlotGate(cells[slot], tag, tagBits, descriptorBits);
      total := total + selected;
    }
    assert cells[..|cells|] == cells;
  }

  // --- A whole fetched bucket row ------------------------------------------------------------

  /** Owner `o`'s cells in a bucket row. */
  function OwnerCells(row: seq<nat>, o: nat, slots: nat): (r: seq<nat>)
    requires Times(o, slots) + slots <= |row|
  {
    row[Times(o, slots)..Times(o, slots) + slots]
  }

  /** What every owner's cells say about a tag. */
  function MatchedOwners(row: seq<nat>, owners: nat, slots: nat, tag: nat, descriptorBits: nat): (r: seq<nat>)
    requires Times(owners, slots) <= |row|
    ensures |r| == owners
  {
    if owners == 0 then []
    else
      TimesFacts(owners, slots);
      MatchedOwners(row, owners - 1, slots, tag, descriptorBits) + [Matched(OwnerCells(row, owners - 1, slots), tag, descriptorBits)]
  }

  lemma {:induction false} MatchedOwnersAt(row: seq<nat>, owners: nat, slots: nat, tag: nat, descriptorBits: nat, o: nat)
    requires Times(owners, slots) <= |row| && o < owners
    ensures Times(o, slots) + slots <= |row|
    ensures MatchedOwners(row, owners, slots, tag, descriptorBits)[o] == Matched(OwnerCells(row, o, slots), tag, descriptorBits)
  {
    TimesFacts(owners, slots);
    TimesFacts(o, slots);
    TimesMonotone(o + 1, owners, slots);
    hide Times;
    if o < owners - 1 {
      MatchedOwnersAt(row, owners - 1, slots, tag, descriptorBits, o);
    }
  }

  ghost predicate SmallCells(row: seq<nat>, bits: nat) {
    forall k :: 0 <= k < |row| ==> row[k] < Pow2(bits)
  }

  /** `resolve_compact_fetched`: the packed row of the matching descriptors. */
  method Resolve(c: Config, row: seq<nat>, slots: nat, tag: nat, tagBits: nat) returns (result: seq<nat>)
    requires c.pageBudget >= 1 && Times(c.owners, slots) == |row| && tag < Pow2(tagBits) && tagBits >= 1
    requires SmallCells(row, c.DescriptorBits() + tagBits)
    ensures result == PackedRow(c, MatchedOwners(row, c.owners, slots, tag, c.DescriptorBits()))
  {
    result := ZeroColumns(DirectoryColumns(c));
    EmptyRow(c);
    assert result == PackedRow(c, []);
    TimesFacts(0, slots);
    for owner := 0 to c.owners
      invariant Times(owner, slots) <= |row|
      invariant result == PackedRow(c, MatchedOwners(row, owner, slots, tag, c.DescriptorBits()))
    {
      TimesFacts(owner, slots);
      TimesMonotone(owner + 1, c.owners, slots);
      hide Times, Pow2, PackedRow, Matched, DirectorySlot, DirectoryColumns;
      var cells := OwnerCells(row, owner, slots);
      CellsSmall(row, Times(owner, slots), slots, c.DescriptorBits() + tagBits);
      var total := OwnerTotal(cells, tag, tagBits, c.DescriptorBits());
      AppendOwner(c, MatchedOwners(row, owner, slots, tag, c.DescriptorBits()), total);
      var slot := DirectorySlot(c, owner);
      result := AddShifted(result, slot.0, total, slot.1);
    }
  }

  lemma {:induction false} CellsSmall(row: seq<nat>, from: nat, slots: nat, bits: nat)
    requires SmallCells(row, bits) && from + slots <= |row|
    ensures SmallCells(row[from..from + slots], bits)
  {
  }

  function ZeroColumns(n: nat): (r: seq<nat>)
    ensures |r| == n && forall i :: 0 <= i < n ==> r[i] == 0
  {
    seq(n, _ => 0)
  }

  // --- The combined table ----------------------------------------------------------------------

  /** A bucket row that holds, owner by owner, the keys filed in that bucket. */
  ghost predicate BucketRow(row: seq<nat>, filings: seq<seq<Filed>>, bits: nat, slots: nat, descriptorBits: nat, bucket: nat) {
    && |row| == Times(|filings|, slots)
    && forall o :: 0 <= o < |filings| ==> CellsHold(row, filings[o], o, bits, slots, descriptorBits, bucket)
  }

  ghost predicate CellsHold(row: seq<nat>, filed: seq<Filed>, o: nat, bits: nat, slots: nat, descriptorBits: nat, bucket: nat) {
    && Times(o, slots) + slots <= |row|
    && OwnerCells(row, o, slots) == SlotsOf(InBucket(filed, bits, bucket), slots, descriptorBits)
  }

  /** The owners' filed keys are usable: distinct real tags, and every bucket has room. */
  ghost predicate Sound(filings: seq<seq<Filed>>, bits: nat, slots: nat, descriptorBits: nat, tagBits: nat) {
    forall o :: 0 <= o < |filings| ==> SoundOne(filings[o], bits, slots, descriptorBits, tagBits)
  }

  ghost predicate SoundOne(filed: seq<Filed>, bits: nat, slots: nat, descriptorBits: nat, tagBits: nat) {
    && TagsDistinct(filed) && TagsReal(filed, descriptorBits) && Roomy(filed, bits, slots)
    && forall i :: 0 <= i < |filed| ==> filed[i].tag < Pow2(tagBits)
  }

  /** The owners' descriptors of a tag. */
  function FindAll(filings: seq<seq<Filed>>, tag: nat): (r: seq<nat>)
    ensures |r| == |filings| && forall o :: 0 <= o < |r| ==> r[o] == Find(filings[o], tag)
  {
    seq(|filings|, o requires 0 <= o < |filings| => Find(filings[o], tag))
  }

  /** One owner's cells of the tag's own bucket yield its descriptor. */
  lemma {:induction false} CellsFind(row: seq<nat>, filed: seq<Filed>, o: nat, bits: nat, slots: nat, descriptorBits: nat, tagBits: nat, tag: nat)
    requires SoundOne(filed, bits, slots, descriptorBits, tagBits)
    requires CellsHold(row, filed, o, bits, slots, descriptorBits, Bucket(tag, bits))
    ensures Matched(OwnerCells(row, o, slots), tag, descriptorBits) == Find(filed, tag)
  {
    var bucket := Bucket(tag, bits);
    hide Bucket, Matched, SlotsOf;
    InBucketDistinct(filed, bits, bucket, descriptorBits);
    MatchedPadding(InBucket(filed, bits, bucket), slots, tag, descriptorBits);
    FindInBucket(filed, bits, tag);
  }

  /** Tag zero, which a gated-off address asks for, finds nothing. */
  lemma {:induction false} ZeroTagFinds(filed: seq<Filed>, descriptorBits: nat)
    requires TagsReal(filed, descriptorBits)
    ensures Find(filed, 0) == 0
  {
    FindAbsent(filed, 0);
  }

  /** The bucket row of a tag yields every owner's descriptor of that tag. */
  lemma {:induction false} RowFinds(row: seq<nat>, filings: seq<seq<Filed>>, bits: nat, slots: nat, descriptorBits: nat, tagBits: nat, tag: nat)
    requires BucketRow(row, filings, bits, slots, descriptorBits, Bucket(tag, bits)) && Sound(filings, bits, slots, descriptorBits, tagBits)
    ensures MatchedOwners(row, |filings|, slots, tag, descriptorBits) == FindAll(filings, tag)
  {
    var matched := MatchedOwners(row, |filings|, slots, tag, descriptorBits);
    forall o | 0 <= o < |filings|
      ensures matched[o] == Find(filings[o], tag)
    {
      assert CellsHold(row, filings[o], o, bits, slots, descriptorBits, Bucket(tag, bits));
      assert SoundOne(filings[o], bits, slots, descriptorBits, tagBits);
      MatchedOwnersAt(row, |filings|, slots, tag, descriptorBits, o);
      CellsFind(row, filings[o], o, bits, slots, descriptorBits, tagBits, tag);
    }
    hide MatchedOwners;
    assert matched == FindAll(filings, tag);
  }

  /** Stored cells fit the slot width the circuit decomposes. */
  lemma {:induction false} CellFits(f: Filed, descriptorBits: nat, tagBits: nat)
    requires f.tag < Pow2(tagBits) && f.descriptor < Pow2(descriptorBits)
    ensures Slot(f, descriptorBits) < Pow2(descriptorBits + tagBits)
  {
    Pow2Add(descriptorBits, tagBits);
    DescriptorBound(f.descriptor, f.tag, Pow2(descriptorBits), Pow2(tagBits));
  }
}
