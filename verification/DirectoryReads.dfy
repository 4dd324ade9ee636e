// Every directory form of the rendered circuit -- dense, hashed, type-blocked
// with a hashed residual, folded or not -- read at a secret key: all of them
// return the packed row of the owners' descriptors of that key.
module DirectoryReads {
  import opened Wrappers
  import opened Gates
  import opened Bits
  import opened PageConfig
  import opened OwnerEdges
  import opened PageLayout
  import opened PackedDirectory
  import opened ObliviousRead
  import opened PageReads
  import opened BucketTable
  import opened CompactRead
  import opened PagedEvaluation

  // --- What a directory read must deliver ---------------------------------------------

  /** A resolved directory element: for a valid key it holds every owner's descriptor of that key. */
  ghost predicate Fetched(c: Config, layouts: seq<Layout>, key: Key, valid: int, row: seq<nat>, ds: seq<nat>) {
    && RowHolds(c, row, ds) && |layouts| == c.owners && IsBit(valid)
    && (valid == 1 ==> c.InRange(key) && forall o :: 0 <= o < c.owners ==> ds[o] == DescriptorOf(c, layouts[o], key))
  }

  lemma {:induction false} FetchedFacts(c: Config, layouts: seq<Layout>, key: Key, valid: int, row: seq<nat>, ds: seq<nat>)
    requires Fetched(c, layouts, key, valid, row, ds)
    ensures RowHolds(c, row, ds) && IsBit(valid) && |layouts| == c.owners && c.pageBudget >= 1 && |ds| == c.owners
  {
  }

  lemma {:induction false} PoolCount(c: Config, owners: seq<seq<RawEdge>>, layouts: seq<Layout>)
    requires Federation(c, owners, layouts)
    ensures |layouts| == |owners| == c.owners && c.Valid()
  {
  }

  // --- The affine directory -------------------------------------------------------------

  /** The owners' descriptors in one directory row. */
  function RowDescriptors(layouts: seq<Layout>, row: nat): (ds: seq<nat>)
    requires forall o :: 0 <= o < |layouts| ==> row < |layouts[o].directory|
    ensures |ds| == |layouts| && forall o :: 0 <= o < |ds| ==> ds[o] == layouts[o].directory[row]
  {
    seq(|layouts|, o requires 0 <= o < |layouts| => layouts[o].directory[row])
  }

  /** The assembled directory: row by row, the owners' descriptors packed into columns. */
  ghost predicate Assembled(c: Config, layouts: seq<Layout>, table: seq<seq<nat>>) {
    && c.Valid() && c.DescriptorBits() <= c.usableBits
    && |layouts| == c.owners && |table| == c.DirectoryRows()
    && (forall o :: 0 <= o < |layouts| ==> |layouts[o].directory| == |table|)
    && forall row :: 0 <= row < |table| ==> table[row] == PackedRow(c, RowDescriptors(layouts, row))
  }

  /** Every stored descriptor fits its bits. */
  lemma {:induction false} DescriptorFits(c: Config, rs: seq<Resolved>, layout: Layout, row: nat)
    requires Lossless(c, rs, layout) && row < |layout.directory|
    ensures layout.directory[row] < Pow2(c.DescriptorBits())
  {
    if layout.directory[row] != 0 {
      var key :| c.InRange(key) && c.Address(key) == Some(row);
      assert ReadsBack(c, rs, layout, key);
    }
  }

  lemma {:induction false} AssembledRow(c: Config, owners: seq<seq<RawEdge>>, layouts: seq<Layout>, table: seq<seq<nat>>, row: nat)
    requires Federation(c, owners, layouts) && Assembled(c, layouts, table) && row < |table|
    ensures forall o :: 0 <= o < |layouts| ==> row < |layouts[o].directory|
    ensures RowHolds(c, table[row], RowDescriptors(layouts, row))
  {
    forall o | 0 <= o < |layouts|
      ensures RowDescriptors(layouts, row)[o] < Pow2(c.DescriptorBits())
    {
      DescriptorFits(c, ResolveOwners(c, owners)[o], layouts[o], row);
    }
  }

  lemma {:induction false} RowsAreRectangular(c: Config, layouts: seq<Layout>, table: seq<seq<nat>>)
    requires Assembled(c, layouts, table)
    ensures Rectangular(table, DirectoryColumns(c)) && |table| == c.DirectoryRows() && c.Valid()
  {
  }

  /** `entity_ok * relation_ok`. */
  function KeyOk(c: Config, entity: nat, relation: nat): (ok: int)
    ensures ok == if c.InRange(Key(entity, relation)) then 1 else 0
  {
    KeyGates(c, entity, relation);
    (Not(Equal(entity, 0)) * Less(entity, c.EntityCount())) * RelationOk(c, relation)
  }

  function RelationOk(c: Config, relation: nat): (ok: int)
    ensures ok == if 1 <= relation <= c.RelationCount() then 1 else 0
  {
    Not(Equal(relation, 0)) * Not(Greater(relation, c.RelationCount()))
  }

  lemma {:induction false} KeyGates(c: Config, entity: nat, relation: nat)
    ensures Not(Equal(entity, 0)) * Less(entity, c.EntityCount()) == if 1 <= entity < c.EntityCount() then 1 else 0
  {
  }

  /** The selected row index of a shared relation, gated to 0. */
  function RelationIndex(c: Config, relation: nat): (index: nat)
    requires c.RelationCount() >= 1
    ensures index < c.RelationCount() && (1 <= relation <= c.RelationCount() ==> index == relation - 1)
  {
    IfElse(RelationOk(c, relation), relation - 1, 0)
  }

  // --- Selecting a public constant at a secret relation --------------------------------------

  /** `sum(selector[r] * table[r])`. */
  method SelectConstant(table: seq<int>, index: nat, bits: nat) returns (value: int)
    requires index < |table| <= Pow2(bits)
    ensures value == table[index]
  {
    var selector := Demux(index, bits);
    DemuxInRange(index, bits);
    value := 0;
    for r := 0 to |table|
      invariant value == if index < r then table[index] else 0
    {
      value := value + selector[r] * table[r];
    }
  }

  function Coefficients(t: TypeBlocks): (r: seq<int>)
    ensures |r| == |t.blocks| && forall i :: 0 <= i < |r| ==> r[i] == t.blocks[i].blockStart - t.blocks[i].typeStart
  {
    seq(|t.blocks|, i requires 0 <= i < |t.blocks| => t.blocks[i].blockStart - t.blocks[i].typeStart)
  }

  function Starts(t: TypeBlocks): (r: seq<int>)
    ensures |r| == |t.blocks| && forall i :: 0 <= i < |r| ==> r[i] == t.blocks[i].typeStart
  {
    seq(|t.blocks|, i requires 0 <= i < |t.blocks| => t.blocks[i].typeStart)
  }

  function WidthsOf(t: TypeBlocks): (r: seq<int>)
    ensures |r| == |t.blocks| && forall i :: 0 <= i < |r| ==> r[i] == t.blocks[i].width
  {
    seq(|t.blocks|, i requires 0 <= i < |t.blocks| => t.blocks[i].width)
  }

  /** The affine address of a key the ontology places, and the dummy row otherwise. */
  function MainAddress(c: Config, key: Key, valid: int): nat
    requires key.relation >= 1 || valid != 1
  {
    if valid != 1 then 0
    else
      match c.Address(key)
      case Some(row) => row
      case None => 0
  }

  /** `directory_address`: the key's validity bit and its gated affine address. */
  method DirectoryAddress(c: Config, entity: nat, relation: nat) returns (ok: int, address: nat)
    requires c.Valid()
    ensures ok == if c.InRange(Key(entity, relation)) then 1 else 0
    ensures address == MainAddress(c, Key(entity, relation), ok)
  {
    ok := KeyOk(c, entity, relation);
    match c.addressing
    case Dense(_) =>
      var gated := IfElse(ok, Times(entity, c.RelationCount()) + relation - 1, 0);
      address := gated;
    case Blocked(blocks, _) =>
      var index := RelationIndex(c, relation);
      var bits := IndexBits(c.RelationCount());
      var coefficient := SelectConstant(Coefficients(blocks), index, bits);
      var start := SelectConstant(Starts(blocks), index, bits);
      var width := SelectConstant(WidthsOf(blocks), index, bits);
      var inBlock := InBlock(entity, start, width);
      BitProduct(ok, inBlock);
      var gated := IfElse(ok * inBlock, coefficient + entity, 0);
      BlockedGate(c, entity, relation, ok, inBlock, gated);
      address := gated;
  }

  /** `(entity >= start) * (entity < start + width)`. */
  function InBlock(entity: int, start: int, width: int): (b: int)
    ensures b == if start <= entity < start + width then 1 else 0
  {
    Not(Less(entity, start)) * Less(entity, start + width)
  }

  lemma {:induction false} BlockedGate(c: Config, entity: nat, relation: nat, ok: int, inBlock: int, gated: int)
    requires c.Valid() && c.addressing.Blocked? && ok == if c.InRange(Key(entity, relation)) then 1 else 0
    requires var b := c.addressing.blocks.blocks[RelationIndex(c, relation)];
      && inBlock == (if b.typeStart <= entity < b.typeStart + b.width then 1 else 0)
      && gated == if ok == 1 && inBlock == 1 then b.blockStart - b.typeStart + entity else 0
    ensures gated >= 0 && gated == MainAddress(c, Key(entity, relation), ok)
  {
  }

  /** A gated address is always a row of the directory. */
  lemma {:induction false} MainAddressInRange(c: Config, key: Key, valid: int)
    requires c.Valid() && valid == if c.InRange(key) then 1 else 0
    ensures MainAddress(c, key, valid) < c.DirectoryRows()
  {
    if valid == 1 && c.Address(key).Some? {
      AddressInRange(c, key);
    } else {
      DirectoryNotEmpty(c);
    }
  }

  lemma {:induction false} DirectoryNotEmpty(c: Config)
    requires c.Valid()
    ensures c.DirectoryRows() >= 1
  {
    if c.addressing.Dense? {
      DenseIndexInRange(c, Key(0, 1));
    } else {
      var blocks := c.addressing.blocks;
      BlockedAddressInRange(blocks, c.EntityCount(), c.RelationCount(), Key(blocks.blocks[0].typeStart, 1));
    }
  }

  // --- The residual ----------------------------------------------------------------------------

  /** The residual tables: one, or one per relation. */
  function TableCount(c: Config, b: Buckets): nat {
    if b.partition then c.RelationCount() else 1
  }

  /** `residual_tag_bits`. */
  function TagBits(c: Config, b: Buckets): (r: nat)
    ensures r >= 1
  {
    var n := if b.partition then BitLength(c.EntityCount()) else BitLength(c.DenseRows());
    if n == 0 then 1 else n
  }

  /** The tag a key is asked for under. */
  function WantedTag(c: Config, b: Buckets, key: Key): nat {
    if b.partition then key.source + 1 else c.Tag(key)
  }

  lemma {:induction false} WantedTagFits(c: Config, b: Buckets, key: Key)
    requires c.InRange(key)
    ensures WantedTag(c, b, key) < Pow2(TagBits(c, b))
  {
    if b.partition {
      Pow2Monotone(BitLength(c.EntityCount()), TagBits(c, b));
    } else {
      DenseIndexInRange(c, key);
      TagIsNext(c, key);
      Pow2Monotone(BitLength(c.DenseRows()), TagBits(c, b));
      hide Pow2, BitLength;
    }
  }

  lemma {:induction false} TagIsNext(c: Config, key: Key)
    requires key.relation >= 1
    ensures c.Tag(key) == c.DenseIndex(key) + 1
  {
  }

  /** What an owner files in a residual table. */
  ghost function KeyedFor(c: Config, layout: Layout, table: nat): map<nat, nat> {
    match c.addressing
    case Dense(_) => DenseKeyed(layout.directory)
    case Blocked(_, b) => if b.partition then RelationKeyed(c, layout.residual, table + 1) else layout.residual
  }

  /** `{row + 1: descriptor}` for the rows in use. */
  ghost function DenseKeyed(directory: seq<nat>): (m: map<nat, nat>)
    ensures forall tag :: tag in m <==> 0 < tag <= |directory| && directory[tag - 1] != 0
    ensures forall tag :: tag in m ==> m[tag] == directory[tag - 1]
  {
    if directory == [] then map[]
    else
      var n := |directory| - 1;
      var m := DenseKeyed(directory[..n]);
      if directory[n] != 0 then m[n + 1 := directory[n]] else m
  }

  /** `{source + 1: descriptor}` for the residual keys of one relation. */
  ghost function RelationKeyed(c: Config, residual: map<nat, nat>, relation: nat): (m: map<nat, nat>)
    ensures relation >= 1 ==> forall tag :: tag in m <==> 0 < tag <= c.EntityCount() && c.Tag(Key(tag - 1, relation)) in residual
    ensures relation >= 1 ==> forall tag :: tag in m ==> m[tag] == residual[c.Tag(Key(tag - 1, relation))]
  {
    RelationKeyedTo(c, residual, relation, c.EntityCount())
  }

  ghost function RelationKeyedTo(c: Config, residual: map<nat, nat>, relation: nat, n: nat): (m: map<nat, nat>)
    ensures forall tag :: tag in m <==> 0 < tag <= n && c.Tag(Key(tag - 1, relation)) in residual
    ensures forall tag :: tag in m ==> m[tag] == residual[c.Tag(Key(tag - 1, relation))]
  {
    if n == 0 then map[]
    else
      var m := RelationKeyedTo(c, residual, relation, n - 1);
      if c.Tag(Key(n - 1, relation)) in residual then m[n := residual[c.Tag(Key(n - 1, relation))]] else m
  }

  /** One residual table, bucket by bucket. */
  ghost predicate TableHolds(c: Config, b: Buckets, layouts: seq<Layout>, rows: seq<seq<nat>>, filings: seq<seq<Filed>>, table: nat) {
    && c.pageBudget >= 1 && |filings| == |layouts| == c.owners
    && Sound(filings, b.bits, b.slots, c.DescriptorBits(), TagBits(c, b))
    && (forall o :: 0 <= o < |filings| ==> Lists(filings[o], KeyedFor(c, layouts[o], table)))
    && Times(table, b.Count()) + b.Count() <= |rows|
    && forall bucket :: 0 <= bucket < b.Count() ==> BucketRowAt(c, b, rows, filings, table, bucket)
  }

  ghost predicate BucketRowAt(c: Config, b: Buckets, rows: seq<seq<nat>>, filings: seq<seq<Filed>>, table: nat, bucket: nat) {
    && c.pageBudget >= 1 && Times(table, b.Count()) + bucket < |rows|
    && BucketRow(rows[Times(table, b.Count()) + bucket], filings, b.bits, b.slots, c.DescriptorBits(), bucket)
  }

  ghost predicate ResidualRow(c: Config, b: Buckets, row: seq<nat>) {
    c.pageBudget >= 1 && |row| == Times(c.owners, b.slots) && SmallCells(row, c.DescriptorBits() + TagBits(c, b))
  }

  /** The whole residual store; `filings[table][owner]` are the keys filed. */
  ghost predicate ResidualHolds(c: Config, b: Buckets, layouts: seq<Layout>, rows: seq<seq<nat>>, filings: seq<seq<seq<Filed>>>) {
    && c.Valid() && b.bits <= HASH_WORD_BITS && |filings| == TableCount(c, b) && |layouts| == c.owners
    && (forall i :: 0 <= i < |rows| ==> ResidualRow(c, b, rows[i]))
    && forall t :: 0 <= t < |filings| ==> TableHolds(c, b, layouts, rows, filings[t], t)
  }

  function DenseRow(c: Config, key: Key): nat {
    if key.relation >= 1 then c.DenseIndex(key) else 0
  }

  /** The residual descriptor of a key, or zero. */
  ghost function ResidualOf(c: Config, layout: Layout, key: Key): nat {
    match c.addressing
    case Dense(_) => if DenseRow(c, key) < |layout.directory| then layout.directory[DenseRow(c, key)] else 0
    case Blocked(_, _) => if c.Tag(key) in layout.residual then layout.residual[c.Tag(key)] else 0
  }

  /** The residual buckets of a configuration. */
  ghost predicate Uses(c: Config, b: Buckets) {
    match c.addressing
    case Dense(compact) => compact == Some(b)
    case Blocked(_, residual) => residual == b
  }

  /** Gated tag: zero for an invalid key. */
  function GatedTag(c: Config, b: Buckets, key: Key, valid: int): (tag: nat)
    requires IsBit(valid)
    ensures tag == if valid == 1 then WantedTag(c, b, key) else 0
  {
    IfElse(valid, WantedTag(c, b, key), 0)
  }

  lemma {:induction false} GatedTagFits(c: Config, b: Buckets, key: Key, valid: int)
    requires IsBit(valid) && (valid == 1 ==> c.InRange(key))
    ensures GatedTag(c, b, key, valid) < Pow2(TagBits(c, b))
  {
    if valid == 1 {
      WantedTagFits(c, b, key);
    }
  }

  /** What the owner's filed keys say about a gated tag. */
  lemma {:induction false} FiledIsResidual(c: Config, b: Buckets, layout: Layout, filed: seq<Filed>, table: nat, key: Key, valid: int)
    requires c.Valid() && Uses(c, b) && IsBit(valid) && (valid == 1 ==> c.InRange(key))
    requires Lists(filed, KeyedFor(c, layout, table)) && TagsReal(filed, c.DescriptorBits())
    requires |layout.directory| == c.DirectoryRows()
    requires b.partition && valid == 1 ==> table == key.relation - 1
    requires b.partition ==> c.addressing.Blocked?
    ensures Find(filed, GatedTag(c, b, key, valid)) == if valid == 1 then ResidualOf(c, layout, key) else 0
  {
    if valid == 0 {
      ZeroTagFinds(filed, c.DescriptorBits());
    } else {
      FindKeyed(filed, KeyedFor(c, layout, table), WantedTag(c, b, key));
      TagIsNext(c, key);
      DenseIndexInRange(c, key);
      hide Find, Lists, TagsReal;
    }
  }

  /** The table and bucket row a gated key is looked up in. */
  function ResidualTable(b: Buckets, relation: nat, valid: int): nat {
    if b.partition && valid == 1 && relation >= 1 then relation - 1 else 0
  }

  /** `rows[address]`: the bucket, inside the relation's slice when partitioned. */
  method ResidualAddress(c: Config, b: Buckets, relation: nat, valid: int, bucket: nat) returns (row: nat)
    requires c.Valid() && IsBit(valid) && (valid == 1 ==> 1 <= relation <= c.RelationCount())
    requires valid == 0 ==> bucket == 0
    ensures row == Times(ResidualTable(b, relation, valid), b.Count()) + bucket
  {
    TimesFacts(0, b.Count());
    if b.partition {
      BitProduct(valid, RelationOk(c, relation));
      var use := valid * RelationOk(c, relation);
      assert use == valid;
      var wide: int := if relation >= 1 then Times(relation - 1, b.Count()) + bucket else bucket - b.Count();
      var gated := IfElse(use, wide, 0);
      row := gated;
    } else {
      row := bucket;
    }
  }

  lemma {:induction false} ZeroTagBucket(bits: nat)
    ensures Bucket(0, bits) == 0
  {
    TimesFacts(0, MULTIPLIER);
    SmallQuotient(0, Pow2(HASH_WORD_BITS));
    if 0 < bits <= HASH_WORD_BITS {
      SmallQuotient(0, Pow2(HASH_WORD_BITS - bits));
    }
  }

  /** Resolving the right bucket row yields the owners' residual descriptors. */
  lemma {:induction false} ResolvedResidual(c: Config, b: Buckets, layouts: seq<Layout>, filed: seq<seq<Filed>>, cells: seq<nat>, table: nat, key: Key, valid: int)
    requires c.Valid() && Uses(c, b) && IsBit(valid) && (valid == 1 ==> c.InRange(key)) && (b.partition ==> c.addressing.Blocked?)
    requires |filed| == |layouts| == c.owners && Sound(filed, b.bits, b.slots, c.DescriptorBits(), TagBits(c, b))
    requires forall o :: 0 <= o < |filed| ==> Lists(filed[o], KeyedFor(c, layouts[o], table))
    requires forall o :: 0 <= o < |layouts| ==> |layouts[o].directory| == c.DirectoryRows()
    requires b.partition && valid == 1 ==> table == key.relation - 1
    requires BucketRow(cells, filed, b.bits, b.slots, c.DescriptorBits(), Bucket(GatedTag(c, b, key, valid), b.bits))
    ensures var ds := MatchedOwners(cells, c.owners, b.slots, GatedTag(c, b, key, valid), c.DescriptorBits());
      forall o :: 0 <= o < |layouts| ==> ds[o] == if valid == 1 then ResidualOf(c, layouts[o], key) else 0
  {
    var tag := GatedTag(c, b, key, valid);
    RowFinds(cells, filed, b.bits, b.slots, c.DescriptorBits(), TagBits(c, b), tag);
    forall o | 0 <= o < |layouts|
      ensures Find(filed[o], tag) == if valid == 1 then ResidualOf(c, layouts[o], key) else 0
    {
      assert SoundOne(filed[o], b.bits, b.slots, c.DescriptorBits(), TagBits(c, b));
      FiledIsResidual(c, b, layouts[o], filed[o], table, key, valid);
    }
    hide Find, MatchedOwners, ResidualOf, BucketRow, Sound, Lists;
  }

  /** The residual descriptors of a gated key. */
  ghost predicate ResidualDescriptors(c: Config, layouts: seq<Layout>, key: Key, valid: int, row: seq<nat>, ds: seq<nat>) {
    && c.pageBudget >= 1 && |ds| == |layouts| == c.owners && row == PackedRow(c, ds)
    && forall o :: 0 <= o < |ds| ==> ds[o] == if valid == 1 then ResidualOf(c, layouts[o], key) else 0
  }

  lemma {:induction false} ResidualParts(c: Config, b: Buckets, layouts: seq<Layout>, rows: seq<seq<nat>>, filings: seq<seq<seq<Filed>>>, table: nat, bucket: nat)
    requires ResidualHolds(c, b, layouts, rows, filings) && table < TableCount(c, b) && bucket < b.Count()
    ensures table < |filings| && TableHolds(c, b, layouts, rows, filings[table], table)
    ensures Times(table, b.Count()) + bucket < |rows| && BucketRowAt(c, b, rows, filings[table], table, bucket)
    ensures c.Valid() && b.bits <= HASH_WORD_BITS && Rectangular(rows, Times(c.owners, b.slots))
    ensures ResidualRow(c, b, rows[Times(table, b.Count()) + bucket])
  {
    hide BucketRowAt, SmallCells, Sound, Lists;
  }

  lemma {:induction false} LayoutHeights(c: Config, owners: seq<seq<RawEdge>>, layouts: seq<Layout>)
    requires Federation(c, owners, layouts)
    ensures c.Valid() && |layouts| == c.owners
    ensures forall o :: 0 <= o < |layouts| ==> |layouts[o].directory| == c.DirectoryRows()
  {
    forall o | 0 <= o < |layouts|
      ensures |layouts[o].directory| == c.DirectoryRows()
    {
      assert Lossless(c, ResolveOwners(c, owners)[o], layouts[o]);
    }
  }

  /** The table a gated key is looked up in. */
  lemma {:induction false} TableInRange(c: Config, b: Buckets, key: Key, valid: int)
    requires c.Valid() && IsBit(valid) && (valid == 1 ==> c.InRange(key))
    ensures valid == 1 ==> 1 <= key.relation <= c.RelationCount()
    ensures ResidualTable(b, key.relation, valid) < TableCount(c, b)
    ensures b.partition && valid == 1 ==> ResidualTable(b, key.relation, valid) == key.relation - 1
  {
  }

  /** A demultiplexed index selects exactly the table's rows. */
  ghost predicate SelectorFits(rows: nat) {
    rows > 0 && rows == Pow2(IndexBits(rows))
  }

  lemma {:induction false} SelectorRows(rows: nat)
    requires SelectorFits(rows)
    ensures rows > 0 && rows == Pow2(IndexBits(rows))
  {
  }

  /** `read_compact_directory` for one address: a matrix product, so the store must be as tall as the selector. */
  method ReadResidual(c: Config, b: Buckets, ghost owners: seq<seq<RawEdge>>, ghost layouts: seq<Layout>, rows: seq<seq<nat>>,
                      ghost filings: seq<seq<seq<Filed>>>, entity: nat, relation: nat, valid: int)
    returns (row: seq<nat>, ghost ds: seq<nat>)
    requires Federation(c, owners, layouts) && ResidualHolds(c, b, layouts, rows, filings) && Uses(c, b) && SelectorFits(|rows|)
    requires IsBit(valid) && (valid == 1 ==> c.InRange(Key(entity, relation))) && (b.partition ==> c.addressing.Blocked?)
    ensures ResidualDescriptors(c, layouts, Key(entity, relation), valid, row, ds)
  {
    var key := Key(entity, relation);
    hide *;
    var tag := GatedTag(c, b, key, valid);
    LayoutHeights(c, owners, layouts);
    TableInRange(c, b, key, valid);
    var bucket := ResidualBucket(c, b, layouts, rows, filings, tag, valid, key);
    ghost var table := ResidualTable(b, relation, valid);
    ResidualParts(c, b, layouts, rows, filings, table, bucket);
    var address := ResidualAddress(c, b, relation, valid, bucket);
    SelectorRows(|rows|);
    var read := MultiplyRow(rows, address, IndexBits(|rows|), Times(c.owners, b.slots));
    row, ds := ResolveCells(c, b, owners, layouts, rows, filings, read, table, key, tag, valid);
  }

  /** The bucket of a gated tag. */
  method ResidualBucket(c: Config, b: Buckets, ghost layouts: seq<Layout>, ghost rows: seq<seq<nat>>, ghost filings: seq<seq<seq<Filed>>>,
                        tag: nat, ghost valid: int, ghost key: Key) returns (bucket: nat)
    requires ResidualHolds(c, b, layouts, rows, filings) && IsBit(valid) && tag == GatedTag(c, b, key, valid)
    ensures bucket == Bucket(tag, b.bits) && bucket < b.Count() && (valid == 0 ==> bucket == 0)
  {
    CircuitBucketIs(tag, TagBits(c, b), b.bits);
    BucketInRange(tag, b.bits);
    ZeroTagBucket(b.bits);
    hide Bucket, ResidualHolds, CircuitBucket;
    assert b.bits <= HASH_WORD_BITS by {
      HashWidth(c, b, layouts, rows, filings);
    }
    var sliced := CircuitBucket(tag, TagBits(c, b), b.bits);
    bucket := sliced;
  }

  lemma {:induction false} HashWidth(c: Config, b: Buckets, layouts: seq<Layout>, rows: seq<seq<nat>>, filings: seq<seq<seq<Filed>>>)
    requires ResidualHolds(c, b, layouts, rows, filings)
    ensures b.bits <= HASH_WORD_BITS
  {
  }

  /** A bucket's row, as the cells a reader fetches. */
  lemma {:induction false} BucketInTable(b: Buckets, tag: nat)
    ensures Bucket(tag, b.bits) < b.Count()
  {
    BucketInRange(tag, b.bits);
  }

  lemma {:induction false} BucketCells(c: Config, b: Buckets, rows: seq<seq<nat>>, filed: seq<seq<Filed>>, table: nat, bucket: nat, cells: seq<nat>)
    requires BucketRowAt(c, b, rows, filed, table, bucket) && Times(table, b.Count()) + bucket < |rows| && c.pageBudget >= 1
    requires cells == rows[Times(table, b.Count()) + bucket]
    ensures BucketRow(cells, filed, b.bits, b.slots, c.DescriptorBits(), bucket)
  {
  }

  /** Compare the tags of a fetched bucket row and rebuild the packed row. */
  method ResolveCells(c: Config, b: Buckets, ghost owners: seq<seq<RawEdge>>, ghost layouts: seq<Layout>, ghost rows: seq<seq<nat>>,
                      ghost filings: seq<seq<seq<Filed>>>, cells: seq<nat>, ghost table: nat, ghost key: Key, tag: nat, ghost valid: int)
    returns (row: seq<nat>, ghost ds: seq<nat>)
    requires Federation(c, owners, layouts) && ResidualHolds(c, b, layouts, rows, filings) && Uses(c, b)
    requires IsBit(valid) && (valid == 1 ==> c.InRange(key)) && (b.partition ==> c.addressing.Blocked?)
    requires tag == GatedTag(c, b, key, valid) && table < TableCount(c, b) && (b.partition && valid == 1 ==> table == key.relation - 1)
    requires Times(table, b.Count()) + Bucket(tag, b.bits) < |rows| && cells == rows[Times(table, b.Count()) + Bucket(tag, b.bits)]
    ensures ResidualDescriptors(c, layouts, key, valid, row, ds)
  {
    hide *;
    GatedTagFits(c, b, key, valid);
    LayoutHeights(c, owners, layouts);
    BucketInTable(b, tag);
    ResidualParts(c, b, layouts, rows, filings, table, Bucket(tag, b.bits));
    TableParts(c, b, layouts, rows, filings[table], table);
    RowShape(c, b, cells);
    BucketCells(c, b, rows, filings[table], table, Bucket(tag, b.bits), cells);
    ResolvedResidual(c, b, layouts, filings[table], cells, table, key, valid);
    ds := MatchedOwners(cells, c.owners, b.slots, tag, c.DescriptorBits());
    row := CompactRead.Resolve(c, cells, b.slots, tag, TagBits(c, b));
    DescriptorsAre(c, layouts, key, valid, row, ds);
  }

  lemma {:induction false} TableParts(c: Config, b: Buckets, layouts: seq<Layout>, rows: seq<seq<nat>>, filed: seq<seq<Filed>>, table: nat)
    requires TableHolds(c, b, layouts, rows, filed, table)
    ensures c.pageBudget >= 1 && |filed| == |layouts| == c.owners && Sound(filed, b.bits, b.slots, c.DescriptorBits(), TagBits(c, b))
    ensures forall o :: 0 <= o < |filed| ==> Lists(filed[o], KeyedFor(c, layouts[o], table))
  {
    hide Sound, Lists, BucketRowAt;
  }

  lemma {:induction false} RowShape(c: Config, b: Buckets, row: seq<nat>)
    requires ResidualRow(c, b, row)
    ensures c.pageBudget >= 1 && |row| == Times(c.owners, b.slots) && SmallCells(row, c.DescriptorBits() + TagBits(c, b))
  {
  }

  lemma {:induction false} DescriptorsAre(c: Config, layouts: seq<Layout>, key: Key, valid: int, row: seq<nat>, ds: seq<nat>)
    requires c.pageBudget >= 1 && |ds| == |layouts| == c.owners && row == PackedRow(c, ds)
    requires forall o :: 0 <= o < |layouts| ==> ds[o] == if valid == 1 then ResidualOf(c, layouts[o], key) else 0
    ensures ResidualDescriptors(c, layouts, key, valid, row, ds)
  {
  }
}
