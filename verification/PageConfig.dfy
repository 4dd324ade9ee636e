// The public configuration of the relation-paged layout: identifiers, bounds,
// field widths, and where a (source, relation) key lives in the directory.
module PageConfig {
  import opened Wrappers
  import opened Bits
  import opened PackedEdges

  /** A directory key. Entity slot 0 is the reserved dummy; relation IDs start at 1. */
  datatype Key = Key(source: nat, relation: nat)

  /** A relation's contiguous rows: `width` entities from slot `typeStart`, from row `blockStart`. */
  datatype Block = Block(typeStart: nat, width: nat, blockStart: nat)

  /** One block per relation, in relation-ID order. */
  datatype TypeBlocks = TypeBlocks(blocks: seq<Block>) {

    ghost predicate Valid(entityCount: nat, relationCount: nat) {
      && |blocks| == relationCount
      && (forall r :: 0 <= r < relationCount ==>
            1 <= blocks[r].typeStart && 1 <= blocks[r].width && blocks[r].typeStart + blocks[r].width <= entityCount)
      && (relationCount > 0 ==> blocks[0].blockStart == 1)
      && (forall r :: 0 < r < relationCount ==> blocks[r].blockStart == blocks[r - 1].blockStart + blocks[r - 1].width)
    }

    /** Directory height, including the all-zero row zero. */
    function TotalRows(): nat {
      if blocks == [] then 1 else blocks[|blocks| - 1].blockStart + blocks[|blocks| - 1].width
    }

    /** `None` when the ontology forbids the key. */
    function Address(key: Key): Option<nat> {
      if !(1 <= key.relation <= |blocks|) then None
      else
        var b := blocks[key.relation - 1];
        if b.typeStart <= key.source < b.typeStart + b.width
        then Some(b.blockStart + (key.source - b.typeStart))
        else None
    }
  }

  /** A hashed table: `2^bits` buckets of `slots` slots per owner, optionally one table per relation. */
  datatype Buckets = Buckets(bits: nat, slots: nat, partition: bool) {
    function Count(): nat {
      Pow2(bits)
    }
  }

  /**
   * Where descriptors live: one row per key, optionally re-indexed by hash; or one block per
   * relation, with a hashed residual for the keys the ontology does not place.
   */
  datatype Addressing = Dense(compact: Option<Buckets>) | Blocked(blocks: TypeBlocks, residual: Buckets)

  datatype Config = Config(
    owners: nat, entities: map<string, nat>, relations: map<string, nat>, topK: nat, dedup: bool,
    evidenceBits: nat, scoreBits: nat, usableBits: nat,
    pageSize: nat, pagesPerKey: nat, pageBudget: nat,
    frontierPerOwner: Option<nat>, globalFrontier: Option<nat>, addressing: Addressing)
  {
    ghost predicate Valid() {
      && owners >= 1 && topK >= 1 && |relations| >= 1
      && (forall name :: name in entities ==> 1 <= entities[name] <= |entities|)
      && (forall name :: name in relations ==> 1 <= relations[name] <= |relations|)
      && DistinctIds()
      && pageSize >= 1 && pagesPerKey >= 1 && pageBudget >= 2
      && (frontierPerOwner.Some? ==> 1 <= frontierPerOwner.value <= SlotsPerKey())
      && (globalFrontier.Some? ==> 1 <= globalFrontier.value)
      && (addressing.Blocked? ==> addressing.blocks.Valid(EntityCount(), RelationCount()))
      && (addressing.Blocked? ==> addressing.residual.slots >= 1)
      && (addressing.Dense? && addressing.compact.Some? ==> addressing.compact.value.slots >= 1 && !addressing.compact.value.partition)
    }

    /** No two names share an identifier. */
    ghost predicate DistinctIds() {
      && (forall a, b :: a in entities && b in entities && entities[a] == entities[b] ==> a == b)
      && forall a, b :: a in relations && b in relations && relations[a] == relations[b] ==> a == b
    }

    function EntityCount(): nat { |entities| + 1 }

    function RelationCount(): nat { |relations| }

    function SlotsPerKey(): nat {
      Times(pagesPerKey, pageSize)
    }

    /** How many of one owner's first-hop matches are followed. */
    function OwnerFrontier(): nat {
      match frontierPerOwner
      case Some(bound) => bound
      case None => SlotsPerKey()
    }

    /** Page-pool height, with the tail that keeps every shifted read in range. */
    function PoolRows(): nat
      requires pagesPerKey >= 1
    {
      pageBudget + pagesPerKey - 1
    }

    function EdgeWidths(): Widths {
      Widths(IndexBits(EntityCount()), if BitLength(RelationCount()) == 0 then 1 else BitLength(RelationCount()),
             evidenceBits, scoreBits, usableBits)
    }

    function PageBaseBits(): nat
      requires pageBudget >= 1
    {
      IndexBits(pageBudget)
    }

    function PageCountBits(): nat {
      if BitLength(pagesPerKey) == 0 then 1 else BitLength(pagesPerKey)
    }

    function DescriptorBits(): nat
      requires pageBudget >= 1
    {
      PageBaseBits() + PageCountBits()
    }

    /** A key some edge could have. */
    predicate InRange(key: Key) {
      1 <= key.source < EntityCount() && 1 <= key.relation <= RelationCount()
    }

    /** The affine address `source * relation_count + (relation - 1)`. */
    function DenseIndex(key: Key): nat
      requires key.relation >= 1
    {
      ProductIsNat(key.source, RelationCount());
      key.source * RelationCount() + (key.relation - 1)
    }

    /** The tag a residual descriptor is filed under; zero is reserved for an empty slot. */
    function Tag(key: Key): nat {
      ProductIsNat(key.source, RelationCount());
      key.source * RelationCount() + key.relation
    }

    function DenseRows(): nat {
      ProductIsNat(EntityCount(), RelationCount());
      EntityCount() * RelationCount()
    }

    ghost predicate Addressable() {
      addressing.Blocked? ==> addressing.blocks.Valid(EntityCount(), RelationCount())
    }

    function DirectoryRows(): nat {
      match addressing
      case Dense(_) => DenseRows()
      case Blocked(blocks, _) => blocks.TotalRows()
    }

    /** The directory row of a key, or `None` when it belongs to the residual. */
    function Address(key: Key): Option<nat> {
      match addressing
      case Dense(_) => if 1 <= key.relation <= RelationCount() then Some(DenseIndex(key)) else None
      case Blocked(blocks, _) => blocks.Address(key)
    }
  }

  // --- Addresses ---------------------------------------------------------------

  lemma {:induction false} DenseIndexInRange(c: Config, key: Key)
    requires key.source < c.EntityCount() && 1 <= key.relation <= c.RelationCount()
    ensures c.DenseIndex(key) < c.DenseRows()
  {
    ProductOrder(key.source, c.EntityCount() - 1, c.RelationCount());
    assert (c.EntityCount() - 1) * c.RelationCount() == c.DenseRows() - c.RelationCount();
  }

  /** Distinct keys have distinct dense rows. */
  lemma {:induction false} DenseIndexInjective(c: Config, a: Key, b: Key)
    requires 1 <= a.relation <= c.RelationCount() && 1 <= b.relation <= c.RelationCount()
    ensures c.DenseIndex(a) == c.DenseIndex(b) <==> a == b
  {
    DivModUnique(c.DenseIndex(a), c.RelationCount(), a.source, a.relation - 1);
    DivModUnique(c.DenseIndex(b), c.RelationCount(), b.source, b.relation - 1);
  }

  lemma {:induction false} TagInjective(c: Config, a: Key, b: Key)
    requires 1 <= a.relation <= c.RelationCount() && 1 <= b.relation <= c.RelationCount()
    ensures c.Tag(a) == c.Tag(b) <==> a == b
  {
    DenseIndexInjective(c, a, b);
  }

  /** Blocks are laid end to end. */
  lemma {:induction false} BlocksInOrder(t: TypeBlocks, e: nat, n: nat, r: nat, s: nat)
    requires t.Valid(e, n) && r < s < n
    ensures t.blocks[r].blockStart + t.blocks[r].width <= t.blocks[s].blockStart
    decreases s
  {
    if r < s - 1 {
      BlocksInOrder(t, e, n, r, s - 1);
    }
  }

  lemma {:induction false} BlockedAddressInRange(t: TypeBlocks, e: nat, n: nat, key: Key)
    requires t.Valid(e, n) && t.Address(key).Some?
    ensures 1 <= t.Address(key).value < t.TotalRows()
  {
    var r := key.relation - 1;
    if r < n - 1 {
      BlocksInOrder(t, e, n, r, n - 1);
    }
    if 0 < r {
      BlocksInOrder(t, e, n, 0, r);
    }
  }

  lemma {:induction false} BlockedAddressInjective(t: TypeBlocks, e: nat, n: nat, a: Key, b: Key)
    requires t.Valid(e, n) && t.Address(a).Some? && t.Address(a) == t.Address(b)
    ensures a == b
  {
    if a.relation < b.relation {
      BlocksInOrder(t, e, n, a.relation - 1, b.relation - 1);
    } else if b.relation < a.relation {
      BlocksInOrder(t, e, n, b.relation - 1, a.relation - 1);
    }
  }

  /** A real key's row is in range and never the dummy row of a gated-off read. */
  lemma {:induction false} AddressInRange(c: Config, key: Key)
    requires c.Addressable() && c.InRange(key) && c.Address(key).Some?
    ensures 0 < c.Address(key).value < c.DirectoryRows()
  {
    if c.addressing.Dense? {
      DenseIndexInRange(c, key);
      ProductOrder(1, key.source, c.RelationCount());
    } else {
      BlockedAddressInRange(c.addressing.blocks, c.EntityCount(), c.RelationCount(), key);
    }
  }

  /** No two keys share a directory row. */
  lemma {:induction false} AddressInjective(c: Config, a: Key, b: Key)
    requires c.Addressable() && c.Address(a).Some? && c.Address(a) == c.Address(b)
    ensures a == b
  {
    if c.addressing.Dense? {
      DenseIndexInjective(c, a, b);
    } else {
      BlockedAddressInjective(c.addressing.blocks, c.EntityCount(), c.RelationCount(), a, b);
    }
  }

  // --- Descriptors --------------------------------------------------------------

  /** `page_base | (page_count << page_base_bits)`, for in-range operands. */
  function PackDescriptor(c: Config, base: nat, count: nat): (r: Result<nat>)
    requires c.pageBudget >= 1
  {
    if base >= c.pageBudget || count > c.pagesPerKey then Err(OutOfRange)
    else Ok(Or(base, ShiftLeft(count, c.PageBaseBits())))
  }

  /** Low bits and high bits of a descriptor. */
  function UnpackDescriptor(c: Config, descriptor: nat): (nat, nat)
    requires c.pageBudget >= 1
  {
    (And(descriptor, Pow2(c.PageBaseBits()) - 1), ShiftRight(descriptor, c.PageBaseBits()))
  }

  /** A packed descriptor fits its declared width and unpacks to what was packed. */
  lemma {:induction false} DescriptorRoundTrip(c: Config, base: nat, count: nat)
    requires c.pageBudget >= 1 && base < c.pageBudget && count <= c.pagesPerKey
    ensures var d := PackDescriptor(c, base, count);
      d.Ok? && d.value < Pow2(c.DescriptorBits()) && UnpackDescriptor(c, d.value) == (base, count)
  {
    hide Or, And;
    var bits := c.PageBaseBits();
    OrDisjoint(base, count, bits);
    var d := base + ShiftLeft(count, bits);
    DivModUnique(d, Pow2(bits), count, base);
    AndMask(d, bits);
    assert count < Pow2(c.PageCountBits());
    Pow2Add(bits, c.PageCountBits());
    hide Quotient, Remainder;
    DescriptorBound(base, count, Pow2(bits), Pow2(c.PageCountBits()));
  }

  lemma {:induction false} DescriptorBound(base: nat, count: nat, d: nat, n: nat)
    requires base < d && count < n
    ensures base + count * d < d * n
  {
    ProductOrder(count, n - 1, d);
    assert (n - 1) * d == d * n - d;
  }

  lemma {:induction false} EmptyDescriptor(c: Config)
    requires c.pageBudget >= 1
    ensures UnpackDescriptor(c, 0) == (0, 0)
  {
    AndMask(0, c.PageBaseBits());
    SmallQuotient(0, Pow2(c.PageBaseBits()));
  }
}
