// Everything the servers hold, from the owners' shares: the affine directory, the
// hashed tables added up slot by slot, and the page pools.
module DirectoryAssembly {
  import opened Wrappers
  import opened Bits
  import opened PageConfig
  import opened OwnerEdges
  import opened PageLayout
  import opened PackedDirectory
  import opened BucketTable
  import opened CompactRead
  import opened PagedEvaluation
  import opened DirectoryReads
  import opened KeyReads
  import opened Sharing
  import opened DirectoryShares

  // --- One owner's keys, table by table ------------------------------------------------------

  /** Every residual tag belongs to a key an edge could have. */
  ghost predicate TagsOfKeys(c: Config, residual: map<nat, nat>) {
    forall tag :: tag in residual ==> exists key: Key :: c.InRange(key) && c.Tag(key) == tag
  }

  /** `dense_index // relation_count` and `dense_index % relation_count + 1` recover the key. */
  lemma {:induction false} SplitTag(c: Config, tag: nat)
    requires c.Valid() && exists key: Key :: c.InRange(key) && c.Tag(key) == tag
    ensures tag >= 1
    ensures var key := Key(Quotient(tag - 1, c.RelationCount()), Remainder(tag - 1, c.RelationCount()) + 1);
      c.InRange(key) && c.Tag(key) == tag
  {
    var key: Key :| c.InRange(key) && c.Tag(key) == tag;
    DivModUnique(c.DenseIndex(key), c.RelationCount(), key.source, key.relation - 1);
    TagIsNext(c, key);
    hide Quotient, Remainder;
  }

  /** What `by_relation` holds after the tags outside `pending` have been distributed. */
  ghost predicate Distributed(c: Config, residual: map<nat, nat>, pending: set<nat>, grouped: map<nat, nat>, relation: nat) {
    && (forall tag :: tag in grouped <==>
          0 < tag <= c.EntityCount() && c.Tag(Key(tag - 1, relation)) in residual && c.Tag(Key(tag - 1, relation)) !in pending)
    && forall tag :: tag in grouped ==> grouped[tag] == residual[c.Tag(Key(tag - 1, relation))]
  }

  lemma {:induction false} DistributeStep(c: Config, residual: map<nat, nat>, pending: set<nat>, grouped: map<nat, nat>, relation: nat, tag: nat)
    requires c.Valid() && 1 <= relation <= c.RelationCount() && tag in pending && tag in residual && TagsOfKeys(c, residual)
    requires Distributed(c, residual, pending, grouped, relation)
    ensures tag >= 1
    ensures var source, r := Quotient(tag - 1, c.RelationCount()), Remainder(tag - 1, c.RelationCount()) + 1;
      Distributed(c, residual, pending - {tag}, if r == relation then grouped[source + 1 := residual[tag]] else grouped, relation)
  {
    SplitTag(c, tag);
    var key := Key(Quotient(tag - 1, c.RelationCount()), Remainder(tag - 1, c.RelationCount()) + 1);
    forall other: Key | other.relation == relation
      ensures c.Tag(other) == tag <==> other == key
    {
      TagInjective(c, other, key);
    }
    hide Quotient, Remainder, Config.Tag;
  }

  lemma {:induction false} AllDistributed(c: Config, residual: map<nat, nat>, grouped: map<nat, nat>, relation: nat)
    requires relation >= 1 && Distributed(c, residual, {}, grouped, relation)
    ensures grouped == RelationKeyed(c, residual, relation)
  {
    hide Config.Tag;
  }

  /** The owner's residual keys, regrouped by relation and re-tagged by entity. */
  method SplitByRelation(c: Config, residual: map<nat, nat>) returns (grouped: seq<map<nat, nat>>)
    requires c.Valid() && TagsOfKeys(c, residual)
    ensures |grouped| == c.RelationCount()
    ensures forall r :: 0 <= r < |grouped| ==> grouped[r] == RelationKeyed(c, residual, r + 1)
  {
    grouped := seq(c.RelationCount(), _ => map[]);
    var pending := residual.Keys;
    forall r | 0 <= r < |grouped|
      ensures Distributed(c, residual, pending, grouped[r], r + 1)
    {
    }
    hide Distributed, TagsOfKeys, RelationKeyed;
    while pending != {}
      invariant |grouped| == c.RelationCount() && pending <= residual.Keys
      invariant forall r :: 0 <= r < |grouped| ==> Distributed(c, residual, pending, grouped[r], r + 1)
      decreases pending
    {
      var tag :| tag in pending;
      forall r | 0 <= r < |grouped|
        ensures tag >= 1
        ensures var source, rel := Quotient(tag - 1, c.RelationCount()), Remainder(tag - 1, c.RelationCount()) + 1;
          Distributed(c, residual, pending - {tag}, if rel == r + 1 then grouped[r][source + 1 := residual[tag]] else grouped[r], r + 1)
      {
        DistributeStep(c, residual, pending, grouped[r], r + 1, tag);
      }
      assert tag >= 1 by {
        DistributeStep(c, residual, pending, grouped[0], 1, tag);
      }
      var source, index := Quotient(tag - 1, c.RelationCount()), Remainder(tag - 1, c.RelationCount());
      DivMod(tag - 1, c.RelationCount());
      hide Quotient, Remainder;
      grouped := grouped[index := grouped[index][source + 1 := residual[tag]]];
      pending := pending - {tag};
    }
    forall r | 0 <= r < |grouped|
      ensures grouped[r] == RelationKeyed(c, residual, r + 1)
    {
      AllDistributed(c, residual, grouped[r], r + 1);
    }
  }

  /** `{row + 1: descriptor for row, descriptor in enumerate(directory) if descriptor}`. */
  method IndexRows(directory: seq<nat>) returns (m: map<nat, nat>)
    ensures m == DenseKeyed(directory)
  {
    m := map[];
    for row := 0 to |directory|
      invariant m == DenseKeyed(directory[..row])
    {
      assert directory[..row + 1][..row] == directory[..row];
      if directory[row] != 0 {
        m := m[row + 1 := directory[row]];
      }
    }
    assert directory[..|directory|] == directory;
  }

  /** The keys one owner files in each table. */
  method OwnerKeys(c: Config, b: Buckets, layout: Layout) returns (keyed: seq<map<nat, nat>>)
    requires c.Valid() && Uses(c, b) && (b.partition ==> c.addressing.Blocked?) && TagsOfKeys(c, layout.residual)
    ensures |keyed| == TableCount(c, b)
    ensures forall t :: 0 <= t < |keyed| ==> keyed[t] == KeyedFor(c, layout, t)
  {
    match c.addressing
    case Dense(_) =>
      var m := IndexRows(layout.directory);
      keyed := [m];
    case Blocked(_, _) =>
      if b.partition {
        keyed := SplitByRelation(c, layout.residual);
      } else {
        keyed := [layout.residual];
      }
  }

  // --- Does a dictionary of keys fit its table? -----------------------------------------------

  ghost function KeyedIn(keyed: map<nat, nat>, bits: nat, bucket: nat): set<nat> {
    set tag | tag in keyed && Bucket(tag, bits) == bucket
  }

  /** Every key can be hashed and packed, and no bucket receives more keys than it has slots. */
  ghost predicate KeysFit(keyed: map<nat, nat>, bits: nat, slots: nat, descriptorBits: nat) {
    && (forall tag :: tag in keyed ==> KeyFileable(Filed(tag, keyed[tag]), bits, descriptorBits))
    && forall bucket :: |KeyedIn(keyed, bits, bucket)| <= slots
  }

  ghost function TagSet(keys: seq<Filed>): set<nat> {
    set i | 0 <= i < |keys| :: keys[i].tag
  }

  lemma {:induction false} TagSetSize(keys: seq<Filed>)
    requires TagsDistinct(keys)
    ensures |TagSet(keys)| == |keys|
  {
    if keys != [] {
      var n := |keys| - 1;
      TagSetSize(keys[..n]);
      assert TagSet(keys) == TagSet(keys[..n]) + {keys[n].tag};
    }
  }

  lemma {:induction false} BucketTags(filed: seq<Filed>, bits: nat, bucket: nat)
    requires TagsDistinct(filed)
    ensures TagsDistinct(InBucket(filed, bits, bucket))
  {
    hide Bucket;
    if filed != [] {
      var n := |filed| - 1;
      BucketTags(filed[..n], bits, bucket);
      var before := InBucket(filed[..n], bits, bucket);
      forall i | 0 <= i < |before|
        ensures before[i].tag != filed[n].tag
      {
        InBucketMembers(filed[..n], bits, bucket, before[i]);
        var j :| 0 <= j < n && filed[..n][j] == before[i];
        assert filed[j].tag != filed[n].tag;
      }
    }
  }

  /** A bucket's load counts the dictionary's keys that hash to it. */
  lemma {:induction false} BucketLoad(filed: seq<Filed>, keyed: map<nat, nat>, bits: nat, bucket: nat)
    requires Lists(filed, keyed)
    ensures |InBucket(filed, bits, bucket)| == |KeyedIn(keyed, bits, bucket)|
  {
    var inside := InBucket(filed, bits, bucket);
    BucketTags(filed, bits, bucket);
    TagSetSize(inside);
    forall f
      ensures f in inside <==> f in filed && Bucket(f.tag, bits) == bucket
    {
      InBucketMembers(filed, bits, bucket, f);
    }
    hide Bucket, InBucket;
    forall tag
      ensures tag in TagSet(inside) <==> tag in KeyedIn(keyed, bits, bucket)
    {
      if tag in KeyedIn(keyed, bits, bucket) {
        assert Filed(tag, keyed[tag]) in inside;
      }
      if tag in TagSet(inside) {
        var i :| 0 <= i < |inside| && inside[i].tag == tag;
        assert inside[i] in filed;
      }
    }
    assert TagSet(inside) == KeyedIn(keyed, bits, bucket);
  }

  /** Whether the keys can be filed does not depend on the order they are listed in. */
  lemma {:induction false} FileableIffFits(filed: seq<Filed>, keyed: map<nat, nat>, bits: nat, slots: nat, descriptorBits: nat)
    requires Lists(filed, keyed)
    ensures Fileable(filed, bits, descriptorBits) && Roomy(filed, bits, slots) <==> KeysFit(keyed, bits, slots, descriptorBits)
  {
    forall bucket
      ensures |InBucket(filed, bits, bucket)| == |KeyedIn(keyed, bits, bucket)|
    {
      BucketLoad(filed, keyed, bits, bucket);
    }
    hide InBucket, KeyedIn, KeyFileable;
    if Fileable(filed, bits, descriptorBits) {
      forall tag | tag in keyed
        ensures KeyFileable(Filed(tag, keyed[tag]), bits, descriptorBits)
      {
        assert Filed(tag, keyed[tag]) in filed;
      }
    }
  }

  // --- Adding the owners' tables ---------------------------------------------------------------

  /** A bucket row after the first owners have been added: their cells, zeros beyond. */
  ghost predicate PartialRow(row: seq<nat>, filed: seq<seq<Filed>>, owners: nat, bits: nat, slots: nat, descriptorBits: nat, bucket: nat) {
    && |row| == Times(owners, slots) && |filed| <= owners
    && (forall o :: 0 <= o < |filed| ==> CellsHold(row, filed[o], o, bits, slots, descriptorBits, bucket))
    && forall column :: Times(|filed|, slots) <= column < |row| ==> row[column] == 0
  }

  /** An owner's table adds its own cells and changes no one else's. */
  lemma {:induction false} PartialStep(row: seq<nat>, own: seq<nat>, filed: seq<seq<Filed>>, f: seq<Filed>, owners: nat,
                                       bits: nat, slots: nat, descriptorBits: nat, bucket: nat)
    requires PartialRow(row, filed, owners, bits, slots, descriptorBits, bucket) && |filed| < owners && |own| == |row|
    requires RowOf(f, own, |filed|, bits, slots, descriptorBits, bucket)
    ensures PartialRow(SumOwners(row, own), filed + [f], owners, bits, slots, descriptorBits, bucket)
  {
    var n, next := |filed|, SumOwners(row, own);
    TimesFacts(n, slots);
    forall o | 0 <= o <= n
      ensures CellsHold(next, (filed + [f])[o], o, bits, slots, descriptorBits, bucket)
    {
      hide InBucket, SlotsOf;
      if o < n {
        assert CellsHold(row, filed[o], o, bits, slots, descriptorBits, bucket);
        TimesFacts(o, slots);
        TimesMonotone(o + 1, n, slots);
        hide Times;
        assert OwnerCells(next, o, slots) == OwnerCells(row, o, slots);
      } else {
        hide Times;
        assert OwnerCells(next, n, slots) == own[Times(n, slots)..Times(n, slots) + slots];
      }
    }
    hide Times, CellsHold;
  }

  lemma {:induction false} PartialDone(row: seq<nat>, filed: seq<seq<Filed>>, owners: nat, bits: nat, slots: nat, descriptorBits: nat, bucket: nat)
    requires PartialRow(row, filed, owners, bits, slots, descriptorBits, bucket) && |filed| == owners
    ensures BucketRow(row, filed, bits, slots, descriptorBits, bucket)
  {
    hide CellsHold, Times;
  }

  /** Owner `o`'s row of one bucket, for every owner. */
  ghost predicate OwnRows(filed: seq<seq<Filed>>, own: seq<seq<nat>>, owners: nat, bits: nat, slots: nat, descriptorBits: nat, bucket: nat) {
    && |own| == |filed| <= owners
    && forall o :: 0 <= o < |own| ==> |own[o]| == Times(owners, slots) && RowOf(filed[o], own[o], o, bits, slots, descriptorBits, bucket)
  }

  /** The owners' rows added up. */
  function RowSum(own: seq<seq<nat>>, width: nat): (r: seq<nat>)
    requires forall o :: 0 <= o < |own| ==> |own[o]| == width
    ensures |r| == width
  {
    if own == [] then ZeroSlots(width) else SumOwners(RowSum(own[..|own| - 1], width), own[|own| - 1])
  }

  lemma {:induction false} RowSumIsSummed(own: seq<seq<nat>>, width: nat)
    requires forall o :: 0 <= o < |own| ==> |own[o]| == width
    ensures RowSum(own, width) == Summed(own, width)
  {
    if own != [] {
      RowSumIsSummed(own[..|own| - 1], width);
    }
  }

  /** The owners' disjoint columns add up to a row that holds every owner's keys. */
  lemma {:induction false} RowSumHolds(filed: seq<seq<Filed>>, own: seq<seq<nat>>, owners: nat, bits: nat, slots: nat, descriptorBits: nat, bucket: nat)
    requires OwnRows(filed, own, owners, bits, slots, descriptorBits, bucket)
    ensures forall o :: 0 <= o < |own| ==> |own[o]| == Times(owners, slots)
    ensures PartialRow(RowSum(own, Times(owners, slots)), filed, owners, bits, slots, descriptorBits, bucket)
  {
    if own == [] {
      TimesFacts(0, slots);
    } else {
      var n := |own| - 1;
      RowSumHolds(filed[..n], own[..n], owners, bits, slots, descriptorBits, bucket);
      assert filed == filed[..n] + [filed[n]];
      hide RowOf, PartialRow;
      PartialStep(RowSum(own[..n], Times(owners, slots)), own[n], filed[..n], filed[n], owners, bits, slots, descriptorBits, bucket);
    }
  }

  /** What every owner's keys in one table satisfy. */
  ghost predicate Listed(filed: seq<Filed>, keyed: map<nat, nat>, bits: nat, slots: nat, descriptorBits: nat) {
    Lists(filed, keyed) && Fileable(filed, bits, descriptorBits) && Roomy(filed, bits, slots)
  }

  /** One owner's table for one dictionary. */
  method OwnerTable(c: Config, b: Buckets, keyed: map<nat, nat>, owner: nat) returns (r: Option<seq<seq<nat>>>, ghost filed: seq<Filed>)
    requires c.pageBudget >= 1 && owner < c.owners && b.bits <= HASH_WORD_BITS
    ensures r.Some? <==> KeysFit(keyed, b.bits, b.slots, c.DescriptorBits())
    ensures r.Some? ==> Listed(filed, keyed, b.bits, b.slots, c.DescriptorBits())
    ensures r.Some? ==> TableOf(filed, r.value, owner, c.owners, b.bits, b.slots, c.DescriptorBits())
    ensures r.Some? ==> |r.value| == b.Count() && forall bucket :: 0 <= bucket < |r.value| ==>
      |r.value[bucket]| == Times(c.owners, b.slots)
      && BucketHolds(keyed, r.value[bucket], Times(owner, b.slots), b.bits, c.DescriptorBits(), bucket)
  {
    hide Lists, Fileable, Roomy, KeysFit, TableOf, BucketHolds;
    var listed := ListKeys(keyed);
    filed := listed;
    FileableIffFits(listed, keyed, b.bits, b.slots, c.DescriptorBits());
    var table := FileKeys(listed, owner, c.owners, b.bits, b.slots, c.DescriptorBits());
    r := if table.Ok? then Some(table.value) else None;
    if table.Ok? {
      FileableReal(listed, b.bits, c.DescriptorBits());
      TableHasTags(listed, keyed, table.value, owner, c.owners, b.bits, b.slots, c.DescriptorBits());
      TableSize(listed, table.value, owner, c.owners, b.bits, b.slots, c.DescriptorBits());
    }
  }

  lemma {:induction false} FileableReal(filed: seq<Filed>, bits: nat, descriptorBits: nat)
    requires Fileable(filed, bits, descriptorBits)
    ensures TagsReal(filed, descriptorBits)
  {
  }

  lemma {:induction false} TableSize(filed: seq<Filed>, table: seq<seq<nat>>, owner: nat, owners: nat, bits: nat, slots: nat, descriptorBits: nat)
    requires TableOf(filed, table, owner, owners, bits, slots, descriptorBits)
    ensures |table| == Pow2(bits) && forall bucket :: 0 <= bucket < |table| ==> |table[bucket]| == Times(owners, slots)
  {
  }

  /** The owners' dictionaries for one table. */
  ghost predicate AllFit(c: Config, b: Buckets, keyed: seq<map<nat, nat>>, n: nat) {
    c.pageBudget >= 1 && forall o :: 0 <= o < n <= |keyed| ==> KeysFit(keyed[o], b.bits, b.slots, c.DescriptorBits())
  }

  /** The owners' own tables, before anything is shared. */
  ghost predicate Owned(c: Config, b: Buckets, own: seq<seq<seq<nat>>>, filed: seq<seq<Filed>>) {
    && c.pageBudget >= 1 && |own| == |filed| <= c.owners
    && forall o :: 0 <= o < |own| ==> TableOf(filed[o], own[o], o, c.owners, b.bits, b.slots, c.DescriptorBits())
  }

  /** Every owner's table for its own dictionary. */
  method OwnTables(c: Config, b: Buckets, keyed: seq<map<nat, nat>>) returns (r: Option<seq<seq<seq<nat>>>>, ghost filed: seq<seq<Filed>>)
    requires c.pageBudget >= 1 && |keyed| == c.owners && b.bits <= HASH_WORD_BITS
    ensures r.Some? <==> AllFit(c, b, keyed, |keyed|)
    ensures r.Some? ==> |filed| == |keyed| && Owned(c, b, r.value, filed)
    ensures r.Some? ==> forall o :: 0 <= o < |filed| ==> Listed(filed[o], keyed[o], b.bits, b.slots, c.DescriptorBits())
  {
    var own: seq<seq<seq<nat>>> := [];
    filed := [];
    hide Listed, KeysFit, TableOf;
    for o := 0 to c.owners
      invariant |filed| == o && AllFit(c, b, keyed, o) && Owned(c, b, own, filed)
      invariant forall i :: 0 <= i < o ==> Listed(filed[i], keyed[i], b.bits, b.slots, c.DescriptorBits())
    {
      var table;
      ghost var f;
      table, f := OwnerTable(c, b, keyed[o], o);
      if table.None? {
        return None, [];
      }
      own, filed := own + [table.value], filed + [f];
    }
    r := Some(own);
  }

  /** A stored tag fits its bits. */
  ghost predicate TagsFit(c: Config, b: Buckets, keyed: map<nat, nat>) {
    forall tag :: tag in keyed ==> tag < Pow2(TagBits(c, b))
  }

  lemma {:induction false} ListedSound(c: Config, b: Buckets, keyed: map<nat, nat>, filed: seq<Filed>)
    requires c.pageBudget >= 1 && TagsFit(c, b, keyed) && Listed(filed, keyed, b.bits, b.slots, c.DescriptorBits())
    ensures SoundOne(filed, b.bits, b.slots, c.DescriptorBits(), TagBits(c, b)) && Lists(filed, keyed)
  {
    hide Pow2, TagBits, Roomy;
  }

  /** The owners' keys are usable together. */
  lemma {:induction false} SoundTogether(c: Config, b: Buckets, keyed: seq<map<nat, nat>>, filed: seq<seq<Filed>>)
    requires c.pageBudget >= 1 && |filed| == |keyed|
    requires forall o :: 0 <= o < |filed| ==> TagsFit(c, b, keyed[o]) && Listed(filed[o], keyed[o], b.bits, b.slots, c.DescriptorBits())
    ensures Sound(filed, b.bits, b.slots, c.DescriptorBits(), TagBits(c, b))
    ensures forall o :: 0 <= o < |filed| ==> Lists(filed[o], keyed[o])
  {
    forall o | 0 <= o < |filed|
      ensures SoundOne(filed[o], b.bits, b.slots, c.DescriptorBits(), TagBits(c, b)) && Lists(filed[o], keyed[o])
    {
      ListedSound(c, b, keyed[o], filed[o]);
    }
    hide SoundOne, Lists, Listed;
  }

  /** One cell of a bucket row fits the slot width. */
  lemma {:induction false} CellSmall(row: seq<nat>, filed: seq<Filed>, o: nat, bits: nat, slots: nat, descriptorBits: nat, tagBits: nat, bucket: nat, k: nat)
    requires CellsHold(row, filed, o, bits, slots, descriptorBits, bucket) && SoundOne(filed, bits, slots, descriptorBits, tagBits) && k < slots
    ensures Times(o, slots) + k < |row| && row[Times(o, slots) + k] < Pow2(descriptorBits + tagBits)
  {
    var keys := InBucket(filed, bits, bucket);
    hide Times, Bucket;
    assert row[Times(o, slots) + k] == OwnerCells(row, o, slots)[k];
    if k < |keys| {
      InBucketMembers(filed, bits, bucket, keys[k]);
      var i :| 0 <= i < |filed| && filed[i] == keys[k];
      CellFits(keys[k], descriptorBits, tagBits);
    }
  }

  /** Every cell of a bucket row fits the slot width. */
  lemma {:induction false} RowSmall(row: seq<nat>, filings: seq<seq<Filed>>, bits: nat, slots: nat, descriptorBits: nat, tagBits: nat, bucket: nat)
    requires BucketRow(row, filings, bits, slots, descriptorBits, bucket) && Sound(filings, bits, slots, descriptorBits, tagBits)
    ensures SmallCells(row, descriptorBits + tagBits)
  {
    forall column | 0 <= column < |row|
      ensures row[column] < Pow2(descriptorBits + tagBits)
    {
      TimesFacts(|filings|, slots);
      var o, k := Quotient(column, slots), Remainder(column, slots);
      DivMod(column, slots);
      OwnerBelow(column, slots, |filings|);
      hide Quotient, Remainder, Times, CellsHold, SoundOne, Pow2;
      assert CellsHold(row, filings[o], o, bits, slots, descriptorBits, bucket);
      assert SoundOne(filings[o], bits, slots, descriptorBits, tagBits);
      CellSmall(row, filings[o], o, bits, slots, descriptorBits, tagBits, bucket, k);
    }
  }

  lemma {:induction false} OwnerBelow(column: nat, slots: nat, owners: nat)
    requires column < Times(owners, slots)
    ensures slots > 0 && Quotient(column, slots) < owners && column == Times(Quotient(column, slots), slots) + Remainder(column, slots)
  {
    if slots == 0 {
      TimesFacts(owners, 0);
      assert false;
    }
    var q := Quotient(column, slots);
    DivMod(column, slots);
    hide Quotient, Remainder;
    if q >= owners {
      TimesMonotone(owners, q, slots);
    }
  }

  /**
   * The servers' accumulated shares of one bucket reconstruct, slot by slot, to a row that
   * holds each owner's own keys of that bucket.
   */
  lemma {:induction false} BucketReconstructs(filed: seq<seq<Filed>>, own: seq<seq<nat>>, a: seq<seq<nat>>, b: seq<seq<nat>>, s: seq<seq<nat>>,
                                              bits: nat, slots: nat, descriptorBits: nat, tagBits: nat, bucket: nat, p: nat, column: nat)
    requires OwnRows(filed, own, |own|, bits, slots, descriptorBits, bucket) && Sound(filed, bits, slots, descriptorBits, tagBits)
    requires OwnersSplit(own, a, b, s, Times(|own|, slots), p) && 0 < Pow2(descriptorBits + tagBits) <= p && column < Times(|own|, slots)
    ensures forall o :: 0 <= o < |own| ==> |own[o]| == |a[o]| == |b[o]| == |s[o]| == Times(|own|, slots)
    ensures var width := Times(|own|, slots); var row := RowSum(own, width);
      && BucketRow(row, filed, bits, slots, descriptorBits, bucket)
      && Reconstruct([Accumulated(a, width, p)[column], Accumulated(b, width, p)[column], Accumulated(s, width, p)[column]], p) == Ok(row[column])
  {
    var width := Times(|own|, slots);
    OwnersLengths(own, a, b, s, width, p);
    RowSumHolds(filed, own, |own|, bits, slots, descriptorBits, bucket);
    RowSumIsSummed(own, width);
    var row := RowSum(own, width);
    assert |filed| == |own|;
    PartialDone(row, filed, |own|, bits, slots, descriptorBits, bucket);
    RowSmall(row, filed, bits, slots, descriptorBits, tagBits, bucket);
    assert row[column] < Pow2(descriptorBits + tagBits);
    hide *;
    TotalsReconstruct(own, a, b, s, width, p, column);
  }

  /** A bucket's row is complete: every owner's keys, each cell within the slot width. */
  ghost predicate FinishedRow(c: Config, b: Buckets, row: seq<nat>, filed: seq<seq<Filed>>, bucket: nat) {
    ResidualRow(c, b, row) && BucketRow(row, filed, b.bits, b.slots, c.DescriptorBits(), bucket)
  }

  ghost predicate FinishedTable(c: Config, b: Buckets, rows: seq<seq<nat>>, filed: seq<seq<Filed>>) {
    && c.pageBudget >= 1 && |filed| == c.owners && Sound(filed, b.bits, b.slots, c.DescriptorBits(), TagBits(c, b))
    && |rows| == b.Count() && forall bucket :: 0 <= bucket < |rows| ==> FinishedRow(c, b, rows[bucket], filed, bucket)
  }

  /** The owners' rows of one bucket. */
  function BucketRows(own: seq<seq<seq<nat>>>, bucket: nat): (r: seq<seq<nat>>)
    requires forall o :: 0 <= o < |own| ==> bucket < |own[o]|
    ensures |r| == |own| && forall o :: 0 <= o < |r| ==> r[o] == own[o][bucket]
  {
    seq(|own|, o requires 0 <= o < |own| => own[o][bucket])
  }

  /** The owners' rows of a bucket add up to its finished row. */
  lemma {:induction false} BucketSum(c: Config, b: Buckets, own: seq<seq<seq<nat>>>, filed: seq<seq<Filed>>, bucket: nat)
    requires Owned(c, b, own, filed) && |own| == c.owners && bucket < b.Count()
    requires Sound(filed, b.bits, b.slots, c.DescriptorBits(), TagBits(c, b))
    ensures forall o :: 0 <= o < |own| ==> bucket < |own[o]| && |own[o][bucket]| == Times(c.owners, b.slots)
    ensures var rows, width := BucketRows(own, bucket), Times(c.owners, b.slots);
      Summed(rows, width) == RowSum(rows, width) && FinishedRow(c, b, RowSum(rows, width), filed, bucket)
  {
    var width := Times(c.owners, b.slots);
    forall o | 0 <= o < |own|
      ensures bucket < |own[o]| && |own[o][bucket]| == width
      ensures RowOf(filed[o], own[o][bucket], o, b.bits, b.slots, c.DescriptorBits(), bucket)
    {
      assert TableOf(filed[o], own[o], o, c.owners, b.bits, b.slots, c.DescriptorBits());
    }
    hide Owned, TableOf, RowOf, Sound, CellsHold, Summed, RowSum, Times;
    var rows := BucketRows(own, bucket);
    RowSumHolds(filed, rows, c.owners, b.bits, b.slots, c.DescriptorBits(), bucket);
    RowSumIsSummed(rows, width);
    PartialDone(RowSum(rows, width), filed, c.owners, b.bits, b.slots, c.DescriptorBits(), bucket);
    RowSmall(RowSum(rows, width), filed, b.bits, b.slots, c.DescriptorBits(), TagBits(c, b), bucket);
  }

  /** A finished row stays below the modulus. */
  lemma {:induction false} FinishedBelow(c: Config, b: Buckets, row: seq<nat>, filed: seq<seq<Filed>>, bucket: nat, p: nat)
    requires FinishedRow(c, b, row, filed, bucket) && Pow2(c.DescriptorBits() + TagBits(c, b)) <= p
    ensures |row| == Times(c.owners, b.slots) && forall i :: 0 <= i < |row| ==> row[i] < p
  {
    hide Pow2, BucketRow, TagBits;
  }

  /** One bucket, added up from the owners' shares. */
  method CombineBucket(c: Config, b: Buckets, own: seq<seq<seq<nat>>>, ghost filed: seq<seq<Filed>>, bucket: nat, p: nat, draw: Draw, row: nat)
    returns (cells: seq<nat>)
    requires Owned(c, b, own, filed) && |own| == c.owners && bucket < b.Count()
    requires Sound(filed, b.bits, b.slots, c.DescriptorBits(), TagBits(c, b))
    requires InField(draw, p) && Pow2(c.DescriptorBits() + TagBits(c, b)) <= p
    ensures FinishedRow(c, b, cells, filed, bucket)
  {
    BucketSum(c, b, own, filed, bucket);
    FieldNotEmpty(draw, p);
    hide *;
    var width := Times(c.owners, b.slots);
    FinishedBelow(c, b, RowSum(BucketRows(own, bucket), width), filed, bucket, p);
    cells := SumThroughShares(BucketRows(own, bucket), width, p, draw, Hashed, row);
  }

  /** The modular sum of the owners' shared tables; `from` is the table's first row in the store. */
  method CombineOwners(c: Config, b: Buckets, keyed: seq<map<nat, nat>>, p: nat, draw: Draw, from: nat)
    returns (r: Option<seq<seq<nat>>>, ghost filed: seq<seq<Filed>>)
    requires c.pageBudget >= 1 && |keyed| == c.owners && b.bits <= HASH_WORD_BITS
    requires InField(draw, p) && Pow2(c.DescriptorBits() + TagBits(c, b)) <= p
    requires forall o :: 0 <= o < |keyed| ==> TagsFit(c, b, keyed[o])
    ensures r.Some? <==> AllFit(c, b, keyed, |keyed|)
    ensures r.Some? ==> |filed| == |keyed| && FinishedTable(c, b, r.value, filed)
    ensures r.Some? ==> forall o :: 0 <= o < |filed| ==> Lists(filed[o], keyed[o])
  {
    hide Owned, TagsFit, AllFit, Listed, Lists, Sound, FinishedRow, InField, Pow2, TagBits;
    var own;
    own, filed := OwnTables(c, b, keyed);
    if own.None? {
      return None, filed;
    }
    SoundTogether(c, b, keyed, filed);
    OwnedCount(c, b, own.value, filed);
    var rows: seq<seq<nat>> := [];
    for bucket := 0 to b.Count()
      invariant |rows| == bucket
      invariant forall i :: 0 <= i < bucket ==> FinishedRow(c, b, rows[i], filed, i)
    {
      var cells := CombineBucket(c, b, own.value, filed, bucket, p, draw, from + bucket);
      rows := rows + [cells];
    }
    r := Some(rows);
  }

  lemma {:induction false} OwnedCount(c: Config, b: Buckets, own: seq<seq<seq<nat>>>, filed: seq<seq<Filed>>)
    requires Owned(c, b, own, filed)
    ensures |own| == |filed|
  {
  }

  // --- The whole residual store -----------------------------------------------------------------

  /** A stored tag fits its bits. */
  lemma {:induction false} StoredTagFits(c: Config, b: Buckets, layout: Layout, t: nat, tag: nat)
    requires c.Valid() && Uses(c, b) && (b.partition ==> c.addressing.Blocked?) && TagsOfKeys(c, layout.residual)
    requires |layout.directory| == c.DirectoryRows() && tag in KeyedFor(c, layout, t)
    ensures tag < Pow2(TagBits(c, b))
  {
    if b.partition {
      Pow2Monotone(BitLength(c.EntityCount()), TagBits(c, b));
    } else {
      if c.addressing.Blocked? {
        var key: Key :| c.InRange(key) && c.Tag(key) == tag;
        DenseIndexInRange(c, key);
        TagIsNext(c, key);
      }
      assert tag <= c.DenseRows();
      Pow2Monotone(BitLength(c.DenseRows()), TagBits(c, b));
      hide Pow2, BitLength;
    }
  }

  lemma {:induction false} StoredTagsFit(c: Config, b: Buckets, layouts: seq<Layout>, keyed: seq<map<nat, nat>>, t: nat)
    requires Indexable(c, b, layouts) && TableKeys(c, layouts, keyed, t)
    ensures forall o :: 0 <= o < |keyed| ==> TagsFit(c, b, keyed[o])
  {
    forall o | 0 <= o < |keyed|
      ensures TagsFit(c, b, keyed[o])
    {
      forall tag | tag in keyed[o]
        ensures tag < Pow2(TagBits(c, b))
      {
        StoredTagFits(c, b, layouts[o], t, tag);
      }
    }
  }

  /** A finished table, with its rows at the table's place in the store. */
  lemma {:induction false} TableFinished(c: Config, b: Buckets, layouts: seq<Layout>, rows: seq<seq<nat>>, filed: seq<seq<Filed>>, t: nat)
    requires c.Valid() && |layouts| == c.owners == |filed|
    requires forall o :: 0 <= o < |filed| ==> Lists(filed[o], KeyedFor(c, layouts[o], t))
    requires Times(t, b.Count()) + b.Count() <= |rows|
    requires FinishedTable(c, b, rows[Times(t, b.Count())..Times(t, b.Count()) + b.Count()], filed)
    ensures TableHolds(c, b, layouts, rows, filed, t)
    ensures forall i :: Times(t, b.Count()) <= i < Times(t, b.Count()) + b.Count() ==> ResidualRow(c, b, rows[i])
  {
    var from := Times(t, b.Count());
    hide Sound, Lists, KeyedFor, TagBits, BucketRow, ResidualRow, Times, Pow2;
    forall bucket: nat | bucket < b.Count()
      ensures BucketRowAt(c, b, rows, filed, t, bucket) && ResidualRow(c, b, rows[from + bucket])
    {
      assert FinishedRow(c, b, rows[from..from + b.Count()][bucket], filed, bucket);
    }
    forall i | from <= i < from + b.Count()
      ensures ResidualRow(c, b, rows[i])
    {
      assert ResidualRow(c, b, rows[from + (i - from)]);
    }
    TableIs(c, b, layouts, rows, filed, t);
  }

  lemma {:induction false} TableIs(c: Config, b: Buckets, layouts: seq<Layout>, rows: seq<seq<nat>>, filed: seq<seq<Filed>>, t: nat)
    requires c.Valid() && |layouts| == c.owners == |filed| && Times(t, b.Count()) + b.Count() <= |rows|
    requires Sound(filed, b.bits, b.slots, c.DescriptorBits(), TagBits(c, b))
    requires forall o :: 0 <= o < |filed| ==> Lists(filed[o], KeyedFor(c, layouts[o], t))
    requires forall bucket: nat :: bucket < b.Count() ==> BucketRowAt(c, b, rows, filed, t, bucket)
    ensures TableHolds(c, b, layouts, rows, filed, t)
  {
    hide Sound, Lists, KeyedFor, BucketRowAt, TagBits;
  }

  // --- Building it ----------------------------------------------------------------------------------

  /** The first tables of the store. */
  ghost predicate Built(c: Config, b: Buckets, layouts: seq<Layout>, rows: seq<seq<nat>>, filings: seq<seq<seq<Filed>>>) {
    && c.Valid() && |layouts| == c.owners && |rows| == Times(|filings|, b.Count())
    && (forall i :: 0 <= i < |rows| ==> ResidualRow(c, b, rows[i]))
    && forall t :: 0 <= t < |filings| ==> TableHolds(c, b, layouts, rows, filings[t], t)
  }

  /** Appending rows keeps a finished table. */
  lemma {:induction false} TableKept(c: Config, b: Buckets, layouts: seq<Layout>, rows: seq<seq<nat>>, more: seq<seq<nat>>, filed: seq<seq<Filed>>, t: nat)
    requires TableHolds(c, b, layouts, rows, filed, t)
    ensures TableHolds(c, b, layouts, rows + more, filed, t)
  {
    hide Sound, Lists, KeyedFor, TagBits, BucketRow, Times, Pow2;
    forall bucket: nat | bucket < b.Count()
      ensures BucketRowAt(c, b, rows + more, filed, t, bucket)
    {
      assert BucketRowAt(c, b, rows, filed, t, bucket);
    }
  }

  lemma {:induction false} BuiltStep(c: Config, b: Buckets, layouts: seq<Layout>, rows: seq<seq<nat>>, filings: seq<seq<seq<Filed>>>,
                                     table: seq<seq<nat>>, filed: seq<seq<Filed>>)
    requires Built(c, b, layouts, rows, filings) && |table| == b.Count()
    requires TableHolds(c, b, layouts, rows + table, filed, |filings|)
    requires forall i :: |rows| <= i < |rows| + |table| ==> ResidualRow(c, b, (rows + table)[i])
    ensures Built(c, b, layouts, rows + table, filings + [filed])
  {
    TimesFacts(|filings|, b.Count());
    forall t | 0 <= t < |filings|
      ensures TableHolds(c, b, layouts, rows + table, filings[t], t)
    {
      TableKept(c, b, layouts, rows, table, filings[t], t);
    }
    hide TableHolds, ResidualRow, Times, Pow2;
  }

  /** `residual_directory_rows`: padded to the selector's height when partitioned. */
  function PaddedRows(c: Config, b: Buckets): (r: nat)
    ensures r >= Times(TableCount(c, b), b.Count())
  {
    var n := Times(TableCount(c, b), b.Count());
    if b.partition && n > 0 then Pow2(BitLength(n - 1)) else n
  }

  lemma {:induction false} BuiltHolds(c: Config, b: Buckets, layouts: seq<Layout>, rows: seq<seq<nat>>, filings: seq<seq<seq<Filed>>>, padding: seq<seq<nat>>)
    requires Built(c, b, layouts, rows, filings) && |filings| == TableCount(c, b) && b.bits <= HASH_WORD_BITS
    requires forall i :: 0 <= i < |padding| ==> padding[i] == ZeroSlots(Times(c.owners, b.slots))
    ensures ResidualHolds(c, b, layouts, rows + padding, filings)
  {
    forall t | 0 <= t < |filings|
      ensures TableHolds(c, b, layouts, rows + padding, filings[t], t)
    {
      TableKept(c, b, layouts, rows, padding, filings[t], t);
    }
    hide TableHolds, Times, Pow2, TagBits;
    forall i | 0 <= i < |rows + padding|
      ensures ResidualRow(c, b, (rows + padding)[i])
    {
      if i < |rows| {
        assert ResidualRow(c, b, rows[i]);
      }
    }
  }

  /** The owners' layouts as the residual builder needs them. */
  ghost predicate Indexable(c: Config, b: Buckets, layouts: seq<Layout>) {
    && c.Valid() && Uses(c, b) && (b.partition ==> c.addressing.Blocked?) && |layouts| == c.owners
    && forall o :: 0 <= o < |layouts| ==> TagsOfKeys(c, layouts[o].residual) && |layouts[o].directory| == c.DirectoryRows()
  }

  /** The owners' dictionaries for table `t`. */
  ghost predicate TableKeys(c: Config, layouts: seq<Layout>, keyed: seq<map<nat, nat>>, t: nat) {
    |keyed| == |layouts| && forall o :: 0 <= o < |layouts| ==> keyed[o] == KeyedFor(c, layouts[o], t)
  }

  /** One more table, or an owner whose keys do not fit. */
  method AppendTable(c: Config, b: Buckets, ghost layouts: seq<Layout>, rows: seq<seq<nat>>, ghost filings: seq<seq<seq<Filed>>>, keyed: seq<map<nat, nat>>,
                     p: nat, draw: Draw)
    returns (r: Option<seq<seq<nat>>>, ghost filed: seq<seq<Filed>>)
    requires InField(draw, p) && c.pageBudget >= 1 && Pow2(c.DescriptorBits() + TagBits(c, b)) <= p
    requires Indexable(c, b, layouts) && Built(c, b, layouts, rows, filings) && b.bits <= HASH_WORD_BITS
    requires TableKeys(c, layouts, keyed, |filings|)
    ensures c.pageBudget >= 1 && (r.Some? <==> AllFit(c, b, keyed, |keyed|))
    ensures r.Some? ==> Built(c, b, layouts, r.value, filings + [filed])
  {
    ghost var t := |filings|;
    StoredTagsFit(c, b, layouts, keyed, t);
    hide FinishedTable, TagsFit, Lists, AllFit, Built, KeyedFor, TableHolds, ResidualRow, TagsOfKeys, InField, Pow2, TagBits;
    var table;
    table, filed := CombineOwners(c, b, keyed, p, draw, |rows|);
    if table.None? {
      return None, filed;
    }
    r := Some(rows + table.value);
    ghost var from := Times(t, b.Count());
    assert |rows| == from by {
      BuiltSize(c, b, layouts, rows, filings);
    }
    TableHeight(c, b, table.value, filed);
    assert (rows + table.value)[from..from + b.Count()] == table.value;
    TableFinished(c, b, layouts, rows + table.value, filed, t);
    BuiltStep(c, b, layouts, rows, filings, table.value, filed);
  }

  lemma {:induction false} BuiltSize(c: Config, b: Buckets, layouts: seq<Layout>, rows: seq<seq<nat>>, filings: seq<seq<seq<Filed>>>)
    requires Built(c, b, layouts, rows, filings)
    ensures |rows| == Times(|filings|, b.Count())
  {
  }

  lemma {:induction false} TableHeight(c: Config, b: Buckets, rows: seq<seq<nat>>, filed: seq<seq<Filed>>)
    requires FinishedTable(c, b, rows, filed)
    ensures |rows| == b.Count() && |filed| == c.owners
  {
  }

  /** Every owner's dictionaries, owner by owner and table by table. */
  ghost predicate AllKeys(c: Config, b: Buckets, layouts: seq<Layout>, all: seq<seq<map<nat, nat>>>, n: nat) {
    && |all| == n <= |layouts|
    && forall o :: 0 <= o < n ==> OwnerKeysAre(c, b, layouts[o], all[o])
  }

  ghost predicate OwnerKeysAre(c: Config, b: Buckets, layout: Layout, keyed: seq<map<nat, nat>>) {
    |keyed| == TableCount(c, b) && forall t :: 0 <= t < |keyed| ==> keyed[t] == KeyedFor(c, layout, t)
  }

  method CollectKeys(c: Config, b: Buckets, layouts: seq<Layout>) returns (all: seq<seq<map<nat, nat>>>)
    requires Indexable(c, b, layouts)
    ensures AllKeys(c, b, layouts, all, |layouts|)
  {
    all := [];
    for o := 0 to |layouts|
      invariant AllKeys(c, b, layouts, all, o)
    {
      var keyed := OwnerKeys(c, b, layouts[o]);
      all := all + [keyed];
    }
  }

  /** One table's dictionaries. */
  function TableColumn(all: seq<seq<map<nat, nat>>>, t: nat): (r: seq<map<nat, nat>>)
    requires forall o :: 0 <= o < |all| ==> t < |all[o]|
    ensures |r| == |all| && forall o :: 0 <= o < |r| ==> r[o] == all[o][t]
  {
    seq(|all|, o requires 0 <= o < |all| => all[o][t])
  }

  lemma {:induction false} ColumnIsTable(c: Config, b: Buckets, layouts: seq<Layout>, all: seq<seq<map<nat, nat>>>, t: nat)
    requires AllKeys(c, b, layouts, all, |layouts|) && t < TableCount(c, b)
    ensures forall o :: 0 <= o < |all| ==> t < |all[o]|
    ensures TableKeys(c, layouts, TableColumn(all, t), t)
  {
    forall o | 0 <= o < |all|
      ensures t < |all[o]| && all[o][t] == KeyedFor(c, layouts[o], t)
    {
      assert OwnerKeysAre(c, b, layouts[o], all[o]);
    }
    hide KeyedFor, OwnerKeysAre;
  }

  /** Every owner's keys fit the first `n` tables. */
  ghost predicate IndexFitsTo(c: Config, b: Buckets, layouts: seq<Layout>, n: nat) {
    && c.pageBudget >= 1
    && forall t, o :: 0 <= t < n && 0 <= o < |layouts| ==>
      KeysFit(KeyedFor(c, layouts[o], t), b.bits, b.slots, c.DescriptorBits())
  }

  lemma {:induction false} FitsStep(c: Config, b: Buckets, layouts: seq<Layout>, keyed: seq<map<nat, nat>>, t: nat)
    requires c.pageBudget >= 1 && TableKeys(c, layouts, keyed, t)
    ensures IndexFitsTo(c, b, layouts, t + 1) <==> IndexFitsTo(c, b, layouts, t) && AllFit(c, b, keyed, |keyed|)
  {
    hide KeysFit, KeyedFor;
  }

  lemma {:induction false} FitsPrefix(c: Config, b: Buckets, layouts: seq<Layout>, t: nat, n: nat)
    requires t <= n && IndexFitsTo(c, b, layouts, n)
    ensures IndexFitsTo(c, b, layouts, t)
  {
    hide KeysFit, KeyedFor;
  }

  lemma {:induction false} BuiltStarts(c: Config, b: Buckets, layouts: seq<Layout>)
    requires Indexable(c, b, layouts)
    ensures Built(c, b, layouts, [], []) && IndexFitsTo(c, b, layouts, 0) && c.pageBudget >= 1
  {
    TimesFacts(0, b.Count());
  }

  /** The tail rows: every owner shares zeros. */
  method PadStore(c: Config, b: Buckets, from: nat, count: nat, p: nat, draw: Draw) returns (padding: seq<seq<nat>>)
    requires InField(draw, p)
    ensures |padding| == count && forall i :: 0 <= i < count ==> padding[i] == ZeroSlots(Times(c.owners, b.slots))
  {
    FieldNotEmpty(draw, p);
    var width := Times(c.owners, b.slots);
    var zeros := seq(c.owners, _ => ZeroSlots(width));
    ZerosSum(zeros, width);
    hide InField, Times;
    padding := [];
    for i := 0 to count
      invariant |padding| == i && forall k :: 0 <= k < i ==> padding[k] == ZeroSlots(width)
    {
      var row := SumThroughShares(zeros, width, p, draw, Hashed, from + i);
      padding := padding + [row];
    }
  }

  lemma {:induction false} ZerosSum(zeros: seq<seq<nat>>, n: nat)
    requires forall o :: 0 <= o < |zeros| ==> |zeros[o]| == n && zeros[o] == ZeroSlots(n)
    ensures Summed(zeros, n) == ZeroSlots(n)
  {
    if zeros != [] {
      ZerosSum(zeros[..|zeros| - 1], n);
    }
  }

  /**
   * The residual store of a federation, from the owners' shares.  It exists exactly when
   * every owner's keys can be hashed and no bucket overflows, and then each bucket row holds
   * each owner's keys.
   */
  method AssembleResidual(c: Config, b: Buckets, layouts: seq<Layout>, p: nat, draw: Draw)
    returns (r: Option<seq<seq<nat>>>, ghost filings: seq<seq<seq<Filed>>>)
    requires InField(draw, p) && c.pageBudget >= 1 && Pow2(c.DescriptorBits() + TagBits(c, b)) <= p
    requires Indexable(c, b, layouts) && b.bits <= HASH_WORD_BITS
    ensures r.Some? <==> IndexFitsTo(c, b, layouts, TableCount(c, b))
    ensures r.Some? ==> ResidualHolds(c, b, layouts, r.value, filings) && |r.value| == PaddedRows(c, b)
  {
    hide *;
    var all := CollectKeys(c, b, layouts);
    var rows: seq<seq<nat>> := [];
    filings := [];
    BuiltStarts(c, b, layouts);
    for t := 0 to TableCount(c, b)
      invariant |filings| == t && Built(c, b, layouts, rows, filings) && IndexFitsTo(c, b, layouts, t)
    {
      ColumnIsTable(c, b, layouts, all, t);
      var next;
      ghost var filed;
      next, filed := AppendTable(c, b, layouts, rows, filings, TableColumn(all, t), p, draw);
      FitsStep(c, b, layouts, TableColumn(all, t), t);
      if next.None? {
        if IndexFitsTo(c, b, layouts, TableCount(c, b)) {
          FitsPrefix(c, b, layouts, t + 1, TableCount(c, b));
        }
        return None, filings;
      }
      rows, filings := next.value, filings + [filed];
    }
    BuiltSize(c, b, layouts, rows, filings);
    var padding := PadStore(c, b, |rows|, PaddedRows(c, b) - |rows|, p, draw);
    BuiltHolds(c, b, layouts, rows, filings, padding);
    r := Some(rows + padding);
  }

  // --- Whether the first hop can read it --------------------------------------------------------------

  /** The hashed store has at least two rows. */
  predicate ManyRows(c: Config, b: Buckets) {
    b.bits >= 1 || (b.partition && c.RelationCount() >= 2)
  }

  /** The stored hashed directory, if any, can be multiplied by its selector. */
  predicate SelectorsFit(c: Config) {
    match c.addressing
    case Dense(None) => true
    case Dense(Some(b)) => ManyRows(c, b)
    case Blocked(_, b) => ManyRows(c, b)
  }

  /**
   * The index of a table has at least one bit, so a selector has at least two rows: its
   * height equals the store's exactly when the store has two rows or more.
   */
  lemma {:induction false} SelectorHeight(c: Config, b: Buckets)
    requires c.Valid()
    ensures ManyRows(c, b) <==> PaddedRows(c, b) >= 2
    ensures ManyRows(c, b) <==> SelectorFits(PaddedRows(c, b))
  {
    var n := Times(TableCount(c, b), b.Count());
    TimesFacts(1, b.Count());
    TimesFacts(0, b.Count());
    if b.bits >= 1 {
      Pow2Monotone(1, b.bits);
    }
    TimesMonotone(1, TableCount(c, b), b.Count());
    if b.partition && c.RelationCount() >= 2 {
      TimesMonotone(2, TableCount(c, b), b.Count());
      TimesFacts(2, b.Count());
    }
    assert Pow2(1) == 2;
    hide Times, BitLength;
    var k := if b.partition then BitLength(n - 1) else b.bits;
    assert PaddedRows(c, b) == Pow2(k);
    FullIndex(k);
  }

  // --- All tables -------------------------------------------------------------------------------------

  /** Every hashed table the configuration declares can be built from the owners' layouts. */
  ghost predicate Indexes(c: Config, layouts: seq<Layout>) {
    match c.addressing
    case Dense(None) => true
    case Dense(Some(b)) => IndexFitsTo(c, b, layouts, TableCount(c, b))
    case Blocked(_, b) => IndexFitsTo(c, b, layouts, TableCount(c, b))
  }

  /** What the renderer demands of the declared widths. */
  predicate Renderable(c: Config)
    requires c.pageBudget >= 1
  {
    && c.DescriptorBits() <= c.usableBits
    && match c.addressing
       case Dense(None) => true
       case Dense(Some(b)) => b.bits <= HASH_WORD_BITS && TagBits(c, b) + c.DescriptorBits() <= c.usableBits
       case Blocked(_, b) => b.bits <= HASH_WORD_BITS && TagBits(c, b) + c.DescriptorBits() <= c.usableBits
  }

  /** The field of the servers: its prime carries the usable bits, and every draw is a field element. */
  ghost predicate FieldCarries(c: Config, p: nat, draw: Draw) {
    Pow2(c.usableBits) <= p && InField(draw, p)
  }

  lemma {:induction false} CanIndex(c: Config, owners: seq<seq<RawEdge>>, layouts: seq<Layout>, b: Buckets, p: nat, draw: Draw)
    requires Federation(c, owners, layouts) && c.Valid() && Uses(c, b) && (b.partition ==> c.addressing.Blocked?)
    requires FieldCarries(c, p, draw) && TagBits(c, b) + c.DescriptorBits() <= c.usableBits
    ensures Indexable(c, b, layouts) && InField(draw, p) && Pow2(c.DescriptorBits() + TagBits(c, b)) <= p
  {
    LayoutHeights(c, owners, layouts);
    Pow2Monotone(c.DescriptorBits() + TagBits(c, b), c.usableBits);
    forall o | 0 <= o < |layouts|
      ensures TagsOfKeys(c, layouts[o].residual)
    {
      assert Lossless(c, ResolveOwners(c, owners)[o], layouts[o]);
    }
    hide TagBits, Pow2, InField;
  }

  /** Every page of one owner's pool, shared and revealed. */
  method SharePool(c: Config, ghost owners: seq<seq<RawEdge>>, ghost layouts: seq<Layout>, pages: seq<seq<nat>>, o: nat, p: nat, draw: Draw)
    returns (pool: seq<seq<nat>>)
    requires Federation(c, owners, layouts) && FieldCarries(c, p, draw) && o < |layouts| && pages == layouts[o].pages
    ensures pool == pages
  {
    PagesInField(c, owners, layouts, o, p, draw);
    hide *;
    pool := [];
    for i := 0 to |pages|
      invariant pool == pages[..i]
    {
      DrawsInField(draw, p, o, i, |pages[i]|);
      var page := RevealRow(pages[i], p, RowDraws(draw, Paged, o, i, |pages[i]|));
      pool := pool + [page];
      assert pages[..i + 1] == pages[..i] + [pages[i]];
    }
    assert pages[..|pages|] == pages;
  }

  lemma {:induction false} DrawsInField(draw: Draw, p: nat, o: nat, i: nat, n: nat)
    requires InField(draw, p)
    ensures |RowDraws(draw, Paged, o, i, n)| == n && Draws(RowDraws(draw, Paged, o, i, n), p)
  {
  }

  lemma {:induction false} PagesInField(c: Config, owners: seq<seq<RawEdge>>, layouts: seq<Layout>, o: nat, p: nat, draw: Draw)
    requires Federation(c, owners, layouts) && FieldCarries(c, p, draw) && o < |layouts|
    ensures p > 0 && InField(draw, p)
    ensures forall i, j :: 0 <= i < |layouts[o].pages| && 0 <= j < |layouts[o].pages[i]| ==> layouts[o].pages[i][j] < p
  {
    FieldNotEmpty(draw, p);
    assert Lossless(c, ResolveOwners(c, owners)[o], layouts[o]);
    hide InField, Pow2;
    forall i, j | 0 <= i < |layouts[o].pages| && 0 <= j < |layouts[o].pages[i]|
      ensures layouts[o].pages[i][j] < p
    {
      assert SmallPage(c, layouts[o].pages[i]);
    }
  }

  /** Every owner's page pool, shared and revealed. */
  method SharePools(c: Config, ghost owners: seq<seq<RawEdge>>, layouts: seq<Layout>, p: nat, draw: Draw) returns (pools: seq<seq<seq<nat>>>)
    requires Federation(c, owners, layouts) && FieldCarries(c, p, draw)
    ensures PoolsAre(layouts, pools)
  {
    pools := [];
    hide Federation, FieldCarries;
    for o := 0 to |layouts|
      invariant |pools| == o && forall i :: 0 <= i < o ==> pools[i] == layouts[i].pages
    {
      var pool := SharePool(c, owners, layouts, layouts[o].pages, o, p, draw);
      pools := pools + [pool];
    }
  }

  /**
   * Everything a deployment's servers hold, revealed from the owners' shares: the affine
   * directory, the hashed tables and the page pools.
   */
  method Assemble(c: Config, ghost owners: seq<seq<RawEdge>>, layouts: seq<Layout>, p: nat, draw: Draw)
    returns (r: Option<Tables>, ghost filings: seq<seq<seq<Filed>>>)
    requires Federation(c, owners, layouts) && c.pageBudget >= 1 && Renderable(c) && FieldCarries(c, p, draw)
    ensures r.Some? <==> Indexes(c, layouts)
    ensures r.Some? ==> Tabled(c, owners, layouts, r.value, filings)
    ensures r.Some? ==> (SelectorsFit(c) <==> Deployed(c, owners, layouts, r.value, filings))
  {
    filings := [];
    FederationFacts(c, owners, layouts);
    var pools := SharePools(c, owners, layouts, p, draw);
    match c.addressing
    case Dense(None) =>
      hide Federation, Assembled, PoolsAre, InField, Pow2;
      var main := ShareAndAssemble(c, owners, layouts, p, draw);
      r := Some(Tables(main, [], pools));
    case Dense(Some(b)) =>
      UsesResidual(c, b);
      SelectorHeight(c, b);
      CanIndex(c, owners, layouts, b, p, draw);
      hide Federation, Indexable, ResidualHolds, IndexFitsTo, PoolsAre, FieldCarries, InField, Pow2, SelectorFits, ManyRows, PaddedRows, TagBits;
      var residual;
      residual, filings := AssembleResidual(c, b, layouts, p, draw);
      r := if residual.Some? then Some(Tables([], residual.value, pools)) else None;
    case Blocked(_, b) =>
      UsesResidual(c, b);
      SelectorHeight(c, b);
      CanIndex(c, owners, layouts, b, p, draw);
      hide Federation, Indexable, ResidualHolds, IndexFitsTo, Assembled, PoolsAre, InField, Pow2, SelectorFits, ManyRows, PaddedRows, TagBits;
      var main := ShareAndAssemble(c, owners, layouts, p, draw);
      var residual;
      residual, filings := AssembleResidual(c, b, layouts, p, draw);
      r := if residual.Some? then Some(Tables(main, residual.value, pools)) else None;
  }
}
