// The hashed directory: Fibonacci hashing of key tags, one owner's table, and
// what a lookup in it finds.
module BucketTable {
  import opened Wrappers
  import opened Bits
  import opened Sorting

  const MULTIPLIER: nat := 0x9E3779B97F4A7C15
  const HASH_INPUT_BITS := 40
  const HASH_WORD_BITS := 64

  /** The 64-bit word `tag * MULTIPLIER`, of which the top bits are the bucket. */
  function HashWord(tag: nat): (r: nat)
    ensures r < Pow2(HASH_WORD_BITS)
  {
    Remainder(Times(tag, MULTIPLIER), Pow2(HASH_WORD_BITS))
  }

  /** The bucket of a tag among `2^bits`. */
  function Bucket(tag: nat, bits: nat): nat {
    if bits == 0 || bits > HASH_WORD_BITS then 0 else ShiftRight(HashWord(tag), HASH_WORD_BITS - bits)
  }

  lemma {:induction false} BucketInRange(tag: nat, bits: nat)
    ensures Bucket(tag, bits) < Pow2(bits)
  {
    if 0 < bits <= HASH_WORD_BITS {
      Pow2Add(HASH_WORD_BITS - bits, bits);
      hide HashWord;
      QuotientBound(HashWord(tag), Pow2(HASH_WORD_BITS - bits), Pow2(bits));
    }
  }

  /** `bucket_of`: raises on a tag wider than the hash input. */
  function BucketOf(tag: nat, bits: nat): Result<nat> {
    if bits == 0 then Ok(0)
    else if BitLength(tag) > HASH_INPUT_BITS then Err(OutOfRange)
    else Ok(Bucket(tag, bits))
  }

  /** `pack_slot`: the tag above the descriptor. */
  function PackSlot(tag: nat, descriptor: nat, descriptorBits: nat): Result<nat> {
    if descriptor >= Pow2(descriptorBits) then Err(FieldOverflow)
    else Ok(Or(descriptor, ShiftLeft(tag, descriptorBits)))
  }

  /** The packed value, as a sum. */
  function Packed(tag: nat, descriptor: nat, descriptorBits: nat): nat {
    descriptor + ShiftLeft(tag, descriptorBits)
  }

  /** Packing never carries, and both parts come back. */
  lemma {:induction false} SlotRoundTrip(tag: nat, descriptor: nat, descriptorBits: nat)
    requires descriptor < Pow2(descriptorBits)
    ensures PackSlot(tag, descriptor, descriptorBits) == Ok(Packed(tag, descriptor, descriptorBits))
    ensures var packed := Packed(tag, descriptor, descriptorBits);
      ShiftRight(packed, descriptorBits) == tag && Remainder(packed, Pow2(descriptorBits)) == descriptor
  {
    OrDisjoint(descriptor, tag, descriptorBits);
    DivModUnique(descriptor + ShiftLeft(tag, descriptorBits), Pow2(descriptorBits), tag, descriptor);
  }

  lemma {:induction false} EmptySlot(descriptorBits: nat)
    ensures ShiftRight(0, descriptorBits) == 0 && Remainder(0, Pow2(descriptorBits)) == 0
  {
    SmallQuotient(0, Pow2(descriptorBits));
  }

  // --- One owner's columns of one bucket --------------------------------------------

  /** A stored key. */
  datatype Filed = Filed(tag: nat, descriptor: nat)

  function Slot(f: Filed, descriptorBits: nat): nat {
    Packed(f.tag, f.descriptor, descriptorBits)
  }

  /** The keys of a bucket, in the order they were filed. */
  function InBucket(filed: seq<Filed>, bits: nat, bucket: nat): seq<Filed> {
    if filed == [] then []
    else
      var n := |filed| - 1;
      InBucket(filed[..n], bits, bucket) + if Bucket(filed[n].tag, bits) == bucket then [filed[n]] else []
  }

  /** The slots that hold some keys. */
  function SlotsOf(keys: seq<Filed>, slots: nat, descriptorBits: nat): (r: seq<nat>)
    ensures |r| == slots
    ensures forall k :: 0 <= k < slots ==> r[k] == if k < |keys| then Slot(keys[k], descriptorBits) else 0
  {
    seq(slots, (k: nat) => if k < |keys| then Slot(keys[k], descriptorBits) else 0)
  }

  /** What the slots say about a wanted tag: the descriptors of the slots that match, added up. */
  function Matched(cells: seq<nat>, wanted: nat, descriptorBits: nat): nat {
    if cells == [] then 0
    else
      var n := |cells| - 1;
      Matched(cells[..n], wanted, descriptorBits)
      + if ShiftRight(cells[n], descriptorBits) == wanted then Remainder(cells[n], Pow2(descriptorBits)) else 0
  }

  ghost predicate TagsDistinct(keys: seq<Filed>) {
    forall i, j :: 0 <= i < j < |keys| ==> keys[i].tag != keys[j].tag
  }

  ghost predicate TagsReal(keys: seq<Filed>, descriptorBits: nat) {
    forall i :: 0 <= i < |keys| ==> keys[i].tag != 0 && keys[i].descriptor < Pow2(descriptorBits)
  }

  /** The descriptor filed under a tag. */
  function Find(keys: seq<Filed>, tag: nat): nat {
    if keys == [] then 0
    else if keys[|keys| - 1].tag == tag then keys[|keys| - 1].descriptor
    else Find(keys[..|keys| - 1], tag)
  }

  lemma {:induction false} FindAbsent(keys: seq<Filed>, tag: nat)
    requires forall i :: 0 <= i < |keys| ==> keys[i].tag != tag
    ensures Find(keys, tag) == 0
  {
    if keys != [] {
      FindAbsent(keys[..|keys| - 1], tag);
    }
  }

  /** Distinct tags: at most one slot matches, and the sum is the filed descriptor. */
  lemma {:induction false} MatchedIsFind(keys: seq<Filed>, n: nat, wanted: nat, descriptorBits: nat)
    requires n <= |keys| && TagsDistinct(keys) && TagsReal(keys, descriptorBits)
    ensures Matched(SlotsOf(keys[..n], n, descriptorBits), wanted, descriptorBits) == Find(keys[..n], wanted)
  {
    if n > 0 {
      MatchedIsFind(keys, n - 1, wanted, descriptorBits);
      var cells := SlotsOf(keys[..n], n, descriptorBits);
      assert cells[..n - 1] == SlotsOf(keys[..n - 1], n - 1, descriptorBits);
      assert keys[..n][..n - 1] == keys[..n - 1];
      SlotRoundTrip(keys[n - 1].tag, keys[n - 1].descriptor, descriptorBits);
      hide ShiftRight, ShiftLeft, Packed, PackSlot, Remainder, Quotient;
      if keys[n - 1].tag == wanted {
        FindAbsent(keys[..n - 1], wanted);
      }
    }
  }

  /** Empty slots add nothing, whatever the wanted tag. */
  lemma {:induction false} MatchedPadding(keys: seq<Filed>, slots: nat, wanted: nat, descriptorBits: nat)
    requires |keys| <= slots && TagsDistinct(keys) && TagsReal(keys, descriptorBits)
    ensures Matched(SlotsOf(keys, slots, descriptorBits), wanted, descriptorBits) == Find(keys, wanted)
    decreases slots
  {
    if slots == |keys| {
      MatchedIsFind(keys, slots, wanted, descriptorBits);
      assert keys[..slots] == keys;
    } else {
      MatchedPadding(keys, slots - 1, wanted, descriptorBits);
      assert SlotsOf(keys, slots, descriptorBits)[..slots - 1] == SlotsOf(keys, slots - 1, descriptorBits);
      EmptySlot(descriptorBits);
      hide ShiftRight, Remainder, Find;
    }
  }

  // --- A whole table --------------------------------------------------------------------

  lemma {:induction false} InBucketMembers(filed: seq<Filed>, bits: nat, bucket: nat, f: Filed)
    ensures f in InBucket(filed, bits, bucket) <==> f in filed && Bucket(f.tag, bits) == bucket
  {
    hide Bucket;
    if filed != [] {
      var n := |filed| - 1;
      InBucketMembers(filed[..n], bits, bucket, f);
      assert filed == filed[..n] + [filed[n]];
    }
  }

  lemma {:induction false} InBucketDistinct(filed: seq<Filed>, bits: nat, bucket: nat, descriptorBits: nat)
    requires TagsDistinct(filed) && TagsReal(filed, descriptorBits)
    ensures TagsDistinct(InBucket(filed, bits, bucket)) && TagsReal(InBucket(filed, bits, bucket), descriptorBits)
  {
    hide Bucket;
    if filed != [] {
      var n := |filed| - 1;
      InBucketDistinct(filed[..n], bits, bucket, descriptorBits);
      var before := InBucket(filed[..n], bits, bucket);
      forall i | 0 <= i < |before|
        ensures before[i].tag != filed[n].tag
      {
        InBucketMembers(filed[..n], bits, bucket, before[i]);
        var j :| 0 <= j < n && filed[..n][j] == before[i];
        assert filed[j].tag != filed[n].tag;
      }
    }
  }

  /** A key's bucket answers for the whole table. */
  lemma {:induction false} FindInBucket(filed: seq<Filed>, bits: nat, tag: nat)
    ensures Find(InBucket(filed, bits, Bucket(tag, bits)), tag) == Find(filed, tag)
  {
    hide Bucket;
    if filed != [] {
      var n := |filed| - 1;
      FindInBucket(filed[..n], bits, tag);
      var b := InBucket(filed, bits, Bucket(tag, bits));
      if Bucket(filed[n].tag, bits) == Bucket(tag, bits) {
        assert b[..|b| - 1] == InBucket(filed[..n], bits, Bucket(tag, bits)) && b[|b| - 1] == filed[n];
      } else {
        assert b == InBucket(filed[..n], bits, Bucket(tag, bits));
      }
    }
  }

  /** Every bucket has room. */
  ghost predicate Roomy(filed: seq<Filed>, bits: nat, slots: nat) {
    forall bucket :: |InBucket(filed, bits, bucket)| <= slots
  }

  /** One owner's table: its keys in its own columns, zeros everywhere else. */
  ghost predicate TableOf(filed: seq<Filed>, table: seq<seq<nat>>, owner: nat, owners: nat, bits: nat, slots: nat, descriptorBits: nat) {
    && owner < owners && |table| == Pow2(bits)
    && (forall bucket :: 0 <= bucket < |table| ==> |table[bucket]| == Times(owners, slots))
    && forall bucket :: 0 <= bucket < |table| ==> RowOf(filed, table[bucket], owner, bits, slots, descriptorBits, bucket)
  }

  ghost predicate RowOf(filed: seq<Filed>, row: seq<nat>, owner: nat, bits: nat, slots: nat, descriptorBits: nat, bucket: nat) {
    && Times(owner, slots) + slots <= |row|
    && row[Times(owner, slots)..Times(owner, slots) + slots] == SlotsOf(InBucket(filed, bits, bucket), slots, descriptorBits)
    && (forall column :: 0 <= column < Times(owner, slots) ==> row[column] == 0)
    && forall column :: Times(owner, slots) + slots <= column < |row| ==> row[column] == 0
  }

  // --- Building ----------------------------------------------------------------------------

  predicate TagAtMost(a: Filed, b: Filed) {
    a.tag < b.tag || (a.tag == b.tag && a.descriptor <= b.descriptor)
  }

  lemma {:induction false} TagOrder()
    ensures TotalOrder(TagAtMost)
  {
  }

  function UsedOf(used: map<nat, nat>, bucket: nat): nat {
    if bucket in used then used[bucket] else 0
  }

  /** How many slots of each bucket are taken. */
  ghost predicate Counts(filed: seq<Filed>, bits: nat, used: map<nat, nat>) {
    forall bucket :: |InBucket(filed, bits, bucket)| == UsedOf(used, bucket)
  }

  /** The table and the counters after some keys have been filed. */
  ghost predicate Filing(filed: seq<Filed>, table: seq<seq<nat>>, used: map<nat, nat>,
                         owner: nat, owners: nat, bits: nat, slots: nat, descriptorBits: nat)
  {
    TableOf(filed, table, owner, owners, bits, slots, descriptorBits) && Counts(filed, bits, used) && Roomy(filed, bits, slots)
  }

  function ZeroSlots(n: nat): (r: seq<nat>)
    ensures |r| == n && forall i :: 0 <= i < n ==> r[i] == 0
  {
    seq(n, _ => 0)
  }

  lemma {:induction false} EmptyTable(table: seq<seq<nat>>, owner: nat, owners: nat, bits: nat, slots: nat, descriptorBits: nat)
    requires owner < owners && |table| == Pow2(bits)
    requires forall b :: 0 <= b < |table| ==> table[b] == ZeroSlots(Times(owners, slots))
    ensures Filing([], table, map[], owner, owners, bits, slots, descriptorBits)
  {
    TimesMonotone(owner + 1, owners, slots);
    TimesFacts(owner, slots);
    hide Times;
  }

  lemma {:induction false} InBucketSnoc(filed: seq<Filed>, f: Filed, bits: nat, bucket: nat)
    ensures InBucket(filed + [f], bits, bucket)
         == InBucket(filed, bits, bucket) + if Bucket(f.tag, bits) == bucket then [f] else []
  {
    assert (filed + [f])[..|filed|] == filed;
  }

  /** `table[bucket * width + column] = value`. */
  function WithCell(table: seq<seq<nat>>, bucket: nat, column: nat, value: nat): (r: seq<seq<nat>>)
    requires bucket < |table| && column < |table[bucket]|
    ensures |r| == |table| && r[bucket] == table[bucket][column := value]
    ensures forall b :: 0 <= b < |r| && b != bucket ==> r[b] == table[b]
  {
    var row: seq<nat> := table[bucket][column := value];
    table[bucket := row]
  }

  /** The counters after one more key. */
  lemma {:induction false} CountStep(filed: seq<Filed>, f: Filed, bits: nat, slots: nat, used: map<nat, nat>)
    requires Counts(filed, bits, used) && Roomy(filed, bits, slots) && UsedOf(used, Bucket(f.tag, bits)) < slots
    ensures Counts(filed + [f], bits, used[Bucket(f.tag, bits) := UsedOf(used, Bucket(f.tag, bits)) + 1])
    ensures Roomy(filed + [f], bits, slots)
  {
    hide Bucket, InBucket;
    var more, used' := filed + [f], used[Bucket(f.tag, bits) := UsedOf(used, Bucket(f.tag, bits)) + 1];
    forall b: nat
      ensures |InBucket(more, bits, b)| == UsedOf(used', b) && |InBucket(more, bits, b)| <= slots
    {
      InBucketSnoc(filed, f, bits, b);
      assert |InBucket(filed, bits, b)| == UsedOf(used, b);
    }
  }

  /** The table after one more key. */
  lemma {:induction false} TableStep(filed: seq<Filed>, f: Filed, table: seq<seq<nat>>, owner: nat, owners: nat, bits: nat, slots: nat, descriptorBits: nat)
    requires TableOf(filed, table, owner, owners, bits, slots, descriptorBits) && |InBucket(filed, bits, Bucket(f.tag, bits))| < slots
    ensures var bucket := Bucket(f.tag, bits); var column := Times(owner, slots) + |InBucket(filed, bits, bucket)|;
      && bucket < |table| && column < |table[bucket]|
      && TableOf(filed + [f], WithCell(table, bucket, column, Slot(f, descriptorBits)), owner, owners, bits, slots, descriptorBits)
  {
    var bucket := Bucket(f.tag, bits);
    BucketInRange(f.tag, bits);
    assert RowOf(filed, table[bucket], owner, bits, slots, descriptorBits, bucket);
    var column := Times(owner, slots) + |InBucket(filed, bits, bucket)|;
    var next := WithCell(table, bucket, column, Slot(f, descriptorBits));
    forall b: nat | b < |next|
      ensures |next[b]| == Times(owners, slots) && RowOf(filed + [f], next[b], owner, bits, slots, descriptorBits, b)
    {
      assert RowOf(filed, table[b], owner, bits, slots, descriptorBits, b);
      InBucketSnoc(filed, f, bits, b);
      hide Bucket, Slot, Times, InBucket, RowOf;
      if b == bucket {
        RowStep(filed, f, table[b], owner, bits, slots, descriptorBits, b);
      } else {
        SameRow(filed, f, table[b], owner, bits, slots, descriptorBits, b);
      }
    }
    hide Bucket, Slot, Times, InBucket, RowOf;
  }

  lemma {:induction false} SameRow(filed: seq<Filed>, f: Filed, row: seq<nat>, owner: nat, bits: nat, slots: nat, descriptorBits: nat, bucket: nat)
    requires RowOf(filed, row, owner, bits, slots, descriptorBits, bucket)
    requires InBucket(filed + [f], bits, bucket) == InBucket(filed, bits, bucket) + []
    ensures RowOf(filed + [f], row, owner, bits, slots, descriptorBits, bucket)
  {
    hide InBucket, SlotsOf, Times;
    assert InBucket(filed + [f], bits, bucket) == InBucket(filed, bits, bucket);
  }

  lemma {:induction false} RowStep(filed: seq<Filed>, f: Filed, row: seq<nat>, owner: nat, bits: nat, slots: nat, descriptorBits: nat, bucket: nat)
    requires RowOf(filed, row, owner, bits, slots, descriptorBits, bucket)
    requires InBucket(filed + [f], bits, bucket) == InBucket(filed, bits, bucket) + [f]
    requires |InBucket(filed, bits, bucket)| < slots
    ensures Times(owner, slots) + |InBucket(filed, bits, bucket)| < |row|
    ensures RowOf(filed + [f], row[Times(owner, slots) + |InBucket(filed, bits, bucket)| := Slot(f, descriptorBits)],
                  owner, bits, slots, descriptorBits, bucket)
  {
    hide InBucket, Slot, Times;
    var from, count := Times(owner, slots), |InBucket(filed, bits, bucket)|;
    var next: seq<nat> := row[from + count := Slot(f, descriptorBits)];
    assert next[from..from + slots] == row[from..from + slots][count := Slot(f, descriptorBits)];
    assert next[from..from + slots] == SlotsOf(InBucket(filed, bits, bucket) + [f], slots, descriptorBits);
  }

  /** One more key goes into the next free slot of its bucket. */
  lemma {:induction false} FileStep(filed: seq<Filed>, f: Filed, table: seq<seq<nat>>, used: map<nat, nat>,
                                    owner: nat, owners: nat, bits: nat, slots: nat, descriptorBits: nat)
    requires Filing(filed, table, used, owner, owners, bits, slots, descriptorBits) && UsedOf(used, Bucket(f.tag, bits)) < slots
    ensures var bucket := Bucket(f.tag, bits); var column := Times(owner, slots) + UsedOf(used, bucket);
      && bucket < |table| && column < |table[bucket]|
      && Filing(filed + [f], WithCell(table, bucket, column, Slot(f, descriptorBits)), used[bucket := UsedOf(used, bucket) + 1],
                owner, owners, bits, slots, descriptorBits)
  {
    hide *;
    FilingParts(filed, table, used, owner, owners, bits, slots, descriptorBits, Bucket(f.tag, bits));
    CountStep(filed, f, bits, slots, used);
    TableStep(filed, f, table, owner, owners, bits, slots, descriptorBits);
    var bucket := Bucket(f.tag, bits);
    var column := Times(owner, slots) + UsedOf(used, bucket);
    FilingIs(filed + [f], WithCell(table, bucket, column, Slot(f, descriptorBits)), used[bucket := UsedOf(used, bucket) + 1],
             owner, owners, bits, slots, descriptorBits);
  }

  lemma {:induction false} FilingParts(filed: seq<Filed>, table: seq<seq<nat>>, used: map<nat, nat>,
                                       owner: nat, owners: nat, bits: nat, slots: nat, descriptorBits: nat, bucket: nat)
    requires Filing(filed, table, used, owner, owners, bits, slots, descriptorBits)
    ensures TableOf(filed, table, owner, owners, bits, slots, descriptorBits) && Counts(filed, bits, used) && Roomy(filed, bits, slots)
    ensures |InBucket(filed, bits, bucket)| == UsedOf(used, bucket)
  {
    hide TableOf, Roomy, InBucket;
  }

  lemma {:induction false} FilingIs(filed: seq<Filed>, table: seq<seq<nat>>, used: map<nat, nat>,
                                    owner: nat, owners: nat, bits: nat, slots: nat, descriptorBits: nat)
    requires TableOf(filed, table, owner, owners, bits, slots, descriptorBits) && Counts(filed, bits, used) && Roomy(filed, bits, slots)
    ensures Filing(filed, table, used, owner, owners, bits, slots, descriptorBits)
  {
    hide TableOf, Counts, Roomy;
  }

  /** A full bucket stays full. */
  lemma {:induction false} NoRoom(filed: seq<Filed>, n: nat, bits: nat, slots: nat)
    requires n < |filed| && |InBucket(filed[..n], bits, Bucket(filed[n].tag, bits))| >= slots
    ensures !Roomy(filed, bits, slots)
  {
    var bucket := Bucket(filed[n].tag, bits);
    assert filed[..n + 1] == filed[..n] + [filed[n]];
    InBucketSnoc(filed[..n], filed[n], bits, bucket);
    InBucketGrows(filed, n + 1, |filed|, bits, bucket);
    assert filed[..|filed|] == filed;
  }

  lemma {:induction false} InBucketGrows(filed: seq<Filed>, m: nat, n: nat, bits: nat, bucket: nat)
    requires m <= n <= |filed|
    ensures |InBucket(filed[..m], bits, bucket)| <= |InBucket(filed[..n], bits, bucket)|
    decreases n
  {
    if m < n {
      InBucketGrows(filed, m, n - 1, bits, bucket);
      assert filed[..n] == filed[..n - 1] + [filed[n - 1]];
      InBucketSnoc(filed[..n - 1], filed[n - 1], bits, bucket);
    }
  }

  predicate KeyFileable(f: Filed, bits: nat, descriptorBits: nat) {
    f.tag != 0 && f.descriptor < Pow2(descriptorBits) && (bits == 0 || BitLength(f.tag) <= HASH_INPUT_BITS)
  }

  /** File one key, or find out why not. */
  method FileKey(ghost filed: seq<Filed>, f: Filed, table0: seq<seq<nat>>, used0: map<nat, nat>,
                 owner: nat, ghost owners: nat, bits: nat, slots: nat, descriptorBits: nat)
    returns (r: Result<(seq<seq<nat>>, map<nat, nat>)>)
    requires Filing(filed, table0, used0, owner, owners, bits, slots, descriptorBits) && bits <= HASH_WORD_BITS
    ensures r.Ok? <==> KeyFileable(f, bits, descriptorBits) && |InBucket(filed, bits, Bucket(f.tag, bits))| < slots
    ensures r.Ok? ==> Filing(filed + [f], r.value.0, r.value.1, owner, owners, bits, slots, descriptorBits)
  {
    hide BitLength, MULTIPLIER, Quotient, Remainder;
    if f.tag == 0 {
      return Err(BadValue);
    }
    var hashed := BucketOf(f.tag, bits);
    if hashed.Err? {
      return Err(hashed.error);
    }
    var bucket := hashed.value;
    assert bucket == Bucket(f.tag, bits);
    var count := UsedOf(used0, bucket);
    assert |InBucket(filed, bits, bucket)| == count;
    if count >= slots {
      return Err(FrontierExceeded);
    }
    var packed := PackSlot(f.tag, f.descriptor, descriptorBits);
    if packed.Err? {
      return Err(packed.error);
    }
    SlotRoundTrip(f.tag, f.descriptor, descriptorBits);
    assert packed.value == Slot(f, descriptorBits);
    FileStep(filed, f, table0, used0, owner, owners, bits, slots, descriptorBits);
    hide *;
    r := Ok((WithCell(table0, bucket, Times(owner, slots) + count, packed.value), used0[bucket := count + 1]));
  }

  /** Every key can be hashed and packed. */
  predicate Fileable(filed: seq<Filed>, bits: nat, descriptorBits: nat) {
    forall i :: 0 <= i < |filed| ==> KeyFileable(filed[i], bits, descriptorBits)
  }

  /**
   * `build_owner_table` on keys in tag order: succeeds exactly when every key can be hashed
   * and packed and every bucket has room, and then files each key in its bucket.
   */
  method FileKeys(filed: seq<Filed>, owner: nat, owners: nat, bits: nat, slots: nat, descriptorBits: nat) returns (r: Result<seq<seq<nat>>>)
    requires owner < owners && bits <= HASH_WORD_BITS
    ensures r.Ok? <==> Fileable(filed, bits, descriptorBits) && Roomy(filed, bits, slots)
    ensures r.Ok? ==> TableOf(filed, r.value, owner, owners, bits, slots, descriptorBits)
  {
    hide *;
    var table: seq<seq<nat>> := ZeroTable(Pow2(bits), Times(owners, slots));
    var used: map<nat, nat> := map[];
    EmptyTable(table, owner, owners, bits, slots, descriptorBits);
    assert filed[..0] == [];
    for i := 0 to |filed|
      invariant Filing(filed[..i], table, used, owner, owners, bits, slots, descriptorBits)
      invariant forall j :: 0 <= j < i ==> KeyFileable(filed[j], bits, descriptorBits)
    {
      var next := FileKey(filed[..i], filed[i], table, used, owner, owners, bits, slots, descriptorBits);
      if next.Err? {
        KeyRefused(filed, i, bits, slots, descriptorBits);
        return Err(next.error);
      }
      assert filed[..i + 1] == filed[..i] + [filed[i]];
      table, used := next.value.0, next.value.1;
    }
    assert filed[..|filed|] == filed;
    FilingParts(filed, table, used, owner, owners, bits, slots, descriptorBits, 0);
    AllFileable(filed, bits, descriptorBits);
    r := Ok(table);
  }

  lemma {:induction false} KeyRefused(filed: seq<Filed>, n: nat, bits: nat, slots: nat, descriptorBits: nat)
    requires n < |filed|
    requires !(KeyFileable(filed[n], bits, descriptorBits) && |InBucket(filed[..n], bits, Bucket(filed[n].tag, bits))| < slots)
    ensures !(Fileable(filed, bits, descriptorBits) && Roomy(filed, bits, slots))
  {
    hide KeyFileable, Bucket;
    if KeyFileable(filed[n], bits, descriptorBits) {
      NoRoom(filed, n, bits, slots);
    }
  }

  lemma {:induction false} AllFileable(filed: seq<Filed>, bits: nat, descriptorBits: nat)
    requires forall j :: 0 <= j < |filed| ==> KeyFileable(filed[j], bits, descriptorBits)
    ensures Fileable(filed, bits, descriptorBits)
  {
    hide KeyFileable;
  }

  function ZeroTable(rows: nat, width: nat): (r: seq<seq<nat>>)
    ensures |r| == rows && forall i :: 0 <= i < rows ==> r[i] == ZeroSlots(width)
  {
    seq(rows, _ => ZeroSlots(width))
  }

  /** The stored keys as an ordered list: `sorted(keyed_descriptors.items())`. */
  ghost predicate Lists(filed: seq<Filed>, keyed: map<nat, nat>) {
    && TagsDistinct(filed)
    && (forall i :: 0 <= i < |filed| ==> filed[i].tag in keyed && keyed[filed[i].tag] == filed[i].descriptor)
    && forall tag :: tag in keyed ==> Filed(tag, keyed[tag]) in filed
  }

  method ListKeys(keyed: map<nat, nat>) returns (filed: seq<Filed>)
    ensures Lists(filed, keyed) && SortedBy(filed, TagAtMost)
  {
    var pending := keyed.Keys;
    var all: seq<Filed> := [];
    while pending != {}
      invariant TagsDistinct(all)
      invariant forall tag :: tag in pending ==> tag in keyed
      invariant forall i :: 0 <= i < |all| ==> all[i].tag in keyed && keyed[all[i].tag] == all[i].descriptor && all[i].tag !in pending
      invariant forall tag :: tag in keyed && tag !in pending ==> Filed(tag, keyed[tag]) in all
      decreases pending
    {
      var tag :| tag in pending;
      all := all + [Filed(tag, keyed[tag])];
      pending := pending - {tag};
    }
    TagOrder();
    SortBySorted(all, TagAtMost);
    filed := SortBy(all, TagAtMost);
    SortedLists(all, filed, keyed);
  }

  lemma {:induction false} SortedLists(all: seq<Filed>, filed: seq<Filed>, keyed: map<nat, nat>)
    requires Lists(all, keyed) && filed == SortBy(all, TagAtMost)
    ensures Lists(filed, keyed)
  {
    TagOrder();
    forall i, j | 0 <= i < j < |all|
      ensures all[i] != all[j]
    {
      assert all[i].tag != all[j].tag;
    }
    SortByDistinct(all, TagAtMost);
    forall f
      ensures f in filed <==> f in all
    {
      SortByMembers(all, TagAtMost, f);
    }
    hide SortBy;
    forall i | 0 <= i < |filed|
      ensures filed[i].tag in keyed && keyed[filed[i].tag] == filed[i].descriptor
    {
      assert filed[i] in all;
    }
    forall i, j | 0 <= i < j < |filed|
      ensures filed[i].tag != filed[j].tag
    {
      assert filed[i] in all && filed[j] in all && filed[i] != filed[j];
    }
  }

  /** Looking a tag up in the list is looking it up in the dictionary. */
  lemma {:induction false} FindListed(filed: seq<Filed>, n: nat, keyed: map<nat, nat>, tag: nat)
    requires n <= |filed| && Lists(filed, keyed)
    ensures Find(filed[..n], tag) == if exists i :: 0 <= i < n && filed[i].tag == tag then (if tag in keyed then keyed[tag] else 0) else 0
  {
    if n > 0 {
      FindListed(filed, n - 1, keyed, tag);
      assert filed[..n][..n - 1] == filed[..n - 1];
    }
  }

  lemma {:induction false} FindKeyed(filed: seq<Filed>, keyed: map<nat, nat>, tag: nat)
    requires Lists(filed, keyed)
    ensures Find(filed, tag) == if tag in keyed then keyed[tag] else 0
  {
    FindListed(filed, |filed|, keyed, tag);
    assert filed[..|filed|] == filed;
    if tag in keyed {
      assert Filed(tag, keyed[tag]) in filed;
      var i :| 0 <= i < |filed| && filed[i] == Filed(tag, keyed[tag]);
      assert filed[i].tag == tag;
    }
  }

  // --- A table, on the dictionary's own tags --------------------------------------------------

  /** The dictionary's tags of one bucket, ascending. */
  ghost predicate TagsOfBucket(keyed: map<nat, nat>, bits: nat, bucket: nat, tags: seq<nat>) {
    && (forall k :: 0 <= k < |tags| ==> tags[k] in keyed && Bucket(tags[k], bits) == bucket)
    && (forall tag :: tag in keyed && Bucket(tag, bits) == bucket ==> tag in tags)
    && forall j, k :: 0 <= j < k < |tags| ==> tags[j] < tags[k]
  }

  /** One row: from the owner's own first column, each tag above its descriptor; zeros everywhere else. */
  ghost predicate RowHasTags(keyed: map<nat, nat>, row: seq<nat>, from: nat, descriptorBits: nat, tags: seq<nat>) {
    && from + |tags| <= |row|
    && (forall k :: 0 <= k < |tags| ==> tags[k] in keyed && row[from + k] == keyed[tags[k]] + tags[k] * Pow2(descriptorBits))
    && forall column :: 0 <= column < |row| && !(from <= column < from + |tags|) ==> row[column] == 0
  }

  /** The row of a bucket in one owner's table. */
  ghost predicate BucketHolds(keyed: map<nat, nat>, row: seq<nat>, from: nat, bits: nat, descriptorBits: nat, bucket: nat) {
    exists tags: seq<nat> :: TagsOfBucket(keyed, bits, bucket, tags) && RowHasTags(keyed, row, from, descriptorBits, tags)
  }

  function TagsIn(keys: seq<Filed>): (r: seq<nat>)
    ensures |r| == |keys| && forall i :: 0 <= i < |r| ==> r[i] == keys[i].tag
  {
    seq(|keys|, i requires 0 <= i < |keys| => keys[i].tag)
  }

  /** A bucket keeps the order of the list. */
  lemma {:induction false} InBucketSorted(filed: seq<Filed>, bits: nat, bucket: nat)
    requires SortedBy(filed, TagAtMost)
    ensures SortedBy(InBucket(filed, bits, bucket), TagAtMost)
  {
    hide Bucket;
    if filed != [] {
      var n := |filed| - 1;
      InBucketSorted(filed[..n], bits, bucket);
      var before := InBucket(filed[..n], bits, bucket);
      forall i | 0 <= i < |before|
        ensures TagAtMost(before[i], filed[n])
      {
        InBucketMembers(filed[..n], bits, bucket, before[i]);
      }
    }
  }

  lemma {:induction false} BucketTagsAre(filed: seq<Filed>, keyed: map<nat, nat>, bits: nat, bucket: nat, descriptorBits: nat)
    requires Lists(filed, keyed) && SortedBy(filed, TagAtMost) && TagsReal(filed, descriptorBits)
    ensures TagsOfBucket(keyed, bits, bucket, TagsIn(InBucket(filed, bits, bucket)))
  {
    var inside := InBucket(filed, bits, bucket);
    InBucketSorted(filed, bits, bucket);
    InBucketDistinct(filed, bits, bucket, descriptorBits);
    forall f
      ensures f in inside <==> f in filed && Bucket(f.tag, bits) == bucket
    {
      InBucketMembers(filed, bits, bucket, f);
    }
    hide Bucket, InBucket;
    forall k | 0 <= k < |inside|
      ensures inside[k].tag in keyed && Bucket(inside[k].tag, bits) == bucket
    {
      assert inside[k] in filed;
    }
    forall tag | tag in keyed && Bucket(tag, bits) == bucket
      ensures tag in TagsIn(inside)
    {
      assert Filed(tag, keyed[tag]) in inside;
      var k :| 0 <= k < |inside| && inside[k] == Filed(tag, keyed[tag]);
      assert TagsIn(inside)[k] == tag;
    }
  }

  /** A filed row, cell by cell. */
  lemma {:induction false} RowCells(filed: seq<Filed>, keyed: map<nat, nat>, row: seq<nat>, owner: nat, bits: nat, slots: nat, descriptorBits: nat, bucket: nat)
    requires Lists(filed, keyed) && RowOf(filed, row, owner, bits, slots, descriptorBits, bucket) && Roomy(filed, bits, slots)
    ensures RowHasTags(keyed, row, Times(owner, slots), descriptorBits, TagsIn(InBucket(filed, bits, bucket)))
  {
    var inside, from := InBucket(filed, bits, bucket), Times(owner, slots);
    assert |inside| <= slots;
    var cells := row[from..from + slots];
    forall k | 0 <= k < slots
      ensures row[from + k] == if k < |inside| then Slot(inside[k], descriptorBits) else 0
    {
      assert row[from + k] == cells[k];
    }
    forall k | 0 <= k < |inside|
      ensures inside[k].tag in keyed && keyed[inside[k].tag] == inside[k].descriptor
    {
      InBucketMembers(filed, bits, bucket, inside[k]);
      assert inside[k] in filed;
    }
    hide InBucket, Times, RowOf, Pow2;
    forall column | 0 <= column < |row| && !(from <= column < from + |inside|)
      ensures row[column] == 0
    {
      if from <= column < from + slots {
        assert row[from + (column - from)] == 0;
      } else {
        assert row[column] == 0 by {
          RowElsewhere(filed, row, owner, bits, slots, descriptorBits, bucket, column);
        }
      }
    }
  }

  lemma {:induction false} RowElsewhere(filed: seq<Filed>, row: seq<nat>, owner: nat, bits: nat, slots: nat, descriptorBits: nat, bucket: nat, column: nat)
    requires RowOf(filed, row, owner, bits, slots, descriptorBits, bucket) && column < |row|
    requires column < Times(owner, slots) || Times(owner, slots) + slots <= column
    ensures row[column] == 0
  {
  }

  /** Every row of a filed table holds its bucket's tags in ascending order. */
  lemma {:induction false} TableHasTags(filed: seq<Filed>, keyed: map<nat, nat>, table: seq<seq<nat>>, owner: nat, owners: nat, bits: nat, slots: nat, descriptorBits: nat)
    requires Lists(filed, keyed) && SortedBy(filed, TagAtMost) && TagsReal(filed, descriptorBits) && Roomy(filed, bits, slots)
    requires TableOf(filed, table, owner, owners, bits, slots, descriptorBits)
    ensures forall bucket :: 0 <= bucket < |table| ==> BucketHolds(keyed, table[bucket], Times(owner, slots), bits, descriptorBits, bucket)
  {
    forall bucket | 0 <= bucket < |table|
      ensures BucketHolds(keyed, table[bucket], Times(owner, slots), bits, descriptorBits, bucket)
    {
      assert RowOf(filed, table[bucket], owner, bits, slots, descriptorBits, bucket);
      hide *;
      BucketTagsAre(filed, keyed, bits, bucket, descriptorBits);
      RowCells(filed, keyed, table[bucket], owner, bits, slots, descriptorBits, bucket);
      BucketIs(keyed, table[bucket], Times(owner, slots), bits, descriptorBits, bucket, TagsIn(InBucket(filed, bits, bucket)));
    }
  }

  lemma {:induction false} BucketIs(keyed: map<nat, nat>, row: seq<nat>, from: nat, bits: nat, descriptorBits: nat, bucket: nat, tags: seq<nat>)
    requires TagsOfBucket(keyed, bits, bucket, tags) && RowHasTags(keyed, row, from, descriptorBits, tags)
    ensures BucketHolds(keyed, row, from, bits, descriptorBits, bucket)
  {
    hide TagsOfBucket, RowHasTags;
  }
}
