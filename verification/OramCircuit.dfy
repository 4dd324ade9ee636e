// The recursive ORAM as the rendered circuit runs it: flattened trees, a path
// scanned from the leaf up, and a stash with one public slot per access.
module OramCircuit {
  import opened Gates
  import opened Bits
  import opened OramTree
  import opened OramStack
  import opened OramAccess
  import opened ObliviousRead

  // --- Physical memory, record by record ------------------------------------------------

  /** Record `p` of the flat memory is slot `p` of the tree. */
  ghost predicate RecordAt(flat: seq<int>, tree: Tree, p: nat) {
    && tree.Shaped() && p < tree.Slots()
    && Times(p, |tree.fields|) + |tree.fields| <= |flat|
    && flat[Times(p, |tree.fields|)..Times(p, |tree.fields|) + |tree.fields|] == tree.Row(p)
  }

  ghost predicate Flattened(flat: seq<int>, tree: Tree) {
    tree.Shaped() && forall p :: 0 <= p < tree.Slots() ==> RecordAt(flat, tree, p)
  }

  /** `iter_flatten_stack_physical` for one tree. */
  method Flatten(tree: Tree) returns (flat: seq<int>)
    requires tree.Shaped()
    ensures Flattened(flat, tree)
  {
    flat := [];
    var width := |tree.fields|;
    TimesFacts(0, width);
    for physical := 0 to tree.Slots()
      invariant |flat| == Times(physical, width)
      invariant forall p :: 0 <= p < physical ==> RecordAt(flat, tree, p)
    {
      ghost var was := flat;
      TimesFacts(physical, width);
      flat := flat + tree.Row(physical);
      forall p | 0 <= p < physical
        ensures RecordAt(flat, tree, p)
      {
        RecordKept(was, flat, tree, p);
      }
      assert flat[Times(physical, width)..Times(physical, width) + width] == tree.Row(physical);
    }
  }

  lemma {:induction false} RecordKept(flat: seq<int>, flat': seq<int>, tree: Tree, p: nat)
    requires RecordAt(flat, tree, p) && flat <= flat'
    ensures RecordAt(flat', tree, p)
  {
    var from, to := Times(p, |tree.fields|), Times(p, |tree.fields|) + |tree.fields|;
    assert flat'[from..to] == flat[from..to];
  }

  // --- One path ------------------------------------------------------------------------

  /** What the accumulators hold after scanning a set of slots that may include the wanted record's home. */
  ghost predicate Gathered(tree: Tree, records: seq<seq<int>>, wanted: nat, scanned: seq<nat>, found: int, fetched: seq<int>) {
    && Holds(tree, records) && wanted < tree.size
    && found == (if Home(tree.positionMap, tree.depth, tree.bucketSize, wanted) in scanned then 1 else 0)
    && fetched == if found == 1 then records[wanted] else ZeroRow(|tree.fields| - 3)
  }

  /** The gates on one scanned record. */
  lemma {:induction false} MatchGates(tree: Tree, records: seq<seq<int>>, wanted: nat, scanned: seq<nat>, found: int, fetched: seq<int>,
                                      p: nat, row: seq<int>)
    requires Gathered(tree, records, wanted, scanned, found, fetched) && p < tree.Slots() && row == tree.Row(p)
    ensures |row| >= 4 && |fetched| == |row| - 3 && IsBit(found)
    ensures var take := Not(row[0]) * Equal(row[1], wanted) * Not(found);
      IsBit(take) && Gathered(tree, records, wanted, scanned + [p], found + take, AddScaled(fetched, take, row[3..]))
  {
    OnlyHomeMatches(tree, records, p, wanted);
    assert SlotOk(tree, records, p);
    assert row[0] == tree.fields[0][p] && row[1] == tree.fields[1][p];
    var take := Not(row[0]) * Equal(row[1], wanted) * Not(found);
    var home := Home(tree.positionMap, tree.depth, tree.bucketSize, wanted);
    hide Home, Holds, Placeable;
    assert take == if p == home && found == 0 then 1 else 0;
    AddScaledBit(fetched, take, row[3..]);
    assert home in scanned + [p] <==> home in scanned || p == home;
  }

  lemma {:induction false} GatheredSame(tree: Tree, records: seq<seq<int>>, wanted: nat, a: seq<nat>, b: seq<nat>, found: int, fetched: seq<int>)
    requires Gathered(tree, records, wanted, a, found, fetched) && a == b
    ensures Gathered(tree, records, wanted, b, found, fetched)
  {
  }

  lemma {:induction false} ReadRecord(flat: seq<int>, tree: Tree, p: nat)
    requires Flattened(flat, tree) && p < tree.Slots()
    ensures RecordAt(flat, tree, p)
    ensures Times(p, |tree.fields|) + |tree.fields| <= |flat|
    ensures flat[Times(p, |tree.fields|)..Times(p, |tree.fields|) + |tree.fields|] == tree.Row(p)
    ensures |tree.fields| >= 4
  {
  }

  /** `match`, `take`, and the two accumulators of the scan. */
  function Accumulate(row: seq<int>, wanted: int, found: int, fetched: seq<int>): (int, seq<int>)
    requires |row| >= 3 && |fetched| == |row| - 3
  {
    var take := Not(row[0]) * Equal(row[1], wanted) * Not(found);
    (found + take, AddScaled(fetched, take, row[3..]))
  }

  /** What one record of a bucket contributes. */
  lemma {:induction false} GatherStep(flat: seq<int>, tree: Tree, records: seq<seq<int>>, wanted: nat, bucket: nat, offset: nat,
                                      before: seq<nat>, found: int, fetched: seq<int>)
    requires Flattened(flat, tree) && bucket < Pow2(tree.depth + 1) && offset < tree.bucketSize
    requires Gathered(tree, records, wanted, before + BucketSlots(bucket, tree.bucketSize)[..offset], found, fetched)
    ensures var width, base := |tree.fields| - 3, Times(Times(bucket, tree.bucketSize) + offset, |tree.fields|);
      && width >= 1 && base + width + 3 <= |flat| && |fetched| == width
      && var (found', fetched') := Accumulate(flat[base..base + width + 3], wanted, found, fetched);
         Gathered(tree, records, wanted, before + BucketSlots(bucket, tree.bucketSize)[..offset + 1], found', fetched')
  {
    var slots, p := BucketSlots(bucket, tree.bucketSize), Times(bucket, tree.bucketSize) + offset;
    BucketInTree(tree, bucket);
    assert slots[offset] == p;
    assert (before + slots[..offset]) + [p] == before + slots[..offset + 1];
    hide Times, InTree, Gathered, Flattened, Pow2;
    ReadRecord(flat, tree, p);
    MatchGates(tree, records, wanted, before + slots[..offset], found, fetched, p, tree.Row(p));
  }

  method GatherRecord(flat: seq<int>, ghost tree: Tree, ghost records: seq<seq<int>>, wanted: nat, bucket: nat, bucketSize: nat, width: nat,
                      offset: nat, found0: int, fetched0: seq<int>, ghost scanned: seq<nat>)
    returns (found: int, fetched: seq<int>)
    requires Flattened(flat, tree) && bucketSize == tree.bucketSize && width == |tree.fields| - 3
    requires bucket < Pow2(tree.depth + 1) && offset < bucketSize
    requires Gathered(tree, records, wanted, scanned + BucketSlots(bucket, bucketSize)[..offset], found0, fetched0)
    ensures Gathered(tree, records, wanted, scanned + BucketSlots(bucket, bucketSize)[..offset + 1], found, fetched)
  {
    GatherStep(flat, tree, records, wanted, bucket, offset, scanned, found0, fetched0);
    hide *;
    var base := Times(Times(bucket, bucketSize) + offset, width + 3);
    var next := Accumulate(flat[base..base + width + 3], wanted, found0, fetched0);
    found, fetched := next.0, next.1;
  }

  /** Scan one bucket. */
  method GatherBucket(flat: seq<int>, ghost tree: Tree, ghost records: seq<seq<int>>, wanted: nat, bucket: nat, bucketSize: nat, width: nat,
                      found0: int, fetched0: seq<int>, ghost scanned: seq<nat>)
    returns (found: int, fetched: seq<int>)
    requires Flattened(flat, tree) && bucketSize == tree.bucketSize && width == |tree.fields| - 3 && bucket < Pow2(tree.depth + 1)
    requires Gathered(tree, records, wanted, scanned, found0, fetched0)
    ensures Gathered(tree, records, wanted, scanned + BucketSlots(bucket, bucketSize), found, fetched)
  {
    found, fetched := found0, fetched0;
    GatheredSame(tree, records, wanted, scanned, scanned + BucketSlots(bucket, bucketSize)[..0], found, fetched);
    hide *;
    for offset := 0 to bucketSize
      invariant Gathered(tree, records, wanted, scanned + BucketSlots(bucket, bucketSize)[..offset], found, fetched)
    {
      found, fetched := GatherRecord(flat, tree, records, wanted, bucket, bucketSize, width, offset, found, fetched, scanned);
    }
    assert BucketSlots(bucket, bucketSize)[..bucketSize] == BucketSlots(bucket, bucketSize);
  }

  lemma {:induction false} ScannedHome(tree: Tree, records: seq<seq<int>>, wanted: nat, visited: seq<nat>)
    requires Holds(tree, records) && wanted < tree.size
    requires visited != [] && visited[0] == tree.positionMap[wanted] + Pow2(tree.depth)
    ensures Home(tree.positionMap, tree.depth, tree.bucketSize, wanted) in SlotsOf(visited, tree.bucketSize)
  {
    HomeInRange(tree.positionMap, tree.depth, tree.bucketSize, wanted);
    assert Home(tree.positionMap, tree.depth, tree.bucketSize, wanted)
        == Times(visited[0], tree.bucketSize) + Offset(tree.positionMap, wanted);
    hide *;
    SlotsOfContains(visited, tree.bucketSize, 0, Offset(tree.positionMap, wanted));
  }

  /** The buckets still to visit, and those visited so far, make up the path. */
  ghost predicate Climbing(start: nat, depth: nat, bucket: nat, visited: seq<nat>) {
    && bucket < Pow2(depth + 1) && |visited| <= depth + 1
    && |PathTo(bucket)| == depth + 1 - |visited|
    && PathTo(bucket) + Reversed(visited) == PathTo(start)
    && (visited == [] ==> bucket == start)
    && (visited != [] ==> visited[0] == start)
  }

  lemma {:induction false} ClimbStart(start: nat, depth: nat)
    requires Pow2(depth) <= start < Pow2(depth + 1)
    ensures Climbing(start, depth, start, [])
  {
    PathShape(start, depth);
    assert PathTo(start) + Reversed([]) == PathTo(start);
  }

  lemma {:induction false} ClimbStep(start: nat, depth: nat, bucket: nat, visited: seq<nat>)
    requires Climbing(start, depth, bucket, visited) && |visited| <= depth
    ensures Climbing(start, depth, bucket / 2, visited + [bucket])
  {
    ReversedSnoc(visited, bucket);
    assert PathTo(bucket) == PathTo(bucket / 2) + [bucket];
  }

  lemma {:induction false} ClimbEnd(start: nat, depth: nat, bucket: nat, visited: seq<nat>)
    requires Climbing(start, depth, bucket, visited) && |visited| == depth + 1
    ensures visited == Reversed(PathTo(start))
  {
    assert PathTo(bucket) == [];
    assert Reversed(visited) == PathTo(start);
  }

  lemma {:induction false} Ungathered(tree: Tree, records: seq<seq<int>>, wanted: nat)
    requires Holds(tree, records) && wanted < tree.size
    ensures |tree.fields| >= 4 && Gathered(tree, records, wanted, SlotsOf([], tree.bucketSize), 0, ZeroRow(|tree.fields| - 3))
  {
  }

  /**
   * The revealed path, scanned from its leaf to the root: exactly the path's buckets are
   * touched, and the wanted record is gathered whenever the path is its own.
   */
  method ReadPath(flat: seq<int>, ghost tree: Tree, ghost records: seq<seq<int>>, wanted: nat, shown: nat,
                  depth: nat, bucketSize: nat, width: nat)
    returns (found: int, fetched: seq<int>, ghost visited: seq<nat>)
    requires Flattened(flat, tree) && Holds(tree, records) && wanted < tree.size && shown < Pow2(depth)
    requires depth == tree.depth && bucketSize == tree.bucketSize && width == |tree.fields| - 3
    ensures visited == Reversed(PathTo(shown + Pow2(depth)))
    ensures IsBit(found) && |records| == tree.size && fetched == if found == 1 then records[wanted] else ZeroRow(width)
    ensures |tree.positionMap| == tree.size && (shown == tree.positionMap[wanted] ==> found == 1)
  {
    var bucket: nat := shown + Pow2(depth);
    found, fetched, visited := 0, ZeroRow(width), [];
    ScanStarts(tree, records, wanted, bucket);
    hide *;
    for pathOffset := 0 to depth + 1
      invariant Scanning(tree, records, wanted, shown + Pow2(depth), bucket, visited, found, fetched) && |visited| == pathOffset
    {
      ScanFacts(tree, records, wanted, shown + Pow2(depth), bucket, visited, found, fetched);
      var found', fetched' := GatherBucket(flat, tree, records, wanted, bucket, bucketSize, width, found, fetched, SlotsOf(visited, bucketSize));
      ScanNext(tree, records, wanted, shown + Pow2(depth), bucket, visited, found, fetched, found', fetched');
      found, fetched := found', fetched';
      visited := visited + [bucket];
      bucket := bucket / 2;
    }
    ScanEnds(tree, records, wanted, shown, bucket, visited, found, fetched);
  }

  /** The state of a path scan. */
  ghost predicate Scanning(tree: Tree, records: seq<seq<int>>, wanted: nat, start: nat, bucket: nat, visited: seq<nat>, found: int, fetched: seq<int>) {
    Climbing(start, tree.depth, bucket, visited) && Gathered(tree, records, wanted, SlotsOf(visited, tree.bucketSize), found, fetched)
  }

  lemma {:induction false} ScanStarts(tree: Tree, records: seq<seq<int>>, wanted: nat, start: nat)
    requires Holds(tree, records) && wanted < tree.size && Pow2(tree.depth) <= start < Pow2(tree.depth + 1)
    ensures |tree.fields| >= 4 && Scanning(tree, records, wanted, start, start, [], 0, ZeroRow(|tree.fields| - 3))
  {
    Ungathered(tree, records, wanted);
    ClimbStart(start, tree.depth);
  }

  lemma {:induction false} ScanFacts(tree: Tree, records: seq<seq<int>>, wanted: nat, start: nat, bucket: nat, visited: seq<nat>,
                                     found: int, fetched: seq<int>)
    requires Scanning(tree, records, wanted, start, bucket, visited, found, fetched)
    ensures bucket < Pow2(tree.depth + 1) && Gathered(tree, records, wanted, SlotsOf(visited, tree.bucketSize), found, fetched)
  {
  }

  lemma {:induction false} ScanNext(tree: Tree, records: seq<seq<int>>, wanted: nat, start: nat, bucket: nat, visited: seq<nat>,
                                    found: int, fetched: seq<int>, found': int, fetched': seq<int>)
    requires Scanning(tree, records, wanted, start, bucket, visited, found, fetched) && |visited| <= tree.depth
    requires Gathered(tree, records, wanted, SlotsOf(visited, tree.bucketSize) + BucketSlots(bucket, tree.bucketSize), found', fetched')
    ensures Scanning(tree, records, wanted, start, bucket / 2, visited + [bucket], found', fetched')
  {
    SlotsOfSnoc(visited, bucket, tree.bucketSize);
    ClimbStep(start, tree.depth, bucket, visited);
    hide Gathered, Climbing;
  }

  lemma {:induction false} ScanEnds(tree: Tree, records: seq<seq<int>>, wanted: nat, shown: nat, bucket: nat, visited: seq<nat>,
                                    found: int, fetched: seq<int>)
    requires Scanning(tree, records, wanted, shown + Pow2(tree.depth), bucket, visited, found, fetched) && |visited| == tree.depth + 1
    ensures visited == Reversed(PathTo(shown + Pow2(tree.depth)))
    ensures |tree.fields| >= 4 && IsBit(found) && |records| == tree.size == |tree.positionMap| && wanted < tree.size
    ensures fetched == if found == 1 then records[wanted] else ZeroRow(|tree.fields| - 3)
    ensures shown == tree.positionMap[wanted] ==> found == 1
  {
    ClimbEnd(shown + Pow2(tree.depth), tree.depth, bucket, visited);
    ClimbFacts(shown + Pow2(tree.depth), tree.depth, bucket, visited);
    GatheredFacts(tree, records, wanted, visited, found, fetched, shown + Pow2(tree.depth));
    hide Holds;
  }

  lemma {:induction false} ClimbFacts(start: nat, depth: nat, bucket: nat, visited: seq<nat>)
    requires Climbing(start, depth, bucket, visited)
    ensures bucket < Pow2(depth + 1) && (visited != [] ==> visited[0] == start)
  {
  }

  lemma {:induction false} SlotsOfSnoc(buckets: seq<nat>, bucket: nat, bucketSize: nat)
    ensures SlotsOf(buckets + [bucket], bucketSize) == SlotsOf(buckets, bucketSize) + BucketSlots(bucket, bucketSize)
  {
    assert (buckets + [bucket])[..|buckets|] == buckets;
  }

  lemma {:induction false} GatheredFacts(tree: Tree, records: seq<seq<int>>, wanted: nat, visited: seq<nat>, found: int, fetched: seq<int>, start: nat)
    requires Gathered(tree, records, wanted, SlotsOf(visited, tree.bucketSize), found, fetched)
    requires visited != [] && visited[0] == start
    ensures IsBit(found) && |records| == tree.size == |tree.positionMap| && |tree.fields| >= 4
    ensures fetched == if found == 1 then records[wanted] else ZeroRow(|tree.fields| - 3)
    ensures start == tree.positionMap[wanted] + Pow2(tree.depth) ==> found == 1
  {
    if start == tree.positionMap[wanted] + Pow2(tree.depth) {
      ScannedHome(tree, records, wanted, visited);
    }
  }

  // --- The stash with one slot per access ---------------------------------------------------

  datatype StashSlot = StashSlot(valid: int, index: int, value: seq<int>)

  /** Slot `u` was written by access `u`: empty for a repeat, the fetched record otherwise. */
  ghost predicate SlotOf(slot: StashSlot, chi: nat, history: seq<nat>, level: nat, records: seq<seq<int>>, width: nat, u: nat) {
    && chi > 0 && u < |history| && LevelIndex(chi, history[u], level) < |records|
    && slot == if Repeats(chi, history, u, level) then StashSlot(0, 0, ZeroRow(width))
               else StashSlot(1, LevelIndex(chi, history[u], level), records[LevelIndex(chi, history[u], level)])
  }

  ghost predicate SlotsHold(slots: seq<StashSlot>, chi: nat, history: seq<nat>, level: nat, records: seq<seq<int>>, width: nat) {
    && chi > 0 && |history| <= |slots| && (forall k :: 0 <= k < |records| ==> |records[k]| == width)
    && forall u :: 0 <= u < |history| ==> SlotOf(slots[u], chi, history, level, records, width, u)
  }

  /** Two valid slots never carry the same record. */
  lemma {:induction false} SlotsDistinct(slots: seq<StashSlot>, chi: nat, history: seq<nat>, level: nat, records: seq<seq<int>>, width: nat, u: nat, v: nat)
    requires SlotsHold(slots, chi, history, level, records, width) && u < v < |history|
    requires slots[u].valid == 1 && slots[v].valid == 1
    ensures slots[u].index != slots[v].index
  {
    assert SlotOf(slots[u], chi, history, level, records, width, u) && SlotOf(slots[v], chi, history, level, records, width, v);
    OpenedOnce(chi, history, u, v, level);
  }

  /** The slots, holes included, are the dictionary stash of the same accesses. */
  lemma {:induction false} SlotsAreDictionary(slots: seq<StashSlot>, chi: nat, history: seq<nat>, level: nat, records: seq<seq<int>>, width: nat,
                                              stash: map<nat, seq<int>>)
    requires SlotsHold(slots, chi, history, level, records, width) && StashHolds(chi, history, level, records, stash)
    ensures forall u :: 0 <= u < |history| && slots[u].valid == 1 ==>
      slots[u].index in stash && slots[u].value == stash[slots[u].index]
    ensures forall k :: k in stash ==> exists u :: 0 <= u < |history| && slots[u] == StashSlot(1, k, stash[k])
  {
    forall u: nat | u < |history| && slots[u].valid == 1
      ensures slots[u].index in stash && slots[u].value == stash[slots[u].index]
    {
      assert SlotOf(slots[u], chi, history, level, records, width, u);
      TouchedMembers(chi, history, level, LevelIndex(chi, history[u], level));
    }
    forall k | k in stash
      ensures exists u :: 0 <= u < |history| && slots[u] == StashSlot(1, k, stash[k])
    {
      var u := FirstAccess(chi, history, level, k);
      assert SlotOf(slots[u], chi, history, level, records, width, u);
    }
  }

  /** The access that fetched a record. */
  lemma {:induction false} FirstAccess(chi: nat, history: seq<nat>, level: nat, k: nat) returns (u: nat)
    requires chi > 0 && k in Touched(chi, history, level)
    ensures u < |history| && LevelIndex(chi, history[u], level) == k && !Repeats(chi, history, u, level)
  {
    var n := |history| - 1;
    if k in Touched(chi, history[..n], level) {
      u := FirstAccess(chi, history[..n], level, k);
      assert history[..n][..u] == history[..u];
    } else {
      u := n;
    }
  }
}
