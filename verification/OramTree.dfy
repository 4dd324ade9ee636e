// One owner's tree-ORAM state: placement by random leaves, the read along a
// path, and why the read finds what was stored.
module OramTree {
  import opened Wrappers
  import opened Bits

  /** Heap-indexed buckets, `bucketSize` slots each; `fields[j][slot]` is field `j` of a slot. */
  datatype Tree = Tree(size: nat, bucketSize: nat, depth: nat, fields: seq<seq<int>>, positionMap: seq<nat>) {
    function Slots(): nat {
      Times(Pow2(depth + 1), bucketSize)
    }

    /** Three header fields, then the payload; every column covers every slot. */
    ghost predicate Shaped() {
      && |fields| >= 4
      && (forall j :: 0 <= j < |fields| ==> |fields[j]| == Slots())
      && |positionMap| == size
      && forall i :: 0 <= i < size ==> positionMap[i] < Pow2(depth)
    }

    /** A slot's fields: emptiness, logical index, leaf, payload. */
    function Row(slot: nat): (r: seq<int>)
      requires forall j :: 0 <= j < |fields| ==> slot < |fields[j]|
      ensures |r| == |fields| && forall j :: 0 <= j < |r| ==> r[j] == fields[j][slot]
    {
      seq(|fields|, j requires 0 <= j < |fields| => fields[j][slot])
    }
  }

  function Entry(logical: nat, leaf: nat, payload: seq<int>): (r: seq<int>)
    ensures |r| == |payload| + 3 && r[0] == 0 && r[1] == logical && r[2] == leaf && r[3..] == payload
  {
    [0, logical, leaf] + payload
  }

  // --- Placement ------------------------------------------------------------------

  /** The logical indices drawn for a leaf, in order. */
  function IndicesAt(assignment: seq<nat>, leaf: nat): seq<nat> {
    if assignment == [] then []
    else
      var n := |assignment| - 1;
      IndicesAt(assignment[..n], leaf) + if assignment[n] == leaf then [n] else []
  }

  /** How many earlier indices share the leaf: the offset inside the bucket. */
  function Offset(assignment: seq<nat>, i: nat): nat
    requires i < |assignment|
  {
    |IndicesAt(assignment[..i], assignment[i])|
  }

  /** The physical slot of a logical index. */
  function Home(assignment: seq<nat>, depth: nat, bucketSize: nat, i: nat): nat
    requires i < |assignment|
  {
    Times(assignment[i] + Pow2(depth), bucketSize) + Offset(assignment, i)
  }

  /** No leaf bucket overflows. */
  ghost predicate Placeable(assignment: seq<nat>, depth: nat, bucketSize: nat) {
    && (forall i :: 0 <= i < |assignment| ==> assignment[i] < Pow2(depth))
    && forall leaf :: |IndicesAt(assignment, leaf)| <= bucketSize
  }

  lemma {:induction false} IndicesAtMembers(assignment: seq<nat>, leaf: nat, p: nat)
    requires p < |IndicesAt(assignment, leaf)|
    ensures var i := IndicesAt(assignment, leaf)[p]; i < |assignment| && assignment[i] == leaf && Offset(assignment, i) == p
  {
    var n := |assignment| - 1;
    var before := IndicesAt(assignment[..n], leaf);
    if p < |before| {
      IndicesAtMembers(assignment[..n], leaf, p);
      assert assignment[..n][..before[p]] == assignment[..before[p]];
    }
  }

  lemma {:induction false} OffsetBound(assignment: seq<nat>, n: nat, i: nat)
    requires i < n <= |assignment|
    ensures var l := IndicesAt(assignment[..n], assignment[i]); Offset(assignment, i) < |l| && l[Offset(assignment, i)] == i
  {
    assert assignment[..n][..n - 1] == assignment[..n - 1];
    if i < n - 1 {
      OffsetBound(assignment, n - 1, i);
    }
  }

  /** A leaf bucket's slots lie inside the tree. */
  lemma {:induction false} HomeInRange(assignment: seq<nat>, depth: nat, bucketSize: nat, i: nat)
    requires Placeable(assignment, depth, bucketSize) && i < |assignment|
    ensures Home(assignment, depth, bucketSize, i) < Times(Pow2(depth + 1), bucketSize)
    ensures Offset(assignment, i) < bucketSize
  {
    OffsetBound(assignment, |assignment|, i);
    assert assignment[..|assignment|] == assignment;
    var bucket := assignment[i] + Pow2(depth);
    assert bucket + 1 <= Pow2(depth + 1);
    TimesMonotone(bucket + 1, Pow2(depth + 1), bucketSize);
    TimesFacts(bucket, bucketSize);
  }

  /** No two entries share a slot. */
  lemma {:induction false} HomesDistinct(assignment: seq<nat>, depth: nat, bucketSize: nat, i: nat, k: nat)
    requires Placeable(assignment, depth, bucketSize) && i < |assignment| && k < |assignment|
    requires Home(assignment, depth, bucketSize, i) == Home(assignment, depth, bucketSize, k)
    ensures i == k
  {
    HomeInRange(assignment, depth, bucketSize, i);
    HomeInRange(assignment, depth, bucketSize, k);
    DivModUnique(Home(assignment, depth, bucketSize, i), bucketSize, assignment[i] + Pow2(depth), Offset(assignment, i));
    DivModUnique(Home(assignment, depth, bucketSize, i), bucketSize, assignment[k] + Pow2(depth), Offset(assignment, k));
    OffsetBound(assignment, |assignment|, i);
    OffsetBound(assignment, |assignment|, k);
    assert assignment[..|assignment|] == assignment;
  }

  // --- A finished tree ---------------------------------------------------------------

  /** Every slot is empty or holds the entry whose home it is. */
  ghost predicate SlotOk(tree: Tree, values: seq<seq<int>>, slot: nat)
    requires tree.Shaped() && |values| == tree.size && slot < tree.Slots()
  {
    var row := tree.Row(slot);
    row[0] != 1 ==>
      && row[0] == 0 && 0 <= row[1] < tree.size
      && Home(tree.positionMap, tree.depth, tree.bucketSize, row[1]) == slot
      && row == Entry(row[1], tree.positionMap[row[1]], values[row[1]])
  }

  /** The tree stores exactly `values`, each at its home. */
  ghost predicate Holds(tree: Tree, values: seq<seq<int>>) {
    && tree.Shaped() && |values| == tree.size
    && (forall i :: 0 <= i < |values| ==> |values[i]| == |tree.fields| - 3)
    && Placeable(tree.positionMap, tree.depth, tree.bucketSize)
    && (forall slot :: 0 <= slot < tree.Slots() ==> SlotOk(tree, values, slot))
    && forall i :: 0 <= i < tree.size ==> AtHome(tree, values, i)
  }

  ghost predicate AtHome(tree: Tree, values: seq<seq<int>>, i: nat) {
    && tree.Shaped() && i < tree.size == |values|
    && var home := Home(tree.positionMap, tree.depth, tree.bucketSize, i);
       home < tree.Slots() && tree.Row(home) == Entry(i, tree.positionMap[i], values[i])
  }

  /** A slot matches a logical index. */
  predicate Matches(tree: Tree, slot: nat, wanted: nat)
    requires |tree.fields| >= 4 && slot < |tree.fields[0]| && slot < |tree.fields[1]|
  {
    tree.fields[0][slot] == 0 && tree.fields[1][slot] == wanted
  }

  /** Only the home slot of an index matches it. */
  lemma {:induction false} OnlyHomeMatches(tree: Tree, values: seq<seq<int>>, slot: nat, wanted: nat)
    requires Holds(tree, values) && slot < tree.Slots() && wanted < tree.size
    ensures Matches(tree, slot, wanted) <==> slot == Home(tree.positionMap, tree.depth, tree.bucketSize, wanted)
    ensures Matches(tree, slot, wanted) ==> tree.Row(slot)[3..] == values[wanted]
  {
    assert SlotOk(tree, values, slot) && AtHome(tree, values, wanted);
    assert tree.Row(slot)[0] == tree.fields[0][slot] && tree.Row(slot)[1] == tree.fields[1][slot];
    hide Placeable, Home, IndicesAt;
  }

  // --- Paths ----------------------------------------------------------------------------

  /** Heap indices from the root down to `bucket`. */
  function PathTo(bucket: nat): seq<nat> {
    if bucket == 0 then [] else PathTo(bucket / 2) + [bucket]
  }

  /** A path of `depth + 1` buckets from the root, each the parent of the next. */
  lemma {:induction false} PathShape(bucket: nat, depth: nat)
    requires Pow2(depth) <= bucket < Pow2(depth + 1)
    ensures var path := PathTo(bucket);
      && |path| == depth + 1 && path[0] == 1 && path[depth] == bucket
      && (forall i :: 0 <= i < depth ==> path[i] == path[i + 1] / 2)
      && forall i :: 0 <= i <= depth ==> 1 <= path[i] <= bucket
  {
    if depth > 0 {
      assert Pow2(depth) == 2 * Pow2(depth - 1) && Pow2(depth + 1) == 2 * Pow2(depth);
      PathShape(bucket / 2, depth - 1);
    } else {
      assert bucket == 1;
      assert PathTo(0) == [];
    }
  }

  lemma {:induction false} PathEnd(bucket: nat, depth: nat)
    requires Pow2(depth) <= bucket < Pow2(depth + 1)
    ensures |PathTo(bucket)| == depth + 1 && PathTo(bucket)[depth] == bucket
  {
    PathShape(bucket, depth);
  }

  /** `path_buckets`: collect from the leaf up, then reverse. */
  method PathBuckets(leaf: int, depth: nat) returns (r: Result<seq<nat>>)
    ensures r == if 0 <= leaf < Pow2(depth) then Ok(PathTo(leaf + Pow2(depth))) else Err(OutOfRange)
  {
    if !(0 <= leaf < Pow2(depth)) {
      return Err(OutOfRange);
    }
    var bucket: nat := leaf + Pow2(depth);
    var path: seq<nat> := [];
    while bucket >= 1
      invariant PathTo(bucket) + Reversed(path) == PathTo(leaf + Pow2(depth))
    {
      ReversedSnoc(path, bucket);
      path := path + [bucket];
      bucket := bucket / 2;
    }
    assert PathTo(bucket) + Reversed(path) == Reversed(path);
    r := Ok(Reversed(path));
  }

  function Reversed<T>(s: seq<T>): (r: seq<T>)
    ensures |r| == |s| && forall i :: 0 <= i < |r| ==> r[i] == s[|s| - 1 - i]
  {
    seq(|s|, i requires 0 <= i < |s| => s[|s| - 1 - i])
  }

  lemma {:induction false} ReversedSnoc<T>(s: seq<T>, x: T)
    ensures Reversed(s + [x]) == [x] + Reversed(s)
  {
  }

  // --- The read ---------------------------------------------------------------------------

  /** The payload of the first matching slot. */
  function FirstMatch(tree: Tree, slots: seq<nat>, wanted: nat): Option<seq<int>>
    requires tree.Shaped() && forall i :: 0 <= i < |slots| ==> slots[i] < tree.Slots()
  {
    if slots == [] then None
    else
      var n := |slots| - 1;
      var before := FirstMatch(tree, slots[..n], wanted);
      if before.Some? then before
      else if Matches(tree, slots[n], wanted) then Some(tree.Row(slots[n])[3..])
      else None
  }

  /** The slots of a bucket. */
  function BucketSlots(bucket: nat, bucketSize: nat): (r: seq<nat>)
    ensures |r| == bucketSize && forall k :: 0 <= k < |r| ==> r[k] == Times(bucket, bucketSize) + k
  {
    seq(bucketSize, (k: nat) => Times(bucket, bucketSize) + k)
  }

  /** All slots of some buckets, in order. */
  function SlotsOf(buckets: seq<nat>, bucketSize: nat): seq<nat> {
    if buckets == [] then []
    else SlotsOf(buckets[..|buckets| - 1], bucketSize) + BucketSlots(buckets[|buckets| - 1], bucketSize)
  }

  lemma {:induction false} SlotsInTree(buckets: seq<nat>, depth: nat, bucketSize: nat)
    requires forall i :: 0 <= i < |buckets| ==> buckets[i] < Pow2(depth + 1)
    ensures forall i :: 0 <= i < |SlotsOf(buckets, bucketSize)| ==> SlotsOf(buckets, bucketSize)[i] < Times(Pow2(depth + 1), bucketSize)
  {
    if buckets != [] {
      var n := |buckets| - 1;
      SlotsInTree(buckets[..n], depth, bucketSize);
      TimesMonotone(buckets[n] + 1, Pow2(depth + 1), bucketSize);
      TimesFacts(buckets[n], bucketSize);
      hide Times, Pow2;
    }
  }

  lemma {:induction false} SlotsOfContains(buckets: seq<nat>, bucketSize: nat, b: nat, k: nat)
    requires b < |buckets| && k < bucketSize
    ensures Times(buckets[b], bucketSize) + k in SlotsOf(buckets, bucketSize)
  {
    var n := |buckets| - 1;
    if b < n {
      SlotsOfContains(buckets[..n], bucketSize, b, k);
    } else {
      assert BucketSlots(buckets[n], bucketSize)[k] == Times(buckets[n], bucketSize) + k;
    }
  }

  /** When every matching slot holds the same payload, the order of the scan is irrelevant. */
  lemma {:induction false} FirstMatchUnique(tree: Tree, slots: seq<nat>, wanted: nat, payload: seq<int>)
    requires tree.Shaped() && forall i :: 0 <= i < |slots| ==> slots[i] < tree.Slots()
    requires forall i :: 0 <= i < |slots| && Matches(tree, slots[i], wanted) ==> tree.Row(slots[i])[3..] == payload
    ensures FirstMatch(tree, slots, wanted)
         == if exists i :: 0 <= i < |slots| && Matches(tree, slots[i], wanted) then Some(payload) else None
  {
    if slots != [] {
      var n := |slots| - 1;
      FirstMatchUnique(tree, slots[..n], wanted, payload);
      if i :| 0 <= i < |slots| && Matches(tree, slots[i], wanted) {
        if i < n {
          assert Matches(tree, slots[..n][i], wanted);
        }
      }
      if exists i :: 0 <= i < n && Matches(tree, slots[..n][i], wanted) {
        var i :| 0 <= i < n && Matches(tree, slots[..n][i], wanted);
        assert Matches(tree, slots[i], wanted);
      }
    }
  }

  /** The slots on the root-to-leaf path of an index. */
  function PathSlots(tree: Tree, leaf: nat): seq<nat> {
    SlotsOf(PathTo(leaf + Pow2(tree.depth)), tree.bucketSize)
  }

  lemma {:induction false} PathSlotsInTree(tree: Tree, leaf: nat)
    requires leaf < Pow2(tree.depth)
    ensures forall i :: 0 <= i < |PathSlots(tree, leaf)| ==> PathSlots(tree, leaf)[i] < tree.Slots()
  {
    PathShape(leaf + Pow2(tree.depth), tree.depth);
    SlotsInTree(PathTo(leaf + Pow2(tree.depth)), tree.depth, tree.bucketSize);
  }

  /** The home of an index lies on its path. */
  lemma {:induction false} HomeOnPath(tree: Tree, values: seq<seq<int>>, i: nat)
    requires Holds(tree, values) && i < tree.size
    ensures Home(tree.positionMap, tree.depth, tree.bucketSize, i) in PathSlots(tree, tree.positionMap[i])
  {
    var bucket := tree.positionMap[i] + Pow2(tree.depth);
    assert bucket < Pow2(tree.depth + 1);
    assert Home(tree.positionMap, tree.depth, tree.bucketSize, i) == Times(bucket, tree.bucketSize) + Offset(tree.positionMap, i);
    assert PathSlots(tree, tree.positionMap[i]) == SlotsOf(PathTo(bucket), tree.bucketSize);
    HomeInRange(tree.positionMap, tree.depth, tree.bucketSize, i);
    PathEnd(bucket, tree.depth);
    hide *;
    SlotsOfContains(PathTo(bucket), tree.bucketSize, tree.depth, Offset(tree.positionMap, i));
  }

  /** Any scan of an index's own path, in any order, finds its stored value. */
  lemma {:induction false} PathFindsValue(tree: Tree, values: seq<seq<int>>, i: nat, slots: seq<nat>)
    requires Holds(tree, values) && i < tree.size
    requires forall k :: 0 <= k < |slots| ==> slots[k] < tree.Slots()
    ensures Home(tree.positionMap, tree.depth, tree.bucketSize, i) in slots ==> FirstMatch(tree, slots, i) == Some(values[i])
    ensures Home(tree.positionMap, tree.depth, tree.bucketSize, i) !in slots ==> FirstMatch(tree, slots, i) == None
  {
    var home := Home(tree.positionMap, tree.depth, tree.bucketSize, i);
    forall k | 0 <= k < |slots|
      ensures Matches(tree, slots[k], i) <==> slots[k] == home
      ensures Matches(tree, slots[k], i) ==> tree.Row(slots[k])[3..] == values[i]
    {
      OnlyHomeMatches(tree, values, slots[k], i);
    }
    hide Holds, Home, Matches;
    FirstMatchUnique(tree, slots, i, values[i]);
    if home in slots {
      var k :| 0 <= k < |slots| && slots[k] == home;
      assert Matches(tree, slots[k], i);
    }
  }

  lemma {:induction false} FirstMatchStep(tree: Tree, slots: seq<nat>, slot: nat, wanted: nat)
    requires tree.Shaped() && slot < tree.Slots() && forall i :: 0 <= i < |slots| ==> slots[i] < tree.Slots()
    ensures FirstMatch(tree, slots + [slot], wanted)
         == if FirstMatch(tree, slots, wanted).Some? then FirstMatch(tree, slots, wanted)
            else if Matches(tree, slot, wanted) then Some(tree.Row(slot)[3..]) else None
  {
    assert (slots + [slot])[..|slots|] == slots;
  }

  /** A match stops the scan: later slots do not matter. */
  lemma {:induction false} FirstMatchPrefix(tree: Tree, a: seq<nat>, b: seq<nat>, wanted: nat)
    requires tree.Shaped() && forall i :: 0 <= i < |a + b| ==> (a + b)[i] < tree.Slots()
    requires forall i :: 0 <= i < |a| ==> a[i] < tree.Slots()
    requires FirstMatch(tree, a, wanted).Some?
    ensures FirstMatch(tree, a + b, wanted) == FirstMatch(tree, a, wanted)
  {
    if b == [] {
      assert a + b == a;
    } else {
      var n := |b| - 1;
      assert (a + b)[..|a| + n] == a + b[..n];
      FirstMatchPrefix(tree, a, b[..n], wanted);
    }
  }

  /** What one read returns. */
  function LookupValue(tree: Tree, wanted: nat): Option<seq<int>>
    requires tree.Shaped() && wanted < tree.size
  {
    PathSlotsInTree(tree, tree.positionMap[wanted]);
    FirstMatch(tree, PathSlots(tree, tree.positionMap[wanted]), wanted)
  }

  /** The plaintext read finds every stored value. */
  lemma {:induction false} LookupFinds(tree: Tree, values: seq<seq<int>>, wanted: nat)
    requires Holds(tree, values) && wanted < tree.size
    ensures LookupValue(tree, wanted) == Some(values[wanted])
  {
    PathSlotsInTree(tree, tree.positionMap[wanted]);
    HomeOnPath(tree, values, wanted);
    PathFindsValue(tree, values, wanted, PathSlots(tree, tree.positionMap[wanted]));
  }

  /** `lookup`: follow the index's path and return the first matching entry. */
  method Lookup(tree: Tree, logical: int) returns (r: Result<Option<seq<int>>>)
    requires tree.Shaped()
    ensures r == if 0 <= logical < tree.size then Ok(LookupValue(tree, logical)) else Err(OutOfRange)
  {
    if !(0 <= logical < tree.size) {
      return Err(OutOfRange);
    }
    var leaf := tree.positionMap[logical];
    var buckets := PathBuckets(leaf, tree.depth);
    var path := buckets.value;
    assert BucketsIn(tree, path) by {
      PathShape(leaf + Pow2(tree.depth), tree.depth);
    }
    LookupIs(tree, logical, path);
    hide *;
    for b := 0 to |path|
      invariant InTree(tree, SlotsOf(path[..b], tree.bucketSize))
      invariant FirstMatch(tree, SlotsOf(path[..b], tree.bucketSize), logical) == None
    {
      BucketIn(tree, path, b);
      var found := ScanBucket(tree, SlotsOf(path[..b], tree.bucketSize), path[b], logical);
      SlotsOfStep(path, b, tree.bucketSize);
      if found.Some? {
        StopEarly(tree, path, b + 1, logical);
        return Ok(found);
      }
    }
    assert path[..|path|] == path;
    r := Ok(None);
  }

  lemma {:induction false} SlotsOfStep(buckets: seq<nat>, b: nat, bucketSize: nat)
    requires b < |buckets|
    ensures SlotsOf(buckets[..b + 1], bucketSize) == SlotsOf(buckets[..b], bucketSize) + BucketSlots(buckets[b], bucketSize)
  {
    assert buckets[..b + 1][..b] == buckets[..b];
  }

  ghost predicate BucketsIn(tree: Tree, path: seq<nat>) {
    forall i :: 0 <= i < |path| ==> path[i] < Pow2(tree.depth + 1)
  }

  lemma {:induction false} BucketIn(tree: Tree, path: seq<nat>, b: nat)
    requires BucketsIn(tree, path) && b < |path|
    ensures path[b] < Pow2(tree.depth + 1)
  {
  }

  lemma {:induction false} LookupIs(tree: Tree, logical: nat, path: seq<nat>)
    requires tree.Shaped() && logical < tree.size && path == PathTo(tree.positionMap[logical] + Pow2(tree.depth))
    ensures InTree(tree, SlotsOf(path, tree.bucketSize))
    ensures LookupValue(tree, logical) == FirstMatch(tree, SlotsOf(path, tree.bucketSize), logical)
    ensures SlotsOf(path[..0], tree.bucketSize) == []
    ensures InTree(tree, []) && FirstMatch(tree, [], logical) == None
  {
    PathSlotsInTree(tree, tree.positionMap[logical]);
    assert path[..0] == [];
    assert InTree(tree, PathSlots(tree, tree.positionMap[logical]));
    hide FirstMatch, Pow2, PathTo;
  }

  ghost predicate InTree(tree: Tree, slots: seq<nat>) {
    forall i :: 0 <= i < |slots| ==> slots[i] < tree.Slots()
  }

  /** Scan one more bucket of a path on which nothing matched so far. */
  method ScanBucket(tree: Tree, ghost before: seq<nat>, bucket: nat, wanted: nat) returns (found: Option<seq<int>>)
    requires tree.Shaped() && bucket < Pow2(tree.depth + 1) && InTree(tree, before)
    requires FirstMatch(tree, before, wanted) == None
    ensures InTree(tree, before + BucketSlots(bucket, tree.bucketSize))
    ensures found == FirstMatch(tree, before + BucketSlots(bucket, tree.bucketSize), wanted)
  {
    var slots := BucketSlots(bucket, tree.bucketSize);
    BucketInTree(tree, bucket);
    InTreeJoin(tree, before, slots);
    ReadInTree(tree, slots);
    assert before + slots[..0] == before;
    hide *;
    for k := 0 to |slots|
      invariant InTree(tree, before + slots[..k])
      invariant FirstMatch(tree, before + slots[..k], wanted) == None
    {
      FirstMatchNext(tree, before, slots, k, wanted);
      if tree.fields[0][slots[k]] == 0 && tree.fields[1][slots[k]] == wanted {
        return Some(tree.Row(slots[k])[3..]);
      }
    }
    assert slots[..|slots|] == slots;
    found := None;
  }

  lemma {:induction false} InTreeJoin(tree: Tree, a: seq<nat>, b: seq<nat>)
    requires InTree(tree, a) && InTree(tree, b)
    ensures InTree(tree, a + b)
  {
  }

  lemma {:induction false} ReadInTree(tree: Tree, slots: seq<nat>)
    requires tree.Shaped() && InTree(tree, slots)
    ensures |tree.fields| >= 4
    ensures forall k, j | 0 <= k < |slots| && 0 <= j < |tree.fields| :: slots[k] < |tree.fields[j]|
  {
  }

  /** Looking at one more slot: either it decides the scan, or nothing has matched yet. */
  lemma {:induction false} FirstMatchNext(tree: Tree, before: seq<nat>, slots: seq<nat>, k: nat, wanted: nat)
    requires tree.Shaped() && InTree(tree, before + slots) && k < |slots|
    requires InTree(tree, before + slots[..k]) && FirstMatch(tree, before + slots[..k], wanted) == None
    ensures |tree.fields| >= 4 && forall j :: 0 <= j < |tree.fields| ==> slots[k] < |tree.fields[j]|
    ensures InTree(tree, before + slots[..k + 1])
    ensures var hit := tree.fields[0][slots[k]] == 0 && tree.fields[1][slots[k]] == wanted;
      && (hit ==> FirstMatch(tree, before + slots, wanted) == Some(tree.Row(slots[k])[3..]))
      && (!hit ==> FirstMatch(tree, before + slots[..k + 1], wanted) == None)
  {
    assert (before + slots)[|before| + k] == slots[k];
    var next := before + slots[..k + 1];
    assert next == (before + slots[..k]) + [slots[k]];
    FirstMatchStep(tree, before + slots[..k], slots[k], wanted);
    assert before + slots == next + slots[k + 1..];
    hide FirstMatch;
    if Matches(tree, slots[k], wanted) {
      FirstMatchPrefix(tree, next, slots[k + 1..], wanted);
    }
  }

  lemma {:induction false} BucketInTree(tree: Tree, bucket: nat)
    requires bucket < Pow2(tree.depth + 1)
    ensures InTree(tree, BucketSlots(bucket, tree.bucketSize))
  {
    TimesMonotone(bucket + 1, Pow2(tree.depth + 1), tree.bucketSize);
    TimesFacts(bucket, tree.bucketSize);
  }

  lemma {:induction false} StopEarly(tree: Tree, path: seq<nat>, b: nat, wanted: nat)
    requires tree.Shaped() && b <= |path| && BucketsIn(tree, path)
    requires InTree(tree, SlotsOf(path[..b], tree.bucketSize))
    requires FirstMatch(tree, SlotsOf(path[..b], tree.bucketSize), wanted).Some?
    ensures InTree(tree, SlotsOf(path, tree.bucketSize))
    ensures FirstMatch(tree, SlotsOf(path, tree.bucketSize), wanted) == FirstMatch(tree, SlotsOf(path[..b], tree.bucketSize), wanted)
  {
    SlotsInTree(path, tree.depth, tree.bucketSize);
    if b == |path| {
      assert path[..b] == path;
    } else {
      var n := |path| - 1;
      assert path[..n][..b] == path[..b];
      StopEarly(tree, path[..n], b, wanted);
      BucketInTree(tree, path[n]);
      FirstMatchPrefix(tree, SlotsOf(path[..n], tree.bucketSize), BucketSlots(path[n], tree.bucketSize), wanted);
    }
  }

  // --- Building ------------------------------------------------------------------------------

  /** Every record has the same, positive width. */
  predicate Uniform(values: seq<seq<int>>) {
    |values| > 0 && |values[0]| >= 1 && forall i :: 0 <= i < |values| ==> |values[i]| == |values[0]|
  }

  /** The dictionary of one attempt: leaf to indices. */
  ghost predicate Occupies(occupancy: map<nat, seq<nat>>, assignment: seq<nat>) {
    forall leaf :: IndicesAt(assignment, leaf) == if leaf in occupancy then occupancy[leaf] else []
  }

  method CountOccupancy(assignment: seq<nat>) returns (occupancy: map<nat, seq<nat>>)
    ensures Occupies(occupancy, assignment)
  {
    occupancy := map[];
    for index := 0 to |assignment|
      invariant Occupies(occupancy, assignment[..index])
    {
      var leaf := assignment[index];
      assert assignment[..index + 1][..index] == assignment[..index];
      ghost var was := occupancy;
      occupancy := occupancy[leaf := (if leaf in occupancy then occupancy[leaf] else []) + [index]];
      forall other
        ensures IndicesAt(assignment[..index + 1], other) == if other in occupancy then occupancy[other] else []
      {
        assert IndicesAt(assignment[..index], other) == if other in was then was[other] else [];
      }
    }
    assert assignment[..|assignment|] == assignment;
  }

  /** Whether some bucket would overflow. */
  method Overflows(occupancy: map<nat, seq<nat>>, bucketSize: nat) returns (b: bool)
    ensures b <==> exists leaf :: leaf in occupancy && |occupancy[leaf]| > bucketSize
  {
    b := exists leaf | leaf in occupancy.Keys :: |occupancy[leaf]| > bucketSize;
  }

  /** `attempts[a][i]` is the leaf drawn for index `i` in attempt `a`. */
  ghost predicate Draws(attempts: seq<seq<nat>>, size: nat, depth: nat) {
    forall a :: 0 <= a < |attempts| ==>
      |attempts[a]| == size && forall i :: 0 <= i < size ==> attempts[a][i] < Pow2(depth)
  }

  lemma {:induction false} DrawAt(attempts: seq<seq<nat>>, size: nat, depth: nat, a: nat)
    requires Draws(attempts, size, depth) && a < |attempts|
    ensures forall i :: 0 <= i < |attempts[a]| ==> attempts[a][i] < Pow2(depth)
  {
  }

  /** One attempt: it fits exactly when no leaf overflows. */
  method TryAssignment(assignment: seq<nat>, depth: nat, bucketSize: nat) returns (placed: bool, occupancy: map<nat, seq<nat>>)
    requires forall i :: 0 <= i < |assignment| ==> assignment[i] < Pow2(depth)
    ensures placed <==> Placeable(assignment, depth, bucketSize)
    ensures Occupies(occupancy, assignment)
  {
    occupancy := CountOccupancy(assignment);
    var overflows := Overflows(occupancy, bucketSize);
    placed := !overflows;
    FitsWhen(occupancy, assignment, depth, bucketSize);
    hide *;
  }

  lemma {:induction false} FitsWhen(occupancy: map<nat, seq<nat>>, assignment: seq<nat>, depth: nat, bucketSize: nat)
    requires Occupies(occupancy, assignment) && forall i :: 0 <= i < |assignment| ==> assignment[i] < Pow2(depth)
    ensures Placeable(assignment, depth, bucketSize) <==> !exists leaf :: leaf in occupancy && |occupancy[leaf]| > bucketSize
  {
    hide IndicesAt, Pow2;
    forall leaf: nat
      ensures IndicesAt(assignment, leaf) == if leaf in occupancy then occupancy[leaf] else []
    {
    }
    if leaf :| leaf in occupancy && |occupancy[leaf]| > bucketSize {
      assert |IndicesAt(assignment, leaf)| > bucketSize;
    }
  }

  /** Redraw until no bucket overflows, at most as often as there are attempts. */
  method Assign(ghost size: nat, attempts: seq<seq<nat>>, depth: nat, bucketSize: nat)
    returns (r: Option<nat>, occupancy: map<nat, seq<nat>>)
    requires Draws(attempts, size, depth)
    ensures r.None? <==> forall a :: 0 <= a < |attempts| ==> !Placeable(attempts[a], depth, bucketSize)
    ensures r.Some? ==> r.value < |attempts| && Placeable(attempts[r.value], depth, bucketSize)
    ensures r.Some? ==> Occupies(occupancy, attempts[r.value])
    ensures r.Some? ==> forall a :: 0 <= a < r.value ==> !Placeable(attempts[a], depth, bucketSize)
  {
    occupancy := map[];
    hide *;
    for a := 0 to |attempts|
      invariant forall b :: 0 <= b < a ==> !Placeable(attempts[b], depth, bucketSize)
    {
      var placed;
      DrawAt(attempts, size, depth, a);
      placed, occupancy := TryAssignment(attempts[a], depth, bucketSize);
      if placed {
        return Some(a), occupancy;
      }
    }
    r := None;
  }

  /** The physical memory while it is being filled; `done` are the indices already placed. */
  ghost predicate Filling(fields: array2<int>, values: seq<seq<int>>, assignment: seq<nat>, depth: nat, bucketSize: nat, done: set<nat>)
    reads fields
  {
    && Placeable(assignment, depth, bucketSize) && |values| == |assignment|
    && fields.Length0 >= 4 && fields.Length1 == Times(Pow2(depth + 1), bucketSize)
    && (forall i :: 0 <= i < |values| ==> |values[i]| == fields.Length0 - 3)
    && (forall i :: i in done ==> i < |values| && PlacedAt(fields, values, assignment, depth, bucketSize, i))
    && forall slot :: 0 <= slot < fields.Length1 ==> Owned(fields, assignment, depth, bucketSize, done, slot)
  }

  /** A slot is empty or belongs to a placed index. */
  ghost predicate Owned(fields: array2<int>, assignment: seq<nat>, depth: nat, bucketSize: nat, done: set<nat>, slot: nat)
    requires slot < fields.Length1 && fields.Length0 >= 2
    reads fields
  {
    fields[0, slot] == 1 ||
    exists i :: i in done && i < |assignment| && Home(assignment, depth, bucketSize, i) == slot
  }

  ghost predicate PlacedAt(fields: array2<int>, values: seq<seq<int>>, assignment: seq<nat>, depth: nat, bucketSize: nat, i: nat)
    requires i < |assignment| == |values|
    reads fields
  {
    var home := Home(assignment, depth, bucketSize, i);
    && home < fields.Length1 && |values[i]| + 3 == fields.Length0
    && fields[0, home] == 0 && fields[1, home] == i && fields[2, home] == assignment[i]
    && forall j :: 0 <= j < |values[i]| ==> fields[3 + j, home] == values[i][j]
  }

  /** Write one entry into its slot. */
  method WriteEntry(fields: array2<int>, slot: nat, logical: nat, leaf: nat, payload: seq<int>)
    requires fields.Length0 == |payload| + 3 && slot < fields.Length1
    modifies fields
    ensures fields[0, slot] == 0 && fields[1, slot] == logical && fields[2, slot] == leaf
    ensures forall j :: 0 <= j < |payload| ==> fields[3 + j, slot] == payload[j]
    ensures forall j, s | 0 <= j < fields.Length0 && 0 <= s < fields.Length1 && s != slot :: fields[j, s] == old(fields[j, s])
  {
    fields[0, slot] := 0;
    fields[1, slot] := logical;
    fields[2, slot] := leaf;
    for position := 0 to |payload|
      invariant fields[0, slot] == 0 && fields[1, slot] == logical && fields[2, slot] == leaf
      invariant forall j :: 0 <= j < position ==> fields[3 + j, slot] == payload[j]
      invariant forall j, s | 0 <= j < fields.Length0 && 0 <= s < fields.Length1 && s != slot :: fields[j, s] == old(fields[j, s])
    {
      fields[3 + position, slot] := payload[position];
    }
  }

  /** A fresh memory: every slot empty, every other field zero. */
  method EmptyMemory(rows: nat, slots: nat) returns (fields: array2<int>)
    requires rows >= 4
    ensures fresh(fields) && fields.Length0 == rows && fields.Length1 == slots
    ensures forall j, s | 0 <= j < rows && 0 <= s < slots :: fields[j, s] == if j == 0 then 1 else 0
  {
    fields := new int[rows, slots]((j, _) => if j == 0 then 1 else 0);
  }

  /** Place one index: its home was free, and every entry already placed stays. */
  method PlaceIndex(fields: array2<int>, ghost values: seq<seq<int>>, assignment: seq<nat>, depth: nat, bucketSize: nat,
                    ghost done: set<nat>, offset: nat, logical: nat, payload: seq<int>)
    requires Filling(fields, values, assignment, depth, bucketSize, done)
    requires logical < |assignment| && logical !in done && payload == values[logical]
    requires offset == Offset(assignment, logical)
    modifies fields
    ensures Filling(fields, values, assignment, depth, bucketSize, done + {logical})
  {
    HomeInRange(assignment, depth, bucketSize, logical);
    var slot := Times(assignment[logical] + Pow2(depth), bucketSize) + offset;
    forall i | i in done
      ensures Home(assignment, depth, bucketSize, i) != slot
    {
      if Home(assignment, depth, bucketSize, i) == slot {
        HomesDistinct(assignment, depth, bucketSize, i, logical);
      }
    }
    label before:
    WriteEntry(fields, slot, logical, assignment[logical], payload);
    forall s | 0 <= s < fields.Length1
      ensures Owned(fields, assignment, depth, bucketSize, done + {logical}, s)
    {
      assert old@before(Owned(fields, assignment, depth, bucketSize, done, s));
      if s != slot && fields[0, s] != 1 {
        var i :| i in done && i < |assignment| && Home(assignment, depth, bucketSize, i) == s;
        assert i in done + {logical};
      }
    }
    forall i | i in done + {logical}
      ensures i < |values| && PlacedAt(fields, values, assignment, depth, bucketSize, i)
    {
      if i in done {
        assert old@before(PlacedAt(fields, values, assignment, depth, bucketSize, i));
      }
    }
  }

  lemma {:induction false} OccupiedIndices(occupancy: map<nat, seq<nat>>, assignment: seq<nat>, leaf: nat, p: nat)
    requires Occupies(occupancy, assignment) && leaf in occupancy && p < |occupancy[leaf]|
    ensures var i := occupancy[leaf][p]; i < |assignment| && assignment[i] == leaf && Offset(assignment, i) == p
  {
    assert IndicesAt(assignment, leaf) == occupancy[leaf];
    IndicesAtMembers(assignment, leaf, p);
  }

  ghost function Members(s: seq<nat>): set<nat> {
    set i | i in s
  }

  lemma {:induction false} MembersSnoc(s: seq<nat>, x: nat)
    ensures Members(s + [x]) == Members(s) + {x}
  {
  }

  /** The entries of one leaf bucket. */
  method PlaceBucket(fields: array2<int>, values: seq<seq<int>>, assignment: seq<nat>, depth: nat, bucketSize: nat,
                     ghost done: set<nat>, leaf: nat, indices: seq<nat>, ghost occupancy: map<nat, seq<nat>>)
    requires Filling(fields, values, assignment, depth, bucketSize, done)
    requires Occupies(occupancy, assignment) && leaf in occupancy && indices == occupancy[leaf]
    requires forall i :: i in done ==> i < |assignment| && assignment[i] != leaf
    modifies fields
    ensures Filling(fields, values, assignment, depth, bucketSize, done + Members(indices))
  {
    assert Members(indices[..0]) == {};
    hide *;
    ghost var more: set<nat> := {};
    assert done + more == done;
    for offset := 0 to |indices|
      invariant more == Members(indices[..offset])
      invariant Filling(fields, values, assignment, depth, bucketSize, done + more)
      invariant forall i :: i in more ==> i < |assignment| && assignment[i] == leaf && Offset(assignment, i) < offset
    {
      var logical := indices[offset];
      OccupiedIndices(occupancy, assignment, leaf, offset);
      FillingShape(fields, values, assignment, depth, bucketSize, done + more);
      PlaceIndex(fields, values, assignment, depth, bucketSize, done + more, offset, logical, values[logical]);
      MembersSnoc(indices[..offset], logical);
      assert indices[..offset + 1] == indices[..offset] + [logical];
      assert done + more + {logical} == done + (more + {logical});
      more := more + {logical};
    }
    assert indices[..|indices|] == indices;
  }

  lemma {:induction false} FillingShape(fields: array2<int>, values: seq<seq<int>>, assignment: seq<nat>, depth: nat, bucketSize: nat, done: set<nat>)
    requires Filling(fields, values, assignment, depth, bucketSize, done)
    ensures |values| == |assignment|
  {
  }

  ghost function AllIndices(n: nat): (r: set<nat>)
    ensures forall i :: i in r <==> 0 <= i < n
  {
    if n == 0 then {} else AllIndices(n - 1) + {n - 1}
  }

  /** All indices of the leaves in `leaves`. */
  ghost function Under(assignment: seq<nat>, leaves: set<nat>): (r: set<nat>)
  {
    set i: nat | i < |assignment| && assignment[i] in leaves
  }

  /** Fill the memory bucket by bucket; the order of the buckets does not matter. */
  method PlaceAll(fields: array2<int>, values: seq<seq<int>>, assignment: seq<nat>, depth: nat, bucketSize: nat,
                  occupancy: map<nat, seq<nat>>)
    requires Filling(fields, values, assignment, depth, bucketSize, {}) && Occupies(occupancy, assignment)
    modifies fields
    ensures Filling(fields, values, assignment, depth, bucketSize, AllIndices(|assignment|))
  {
    var pending := occupancy.Keys;
    ghost var placed: set<nat> := {};
    assert Under(assignment, placed) == {};
    hide *;
    while pending != {}
      invariant forall leaf :: leaf in occupancy <==> leaf in placed || leaf in pending
      invariant forall leaf :: leaf in pending ==> leaf !in placed
      invariant Filling(fields, values, assignment, depth, bucketSize, Under(assignment, placed))
      decreases pending
    {
      var leaf :| leaf in pending;
      NotUnder(assignment, placed, leaf);
      PlaceBucket(fields, values, assignment, depth, bucketSize, Under(assignment, placed), leaf, occupancy[leaf], occupancy);
      UnderStep(occupancy, assignment, placed, leaf);
      placed := placed + {leaf};
      pending := pending - {leaf};
    }
    assert placed == occupancy.Keys;
    AllUnder(occupancy, assignment);
  }

  lemma {:induction false} NotUnder(assignment: seq<nat>, placed: set<nat>, leaf: nat)
    requires leaf !in placed
    ensures forall i :: i in Under(assignment, placed) ==> i < |assignment| && assignment[i] != leaf
  {
  }

  lemma {:induction false} UnderStep(occupancy: map<nat, seq<nat>>, assignment: seq<nat>, placed: set<nat>, leaf: nat)
    requires Occupies(occupancy, assignment) && leaf in occupancy
    ensures Under(assignment, placed + {leaf}) == Under(assignment, placed) + Members(occupancy[leaf])
  {
    forall i: nat | i in occupancy[leaf]
      ensures i < |assignment| && assignment[i] == leaf
    {
      var p :| 0 <= p < |occupancy[leaf]| && occupancy[leaf][p] == i;
      OccupiedIndices(occupancy, assignment, leaf, p);
    }
    forall i: nat | i < |assignment| && assignment[i] == leaf
      ensures i in occupancy[leaf]
    {
      OffsetBound(assignment, |assignment|, i);
      assert assignment[..|assignment|] == assignment;
      assert IndicesAt(assignment, leaf) == occupancy[leaf];
    }
  }

  lemma {:induction false} AllUnder(occupancy: map<nat, seq<nat>>, assignment: seq<nat>)
    requires Occupies(occupancy, assignment)
    ensures Under(assignment, occupancy.Keys) == AllIndices(|assignment|)
  {
    forall i: nat | i < |assignment|
      ensures assignment[i] in occupancy.Keys
    {
      OffsetBound(assignment, |assignment|, i);
      assert assignment[..|assignment|] == assignment;
      assert IndicesAt(assignment, assignment[i]) == if assignment[i] in occupancy then occupancy[assignment[i]] else [];
    }
  }

  /** The finished memory as columns. */
  function Columns(fields: array2<int>): (r: seq<seq<int>>)
    reads fields
    ensures |r| == fields.Length0 && forall j :: 0 <= j < |r| ==> |r[j]| == fields.Length1
    ensures forall j, s | 0 <= j < |r| && 0 <= s < fields.Length1 :: r[j][s] == fields[j, s]
  {
    seq(fields.Length0, j requires 0 <= j < fields.Length0 reads fields =>
      seq(fields.Length1, s requires 0 <= s < fields.Length1 reads fields => fields[j, s]))
  }

  /** A fully filled memory is a tree that holds the values. */
  lemma {:induction false} FilledHolds(fields: array2<int>, values: seq<seq<int>>, assignment: seq<nat>, depth: nat, bucketSize: nat, tree: Tree)
    requires Filling(fields, values, assignment, depth, bucketSize, AllIndices(|assignment|))
    requires tree == Tree(|values|, bucketSize, depth, Columns(fields), assignment)
    ensures Holds(tree, values)
  {
    forall i: nat | i < tree.size
      ensures AtHome(tree, values, i)
    {
      assert PlacedAt(fields, values, assignment, depth, bucketSize, i);
      EntryRow(fields, values, assignment, depth, bucketSize, i, tree);
    }
    forall slot: nat | slot < tree.Slots()
      ensures SlotOk(tree, values, slot)
    {
      assert Owned(fields, assignment, depth, bucketSize, AllIndices(|assignment|), slot);
      if tree.Row(slot)[0] != 1 {
        var i :| 0 <= i < |assignment| && Home(assignment, depth, bucketSize, i) == slot;
        assert AtHome(tree, values, i);
      }
    }
  }

  lemma {:induction false} EntryRow(fields: array2<int>, values: seq<seq<int>>, assignment: seq<nat>, depth: nat, bucketSize: nat, i: nat, tree: Tree)
    requires i < |assignment| == |values| && PlacedAt(fields, values, assignment, depth, bucketSize, i)
    requires tree == Tree(|values|, bucketSize, depth, Columns(fields), assignment)
    ensures tree.Row(Home(assignment, depth, bucketSize, i)) == Entry(i, assignment[i], values[i])
  {
    var home := Home(assignment, depth, bucketSize, i);
    var row, entry := tree.Row(home), Entry(i, assignment[i], values[i]);
    forall j | 0 <= j < |row|
      ensures row[j] == entry[j]
    {
      if j >= 3 {
        assert fields[3 + (j - 3), home] == values[i][j - 3];
      }
    }
  }

  /** The tree's leaves are those of the first attempt that overflows no bucket. */
  ghost predicate FirstPlaced(tree: Tree, attempts: seq<seq<nat>>) {
    exists a :: 0 <= a < |attempts| && tree.positionMap == attempts[a] && Placeable(attempts[a], tree.depth, tree.bucketSize)
      && forall b :: 0 <= b < a ==> !Placeable(attempts[b], tree.depth, tree.bucketSize)
  }

  /**
   * `build_owner_oram_tree` for a public shape and the leaves drawn in each attempt: it
   * succeeds exactly when some attempt fits, and then stores every record at its home.
   */
  method BuildTree(values: seq<seq<int>>, bucketSize: nat, depth: nat, attempts: seq<seq<nat>>) returns (r: Result<Tree>)
    requires Draws(attempts, |values|, depth)
    ensures r.Ok? <==> |values| >= 2 && Uniform(values)
                       && exists a :: 0 <= a < |attempts| && Placeable(attempts[a], depth, bucketSize)
    ensures r.Ok? ==> Holds(r.value, values)
    ensures r.Ok? ==> r.value.bucketSize == bucketSize && r.value.depth == depth && FirstPlaced(r.value, attempts)
  {
    if |values| < 2 || !Uniform(values) {
      return Err(BadValue);
    }
    var chosen, occupancy := Assign(|values|, attempts, depth, bucketSize);
    if chosen.None? {
      return Err(NotPlaced);
    }
    var assignment := attempts[chosen.value];
    var fields := EmptyMemory(3 + |values[0]|, Times(Pow2(depth + 1), bucketSize));
    hide Placeable, Occupies;
    PlaceAll(fields, values, assignment, depth, bucketSize, occupancy);
    var tree := Tree(|values|, bucketSize, depth, Columns(fields), assignment);
    FilledHolds(fields, values, assignment, depth, bucketSize, tree);
    r := Ok(tree);
  }
}
