// The recursive position map: each level's leaf labels, packed `chi` to a record,
// are the records of the next tree, down to a small scanned base.
module OramStack {
  import opened Wrappers
  import opened Bits
  import opened OramTree

  datatype Stack = Stack(levels: seq<Tree>, base: seq<nat>, chi: nat) {
    function Size(): nat
      requires |levels| > 0
    {
      levels[0].size
    }
  }

  // --- Level indices ------------------------------------------------------------

  function Power(chi: nat, level: nat): (r: nat)
    requires chi > 0
    ensures r > 0
  {
    if level == 0 then 1 else ProductPositive(chi, Power(chi, level - 1)); chi * Power(chi, level - 1)
  }

  lemma {:induction false} ProductPositive(a: nat, b: nat)
    requires a > 0 && b > 0
    ensures a * b > 0
  {
    ProductOrder(1, a, b);
  }

  /** `logical_index // chi ** level`. */
  function LevelIndex(chi: nat, a: nat, level: nat): nat
    requires chi > 0
  {
    Quotient(a, Power(chi, level))
  }

  /** One level up is one more division. */
  lemma {:induction false} LevelIndexStep(chi: nat, a: nat, level: nat)
    requires chi > 0
    ensures LevelIndex(chi, a, 0) == a
    ensures LevelIndex(chi, a, level + 1) == Quotient(LevelIndex(chi, a, level), chi)
  {
    var p := Power(chi, level);
    DivDiv(a, p, chi);
    DivModUnique(a, 1, a, 0);
    assert p * chi == chi * p;
  }

  /** `ceil(n / chi)`. */
  function Groups(n: nat, chi: nat): nat
    requires chi > 0
  {
    Quotient(n + chi - 1, chi)
  }

  lemma {:induction false} GroupsBounds(n: nat, chi: nat)
    requires chi > 0
    ensures Times(Groups(n, chi), chi) >= n
    ensures n > 0 ==> Groups(n, chi) > 0 && Times(Groups(n, chi) - 1, chi) < n
  {
    DivMod(n + chi - 1, chi);
    hide Quotient, Remainder;
    if n > 0 {
      assert 0 * chi == 0;
      TimesFacts(Groups(n, chi), chi);
    }
  }

  lemma {:induction false} GroupsUnique(n: nat, chi: nat, g: nat)
    requires chi > 0 && n > 0 && g > 0 && Times(g - 1, chi) < n <= Times(g, chi)
    ensures g == Groups(n, chi)
  {
    GroupsBounds(n, chi);
    if g < Groups(n, chi) {
      TimesMonotone(g, Groups(n, chi) - 1, chi);
    } else if g > Groups(n, chi) {
      TimesMonotone(Groups(n, chi), g - 1, chi);
    }
  }

  /** A level that does not fit the base is followed by a smaller one that still hides an address. */
  lemma {:induction false} GroupsShrink(n: nat, chi: nat)
    requires chi >= 2 && n > chi
    ensures 2 <= Groups(n, chi) < n
  {
    GroupsBounds(n, chi);
    var g := Groups(n, chi);
    TimesFacts(0, chi);
    TimesFacts(1, chi);
    DoubleAtMost(g - 1, chi);
  }

  lemma {:induction false} DoubleAtMost(g: nat, chi: nat)
    requires chi >= 2
    ensures 2 * g <= Times(g, chi)
  {
    ProductOrder(2, chi, g);
  }

  lemma {:induction false} QuotientInGroups(a: nat, n: nat, chi: nat)
    requires chi > 0 && a < n
    ensures Quotient(a, chi) < Groups(n, chi)
  {
    GroupsBounds(n, chi);
    QuotientBound(a, chi, Groups(n, chi)) by {
      assert Times(Groups(n, chi), chi) == chi * Groups(n, chi);
    }
  }

  // --- Packing labels -----------------------------------------------------------------

  /** Labels `chi * j` to `chi * (j + 1)`, zero-padded. */
  function Group(labels: seq<nat>, chi: nat, j: nat): (r: seq<int>)
    ensures |r| == chi
    ensures forall k :: 0 <= k < chi ==> r[k] == if Times(j, chi) + k < |labels| then labels[Times(j, chi) + k] else 0
  {
    seq(chi, (k: nat) => if Times(j, chi) + k < |labels| then labels[Times(j, chi) + k] else 0)
  }

  function Packed(labels: seq<nat>, chi: nat): (r: seq<seq<int>>)
    requires chi > 0
    ensures |r| == Groups(|labels|, chi) && forall j :: 0 <= j < |r| ==> r[j] == Group(labels, chi, j)
  {
    seq(Groups(|labels|, chi), (j: nat) => Group(labels, chi, j))
  }

  /** A label is found at the quotient and remainder of its index. */
  lemma {:induction false} PackedAt(labels: seq<nat>, chi: nat, a: nat)
    requires chi > 0 && a < |labels|
    ensures Quotient(a, chi) < |Packed(labels, chi)|
    ensures Packed(labels, chi)[Quotient(a, chi)][Remainder(a, chi)] == labels[a]
  {
    QuotientInGroups(a, |labels|, chi);
    DivMod(a, chi);
  }

  method PackLabels(labels: seq<nat>, chi: nat) returns (packed: seq<seq<int>>)
    requires chi > 0 && |labels| > 0
    ensures packed == Packed(labels, chi)
  {
    packed := [];
    var start: nat := 0;
    TimesFacts(0, chi);
    hide Times, Groups;
    while start < |labels|
      invariant start == Times(|packed|, chi)
      invariant |packed| > 0 ==> Times(|packed| - 1, chi) < |labels|
      invariant forall j :: 0 <= j < |packed| ==> packed[j] == Group(labels, chi, j)
      decreases |labels| - start
    {
      var stop := if start + chi < |labels| then start + chi else |labels|;
      var group := labels[start..stop];
      var padded: seq<int> := group + seq(chi - |group|, _ => 0);
      assert padded == Group(labels, chi, |packed|);
      TimesFacts(|packed|, chi);
      packed := packed + [padded];
      start := start + chi;
    }
    GroupsUnique(|labels|, chi, |packed|);
  }

  // --- The public shape -----------------------------------------------------------------

  /** The record counts of the levels; planned and built stacks share it. */
  function Sizes(n: nat, chi: nat, threshold: nat): (r: seq<nat>)
    requires chi >= 2
    ensures |r| > 0 && r[0] == n
    decreases n
  {
    if n <= threshold || n <= chi then [n]
    else
      GroupsShrink(n, chi);
      [n] + Sizes(Groups(n, chi), chi, threshold)
  }

  /** Every level of a stack over at least two records hides an address. */
  lemma {:induction false} SizesAtLeastTwo(n: nat, chi: nat, threshold: nat, l: nat)
    requires chi >= 2 && n >= 2 && l < |Sizes(n, chi, threshold)|
    ensures Sizes(n, chi, threshold)[l] >= 2
    decreases n
  {
    if !(n <= threshold || n <= chi) && l > 0 {
      GroupsShrink(n, chi);
      SizesAtLeastTwo(Groups(n, chi), chi, threshold, l - 1);
    }
  }

  /** The planner's loop, which knows the record count but not the records. */
  method PlanSizes(records: nat, chi: nat, threshold: nat) returns (sizes: seq<nat>)
    requires chi >= 2
    ensures sizes == Sizes(records, chi, threshold)
  {
    var current := records;
    sizes := [current];
    while !(current <= threshold || current <= chi)
      invariant sizes != [] && sizes[|sizes| - 1] == current
      invariant sizes[..|sizes| - 1] + Sizes(current, chi, threshold) == Sizes(records, chi, threshold)
      decreases current
    {
      GroupsShrink(current, chi);
      ghost var was := sizes;
      current := Groups(current, chi);
      sizes := sizes + [current];
      assert sizes[..|sizes| - 1] == was == was[..|was| - 1] + [was[|was| - 1]];
    }
    assert sizes == sizes[..|sizes| - 1] + [current];
  }

  // --- A finished stack --------------------------------------------------------------------

  /** `stored[l]` are the records of level `l`. */
  ghost predicate StackHolds(stack: Stack, stored: seq<seq<seq<int>>>) {
    && stack.chi >= 2 && |stack.levels| == |stored| >= 1
    && (forall l :: 0 <= l < |stored| ==> Holds(stack.levels[l], stored[l]) && stack.levels[l].size >= 2)
    && (forall l: nat :: l < |stored| - 1 ==> Linked(stack.levels, stored, stack.chi, l))
    && stack.base == stack.levels[|stored| - 1].positionMap
  }

  /** A level's position map is stored, `chi` leaves to a record, in the level above. */
  ghost predicate Linked(levels: seq<Tree>, stored: seq<seq<seq<int>>>, chi: nat, l: nat) {
    chi > 0 && l < |levels| && l + 1 < |stored| && stored[l + 1] == Packed(levels[l].positionMap, chi)
  }

  lemma {:induction false} LevelFacts(stack: Stack, stored: seq<seq<seq<int>>>, l: nat)
    requires StackHolds(stack, stored) && l < |stored|
    ensures Holds(stack.levels[l], stored[l]) && stack.levels[l].Shaped() && |stored[l]| == stack.levels[l].size >= 2
    ensures |stack.levels[l].positionMap| == stack.levels[l].size
  {
  }

  /** A logical index names a record at every level. */
  lemma {:induction false} LevelIndexInRange(stack: Stack, stored: seq<seq<seq<int>>>, a: nat, l: nat)
    requires StackHolds(stack, stored) && a < stack.Size() && l < |stored|
    ensures LevelIndex(stack.chi, a, l) < stack.levels[l].size
  {
    if l == 0 {
      LevelIndexStep(stack.chi, a, 0);
    } else {
      LevelFacts(stack, stored, l - 1);
      LevelFacts(stack, stored, l);
      assert Linked(stack.levels, stored, stack.chi, l - 1);
      hide StackHolds, Holds, Packed, LevelIndex, Tree.Shaped;
      LevelIndexInRange(stack, stored, a, l - 1);
      LevelIndexStep(stack.chi, a, l - 1);
      QuotientInGroups(LevelIndex(stack.chi, a, l - 1), stack.levels[l - 1].size, stack.chi);
    }
  }

  /** The record of level `l + 1` holds the leaf of level `l`, at the low digit. */
  lemma {:induction false} NextLeaf(stack: Stack, stored: seq<seq<seq<int>>>, a: nat, l: nat)
    requires StackHolds(stack, stored) && a < stack.Size() && l + 1 < |stored|
    ensures var i, j := LevelIndex(stack.chi, a, l + 1), LevelIndex(stack.chi, a, l);
      && i < |stored[l + 1]| && j < |stack.levels[l].positionMap|
      && Remainder(j, stack.chi) < |stored[l + 1][i]|
      && stored[l + 1][i][Remainder(j, stack.chi)] == stack.levels[l].positionMap[j]
  {
    LevelIndexInRange(stack, stored, a, l);
    LevelIndexInRange(stack, stored, a, l + 1);
    LevelFacts(stack, stored, l);
    LevelFacts(stack, stored, l + 1);
    LevelIndexStep(stack.chi, a, l);
    assert Linked(stack.levels, stored, stack.chi, l);
    hide StackHolds, Holds, LevelIndex;
    PackedAt(stack.levels[l].positionMap, stack.chi, LevelIndex(stack.chi, a, l));
  }

  /** One tree read inside a stack. */
  method LevelLookup(stack: Stack, ghost stored: seq<seq<seq<int>>>, level: nat, index: nat) returns (payload: seq<int>)
    requires StackHolds(stack, stored) && level < |stored| && index < stack.levels[level].size
    ensures |stored| == |stack.levels| && index < |stored[level]| && payload == stored[level][index]
  {
    LevelFacts(stack, stored, level);
    LookupFinds(stack.levels[level], stored[level], index);
    hide *;
    var read := Lookup(stack.levels[level], index);
    payload := read.value.value;
  }

  /** The leaf of an index at a level. */
  ghost predicate IsLeafOf(stack: Stack, a: nat, level: nat, leaf: int) {
    && stack.chi > 0 && level < |stack.levels| && LevelIndex(stack.chi, a, level) < |stack.levels[level].positionMap|
    && leaf == stack.levels[level].positionMap[LevelIndex(stack.chi, a, level)]
  }

  /** The scanned base holds the top level's leaves. */
  lemma {:induction false} BaseLeaf(stack: Stack, stored: seq<seq<seq<int>>>, a: nat)
    requires StackHolds(stack, stored) && a < stack.Size()
    ensures LevelIndex(stack.chi, a, |stack.levels| - 1) < |stack.base|
    ensures IsLeafOf(stack, a, |stack.levels| - 1, stack.base[LevelIndex(stack.chi, a, |stack.levels| - 1)])
  {
    LevelIndexInRange(stack, stored, a, |stack.levels| - 1);
    LevelFacts(stack, stored, |stack.levels| - 1);
    hide LevelIndex, Holds;
  }

  /** What a read at one level yields: the record, and in it the leaf of the level below. */
  lemma {:induction false} DescentStep(stack: Stack, stored: seq<seq<seq<int>>>, a: nat, level: nat)
    requires StackHolds(stack, stored) && a < stack.Size() && 0 < level < |stored|
    ensures var i, digit := LevelIndex(stack.chi, a, level), Remainder(LevelIndex(stack.chi, a, level - 1), stack.chi);
      && i < stack.levels[level].size && i < |stored[level]| && digit < |stored[level][i]|
      && IsLeafOf(stack, a, level - 1, stored[level][i][digit])
  {
    LevelIndexInRange(stack, stored, a, level);
    LevelFacts(stack, stored, level);
    NextLeaf(stack, stored, a, level - 1);
    hide LevelIndex, Holds;
  }

  lemma {:induction false} StackShape(stack: Stack, stored: seq<seq<seq<int>>>)
    requires StackHolds(stack, stored)
    ensures stack.chi >= 2 && |stack.levels| == |stored| >= 1 && |stored[0]| == stack.Size() >= 2
  {
    LevelFacts(stack, stored, 0);
  }

  lemma {:induction false} DataLeaf(stack: Stack, a: nat, leaf: int)
    requires IsLeafOf(stack, a, 0, leaf)
    ensures a < |stack.levels[0].positionMap| && leaf == stack.levels[0].positionMap[a]
  {
    LevelIndexStep(stack.chi, a, 0);
  }

  lemma {:induction false} LeafIs(stack: Stack, a: nat, level: nat, leaf: int)
    requires IsLeafOf(stack, a, level, leaf)
    ensures stack.chi > 0 && level < |stack.levels| && LevelIndex(stack.chi, a, level) < |stack.levels[level].positionMap|
    ensures stack.levels[level].positionMap[LevelIndex(stack.chi, a, level)] == leaf
  {
  }

  /**
   * `stack_lookup`: walk from the base to the data tree.  The two assertions are the
   * source's own consistency checks; they can never fire, and no read misses.
   */
  method StackLookup(stack: Stack, ghost stored: seq<seq<seq<int>>>, logical: int) returns (r: Result<seq<int>>)
    requires StackHolds(stack, stored)
    ensures stored != [] && r == if 0 <= logical < |stored[0]| then Ok(stored[0][logical]) else Err(OutOfRange)
  {
    StackShape(stack, stored);
    if !(0 <= logical < stack.Size()) {
      return Err(OutOfRange);
    }
    var top := |stack.levels| - 1;
    BaseLeaf(stack, stored, logical);
    hide *;
    var leaf: int := stack.base[LevelIndex(stack.chi, logical, top)];
    for level := top downto 0
      invariant IsLeafOf(stack, logical, level, leaf)
    {
      var index := LevelIndex(stack.chi, logical, level + 1);
      LeafIs(stack, logical, level + 1, leaf);
      assert stack.levels[level + 1].positionMap[index] == leaf;
      DescentStep(stack, stored, logical, level + 1);
      var packed := LevelLookup(stack, stored, level + 1, index);
      leaf := packed[Remainder(LevelIndex(stack.chi, logical, level), stack.chi)];
    }
    DataLeaf(stack, logical, leaf);
    assert stack.levels[0].positionMap[logical] == leaf;
    var value := LevelLookup(stack, stored, 0, logical);
    r := Ok(value);
  }

  // --- Building -------------------------------------------------------------------------------

  function Assignment(draw: (nat, nat, nat) -> nat, level: nat, attempt: nat, size: nat, depth: nat): (r: seq<nat>)
    ensures |r| == size && forall i :: 0 <= i < size ==> r[i] < Pow2(depth)
  {
    if size == 0 then []
    else Assignment(draw, level, attempt, size - 1, depth) + [Remainder(draw(level, attempt, size - 1), Pow2(depth))]
  }

  /** The random leaves of one level: one row per attempt. */
  /** Index `i` of an attempt gets the leaf its own draw names. */
  lemma {:induction false} AssignmentAt(draw: (nat, nat, nat) -> nat, level: nat, attempt: nat, size: nat, depth: nat, i: nat)
    requires i < size
    ensures Assignment(draw, level, attempt, size, depth)[i] == draw(level, attempt, i) % Pow2(depth)
  {
    if i < size - 1 {
      AssignmentAt(draw, level, attempt, size - 1, depth, i);
    }
  }

  function Attempts(draw: (nat, nat, nat) -> nat, level: nat, count: nat, size: nat, depth: nat): (r: seq<seq<nat>>)
    ensures Draws(r, size, depth)
  {
    seq(count, (a: nat) => Assignment(draw, level, a, size, depth))
  }

  /** Public sizing: a record count determines the bucket size and the depth. */
  datatype Sizing = Sizing(bucketSize: nat -> nat, depth: nat -> nat, attempts: nat)

  /** Some attempt places the level. */
  ghost predicate LevelPlaces(z: Sizing, draw: (nat, nat, nat) -> nat, level: nat, size: nat) {
    var attempts := Attempts(draw, level, z.attempts, size, z.depth(size));
    exists a :: 0 <= a < |attempts| && Placeable(attempts[a], z.depth(size), z.bucketSize(size))
  }

  /** Levels from `level` on all place; only public sizes and the draws matter. */
  ghost predicate AllPlace(z: Sizing, draw: (nat, nat, nat) -> nat, level: nat, sizes: seq<nat>)
    decreases |sizes|
  {
    sizes != [] ==> LevelPlaces(z, draw, level, sizes[0]) && AllPlace(z, draw, level + 1, sizes[1..])
  }

  /** The levels built so far hold what they must; `current` are the records of the next one. */
  ghost predicate Partial(levels: seq<Tree>, stored: seq<seq<seq<int>>>, chi: nat, current: seq<seq<int>>) {
    && chi >= 2 && |levels| == |stored|
    && (forall l :: 0 <= l < |levels| ==> Holds(levels[l], stored[l]) && levels[l].size >= 2)
    && (forall l: nat :: l < |levels| - 1 ==> Linked(levels, stored, chi, l))
    && (levels != [] ==> current == Packed(levels[|levels| - 1].positionMap, chi))
  }

  lemma {:induction false} PartialStep(levels: seq<Tree>, stored: seq<seq<seq<int>>>, chi: nat, current: seq<seq<int>>, tree: Tree)
    requires Partial(levels, stored, chi, current) && Holds(tree, current) && tree.size >= 2
    ensures Partial(levels + [tree], stored + [current], chi, Packed(tree.positionMap, chi))
    ensures StackHolds(Stack(levels + [tree], tree.positionMap, chi), stored + [current])
    ensures |tree.positionMap| == |current|
  {
    forall l: nat | l < |levels|
      ensures Linked(levels + [tree], stored + [current], chi, l)
    {
      if l < |levels| - 1 {
        assert Linked(levels, stored, chi, l);
      }
      hide Packed, Holds;
    }
    hide Linked, Packed;
  }

  /** The next level's records are uniform and still hide an address. */
  lemma {:induction false} PackedUniform(labels: seq<nat>, chi: nat)
    requires chi >= 2 && |labels| > chi
    ensures Uniform(Packed(labels, chi)) && 2 <= |Packed(labels, chi)| < |labels|
  {
    GroupsShrink(|labels|, chi);
  }

  lemma {:induction false} SizesStep(n: nat, chi: nat, threshold: nat)
    requires chi >= 2
    ensures n <= threshold || n <= chi ==> Sizes(n, chi, threshold) == [n]
    ensures !(n <= threshold || n <= chi) ==>
      Sizes(n, chi, threshold) == [n] + Sizes(Groups(n, chi), chi, threshold) && Groups(n, chi) < n
  {
    if !(n <= threshold || n <= chi) {
      GroupsShrink(n, chi);
    }
  }

  lemma {:induction false} AllPlaceStep(z: Sizing, draw: (nat, nat, nat) -> nat, level: nat, n: nat, rest: seq<nat>)
    ensures AllPlace(z, draw, level, [n] + rest) <==> LevelPlaces(z, draw, level, n) && AllPlace(z, draw, level + 1, rest)
    ensures AllPlace(z, draw, level, [])
  {
    assert ([n] + rest)[1..] == rest;
  }

  /** A level's leaves are the draws of its first attempt that places it. */
  ghost predicate LevelDrawn(tree: Tree, z: Sizing, draw: (nat, nat, nat) -> nat, level: nat) {
    && tree.depth == z.depth(tree.size) && tree.bucketSize == z.bucketSize(tree.size)
    && FirstPlaced(tree, Attempts(draw, level, z.attempts, tree.size, tree.depth))
  }

  /** Every level drew its own leaves. */
  ghost predicate Drawn(levels: seq<Tree>, z: Sizing, draw: (nat, nat, nat) -> nat) {
    forall l :: 0 <= l < |levels| ==> LevelDrawn(levels[l], z, draw, l)
  }

  lemma {:induction false} DrawnStep(levels: seq<Tree>, z: Sizing, draw: (nat, nat, nat) -> nat, tree: Tree)
    requires Drawn(levels, z, draw) && LevelDrawn(tree, z, draw, |levels|)
    ensures Drawn(levels + [tree], z, draw)
  {
    hide LevelDrawn;
  }

  lemma {:induction false} NoneDrawn(z: Sizing, draw: (nat, nat, nat) -> nat)
    ensures Drawn([], z, draw)
  {
  }

  method BuildLevel(values: seq<seq<int>>, z: Sizing, draw: (nat, nat, nat) -> nat, level: nat) returns (r: Result<Tree>)
    ensures r.Ok? <==> |values| >= 2 && Uniform(values) && LevelPlaces(z, draw, level, |values|)
    ensures r.Ok? ==> Holds(r.value, values) && LevelDrawn(r.value, z, draw, level)
  {
    var size := |values|;
    r := BuildTree(values, z.bucketSize(size), z.depth(size), Attempts(draw, level, z.attempts, size, z.depth(size)));
  }

  /** The sizes of a stack's levels. */
  function LevelSizes(levels: seq<Tree>): (r: seq<nat>)
    ensures |r| == |levels| && forall l :: 0 <= l < |r| ==> r[l] == levels[l].size
  {
    seq(|levels|, l requires 0 <= l < |levels| => levels[l].size)
  }

  /** The sizes already built, followed by those still planned. */
  lemma {:induction false} LevelSizesStep(levels: seq<Tree>, tree: Tree, rest: seq<nat>)
    ensures LevelSizes(levels + [tree]) + rest == LevelSizes(levels) + ([tree.size] + rest)
  {
  }

  lemma {:induction false} HoldsSize(tree: Tree, values: seq<seq<int>>)
    requires Holds(tree, values)
    ensures tree.size == |values| == |tree.positionMap|
  {
  }

  /** The levels after the current one. */
  function Rest(n: nat, chi: nat, threshold: nat): seq<nat>
    requires chi >= 2
  {
    if n <= threshold || n <= chi then [] else Sizes(Groups(n, chi), chi, threshold)
  }

  /** The state of the build: what is done, what is to come, and when it can still succeed. */
  ghost predicate Building(values: seq<seq<int>>, chi: nat, threshold: nat, z: Sizing, draw: (nat, nat, nat) -> nat,
                           levels: seq<Tree>, stored: seq<seq<seq<int>>>, current: seq<seq<int>>)
  {
    && Partial(levels, stored, chi, current)
    && (levels == [] ==> current == values)
    && (levels != [] ==> stored[0] == values && |values| >= 2 && Uniform(values) && |current| >= 2 && Uniform(current))
    && (AllPlace(z, draw, 0, Sizes(|values|, chi, threshold)) <==> AllPlace(z, draw, |levels|, Sizes(|current|, chi, threshold)))
    && LevelSizes(levels) + Sizes(|current|, chi, threshold) == Sizes(|values|, chi, threshold)
  }

  ghost predicate Buildable(values: seq<seq<int>>, chi: nat, threshold: nat, z: Sizing, draw: (nat, nat, nat) -> nat) {
    chi >= 2 && threshold >= 2 && |values| >= 2 && Uniform(values) && AllPlace(z, draw, 0, Sizes(|values|, chi, threshold))
  }

  ghost predicate Built(values: seq<seq<int>>, chi: nat, threshold: nat, stack: Stack, stored: seq<seq<seq<int>>>) {
    && chi >= 2 && StackHolds(stack, stored) && stored[0] == values && stack.chi == chi
    && LevelSizes(stack.levels) == Sizes(|values|, chi, threshold)
  }

  /** A level that cannot be placed stops the build, and only then. */
  lemma {:induction false} BuildStops(values: seq<seq<int>>, chi: nat, threshold: nat, z: Sizing, draw: (nat, nat, nat) -> nat,
                                      levels: seq<Tree>, stored: seq<seq<seq<int>>>, current: seq<seq<int>>)
    requires Building(values, chi, threshold, z, draw, levels, stored, current)
    requires !(|current| >= 2 && Uniform(current) && LevelPlaces(z, draw, |levels|, |current|))
    ensures !Buildable(values, chi, threshold, z, draw)
  {
    SizesStep(|current|, chi, threshold);
    AllPlaceStep(z, draw, |levels|, |current|, Rest(|current|, chi, threshold));
    assert [|current|] + [] == [|current|];
    hide Partial, LevelPlaces, AllPlace, Sizes;
  }

  /** The last level becomes the base. */
  lemma {:induction false} BuildEnds(values: seq<seq<int>>, chi: nat, threshold: nat, z: Sizing, draw: (nat, nat, nat) -> nat,
                                     levels: seq<Tree>, stored: seq<seq<seq<int>>>, current: seq<seq<int>>, tree: Tree)
    requires Building(values, chi, threshold, z, draw, levels, stored, current) && threshold >= 2
    requires |current| >= 2 && Uniform(current) && LevelPlaces(z, draw, |levels|, |current|)
    requires Holds(tree, current) && (|current| <= threshold || |current| <= chi)
    ensures Buildable(values, chi, threshold, z, draw)
    ensures Built(values, chi, threshold, Stack(levels + [tree], tree.positionMap, chi), stored + [current])
  {
    SizesStep(|current|, chi, threshold);
    AllPlaceStep(z, draw, |levels|, |current|, []);
    AllPlaceStep(z, draw, |levels| + 1, 0, []);
    assert [|current|] + [] == [|current|];
    HoldsSize(tree, current);
    PartialStep(levels, stored, chi, current, tree);
    LevelSizesStep(levels, tree, []);
    assert LevelSizes(levels + [tree]) + [] == LevelSizes(levels + [tree]);
    hide Partial, LevelPlaces, AllPlace, Sizes, StackHolds;
  }

  /** One more level is built and its labels become the next records. */
  lemma {:induction false} BuildContinues(values: seq<seq<int>>, chi: nat, threshold: nat, z: Sizing, draw: (nat, nat, nat) -> nat,
                                          levels: seq<Tree>, stored: seq<seq<seq<int>>>, current: seq<seq<int>>, tree: Tree)
    requires Building(values, chi, threshold, z, draw, levels, stored, current)
    requires |current| >= 2 && Uniform(current) && LevelPlaces(z, draw, |levels|, |current|)
    requires Holds(tree, current) && !(|current| <= threshold || |current| <= chi)
    ensures Building(values, chi, threshold, z, draw, levels + [tree], stored + [current], Packed(tree.positionMap, chi))
    ensures |Packed(tree.positionMap, chi)| < |current|
  {
    SizesStep(|current|, chi, threshold);
    AllPlaceStep(z, draw, |levels|, |current|, Rest(|current|, chi, threshold));
    HoldsSize(tree, current);
    PackedUniform(tree.positionMap, chi);
    PartialStep(levels, stored, chi, current, tree);
    LevelSizesStep(levels, tree, Rest(|current|, chi, threshold));
    hide Partial, LevelPlaces, AllPlace, Sizes, StackHolds, Uniform;
  }

  lemma {:induction false} BuildStarts(values: seq<seq<int>>, chi: nat, threshold: nat, z: Sizing, draw: (nat, nat, nat) -> nat)
    requires chi >= 2
    ensures Building(values, chi, threshold, z, draw, [], [], values)
  {
    assert LevelSizes([]) + Sizes(|values|, chi, threshold) == Sizes(|values|, chi, threshold);
  }

  /**
   * `build_owner_oram_stack`: terminates, and succeeds exactly when every level's draws
   * place it -- which depends on public sizes and the draws alone.  The result holds the
   * records, and its levels have the planned sizes.
   */
  method BuildStack(values: seq<seq<int>>, chi: nat, threshold: nat, z: Sizing, draw: (nat, nat, nat) -> nat)
    returns (r: Result<Stack>, ghost stored: seq<seq<seq<int>>>)
    ensures r.Ok? <==> Buildable(values, chi, threshold, z, draw)
    ensures r.Ok? ==> Built(values, chi, threshold, r.value, stored) && Drawn(r.value.levels, z, draw)
  {
    stored := [];
    if chi < 2 || threshold < 2 {
      return Err(BadValue), stored;
    }
    var levels: seq<Tree> := [];
    var current := values;
    BuildStarts(values, chi, threshold, z, draw);
    NoneDrawn(z, draw);
    hide *;
    while true
      invariant Building(values, chi, threshold, z, draw, levels, stored, current) && Drawn(levels, z, draw)
      decreases |current|
    {
      var built := BuildLevel(current, z, draw, |levels|);
      if built.Err? {
        BuildStops(values, chi, threshold, z, draw, levels, stored, current);
        return Err(built.error), stored;
      }
      var tree := built.value;
      HoldsSize(tree, current);
      DrawnStep(levels, z, draw, tree);
      var labels := tree.positionMap;
      if |labels| <= threshold || |labels| <= chi {
        BuildEnds(values, chi, threshold, z, draw, levels, stored, current, tree);
        return Ok(Stack(levels + [tree], labels, chi)), stored + [current];
      }
      BuildContinues(values, chi, threshold, z, draw, levels, stored, current, tree);
      levels, stored := levels + [tree], stored + [current];
      current := PackLabels(labels, chi);
    }
  }
}
