// A whole run of the rendered reader, and its refinement of the plaintext
// simulation with dictionary stashes.
module OramSession {
  import opened Wrappers
  import opened Gates
  import opened Bits
  import opened OramTree
  import opened OramStack
  import opened OramAccess
  import opened OramCircuit
  import opened OramReader

  /** The stash arrays of one owner's stack: one row per level, one slot per scheduled access. */
  class ReplayStash {
    const valid: array2<int>
    const index: array2<int>
    const value: array2<seq<int>>

    ghost predicate Shaped() {
      && valid.Length0 == index.Length0 == value.Length0
      && valid.Length1 == index.Length1 == value.Length1
      && valid != index
    }

    /** The slots of one level. */
    function Row(level: nat): (r: seq<StashSlot>)
      requires Shaped() && level < valid.Length0
      reads valid, index, value
      ensures |r| == valid.Length1
      ensures forall u :: 0 <= u < |r| ==> r[u] == StashSlot(valid[level, u], index[level, u], value[level, u])
    {
      seq(valid.Length1, u requires 0 <= u < valid.Length1 reads valid, index, value =>
        StashSlot(valid[level, u], index[level, u], value[level, u]))
    }

    ghost function Contents(): (r: seq<seq<StashSlot>>)
      requires Shaped()
      reads valid, index, value
      ensures |r| == valid.Length0 && forall l :: 0 <= l < |r| ==> r[l] == Row(l)
    {
      seq(valid.Length0, l requires 0 <= l < valid.Length0 reads valid, index, value => Row(l))
    }

    constructor (levels: nat, maxAccesses: nat)
      ensures Shaped() && valid.Length0 == levels && valid.Length1 == maxAccesses
      ensures fresh(valid) && fresh(index) && fresh(value)
      ensures forall l, u | 0 <= l < levels && 0 <= u < maxAccesses :: Contents()[l][u] == StashSlot(0, 0, [])
    {
      valid := new int[levels, maxAccesses]((_, _) => 0);
      index := new int[levels, maxAccesses]((_, _) => 0);
      value := new seq<int>[levels, maxAccesses]((_, _) => []);
    }

    /** Write the slot of one access at one level. */
    method Put(level: nat, access: nat, slot: StashSlot)
      requires Shaped() && level < valid.Length0 && access < valid.Length1
      modifies valid, index, value
      ensures Contents() == old(Contents())[level := old(Contents())[level][access := slot]]
    {
      valid[level, access] := slot.valid;
      index[level, access] := slot.index;
      value[level, access] := slot.value;
      forall l | 0 <= l < valid.Length0
        ensures Row(l) == if l == level then old(Row(l))[access := slot] else old(Row(l))
      {
      }
    }
  }

  // --- The stash of a whole stack, as a value -------------------------------------------

  function WidthOf(tree: Tree): nat {
    if |tree.fields| >= 3 then |tree.fields| - 3 else 0
  }

  /** All levels' slots; the levels from `from` on have already served the current access. */
  ghost predicate CacheHolds(stack: Stack, stored: seq<seq<seq<int>>>, history: seq<nat>, index: nat, from: nat, cache: seq<seq<StashSlot>>) {
    && |cache| == |stored| == |stack.levels|
    && forall l :: 0 <= l < |cache| ==>
      SlotsHold(cache[l], stack.chi, if l >= from then history + [index] else history, l, stored[l], WidthOf(stack.levels[l]))
  }

  /** A slot written now completes the level's slots. */
  lemma {:induction false} SlotsAppend(slots: seq<StashSlot>, chi: nat, history: seq<nat>, index: nat, level: nat,
                                       records: seq<seq<int>>, width: nat, slot: StashSlot)
    requires SlotsHold(slots, chi, history, level, records, width) && |history| < |slots|
    requires SlotOf(slot, chi, history + [index], level, records, width, |history|)
    ensures SlotsHold(slots[|history| := slot], chi, history + [index], level, records, width)
  {
    hide LevelIndex, Touched;
    forall u | 0 <= u < |history|
      ensures SlotOf(slots[u], chi, history + [index], level, records, width, u)
    {
      assert SlotOf(slots[u], chi, history, level, records, width, u);
      assert (history + [index])[..u] == history[..u];
    }
  }

  lemma {:induction false} CacheAppend(stack: Stack, stored: seq<seq<seq<int>>>, history: seq<nat>, index: nat, level: nat,
                                       cache: seq<seq<StashSlot>>, slot: StashSlot)
    requires level < |stored| && CacheHolds(stack, stored, history, index, level + 1, cache) && |history| < |cache[level]|
    requires SlotOf(slot, stack.chi, history + [index], level, stored[level], WidthOf(stack.levels[level]), |history|)
    ensures CacheHolds(stack, stored, history, index, level, cache[level := cache[level][|history| := slot]])
  {
    SlotsAppend(cache[level], stack.chi, history, index, level, stored[level], WidthOf(stack.levels[level]), slot);
    hide SlotsHold, SlotOf;
  }

  // --- The compiled constants and the shared state of one owner's stack --------------------

  datatype LevelShape = LevelShape(depth: nat, bucketSize: nat, width: nat)

  datatype Program = Program(flats: seq<seq<int>>, base: seq<int>, shapes: seq<LevelShape>, chiBits: nat, records: nat)

  /** The program's shape and memory are those of the owner's stack. */
  ghost predicate Encodes(p: Program, stack: Stack, stored: seq<seq<seq<int>>>) {
    && StackHolds(stack, stored) && stack.chi == Pow2(p.chiBits) && p.records == stack.Size()
    && |p.flats| == |p.shapes| == |stack.levels| && p.base == stack.base
    && forall l :: 0 <= l < |p.shapes| ==> EncodesLevel(p, stack, l)
  }

  ghost predicate EncodesLevel(p: Program, stack: Stack, l: nat) {
    && l < |p.flats| && l < |p.shapes| && l < |stack.levels|
    && Flattened(p.flats[l], stack.levels[l])
    && p.shapes[l] == LevelShape(stack.levels[l].depth, stack.levels[l].bucketSize, WidthOf(stack.levels[l]))
  }

  /** Lay out an owner's stack for the circuit. */
  method Compile(stack: Stack, ghost stored: seq<seq<seq<int>>>, chiBits: nat) returns (p: Program)
    requires StackHolds(stack, stored) && stack.chi == Pow2(chiBits)
    ensures Encodes(p, stack, stored)
  {
    var flats: seq<seq<int>>, shapes: seq<LevelShape> := [], [];
    StackShape(stack, stored);
    hide *;
    for l := 0 to |stack.levels|
      invariant |flats| == |shapes| == l
      invariant forall i :: 0 <= i < l ==> CompiledLevel(flats[i], shapes[i], stack, i)
    {
      LevelFacts(stack, stored, l);
      var flat := Flatten(stack.levels[l]);
      var shape := LevelShape(stack.levels[l].depth, stack.levels[l].bucketSize, WidthOf(stack.levels[l]));
      assert CompiledLevel(flat, shape, stack, l) by {
        LevelCompiled(flat, shape, stack, l);
      }
      flats, shapes := flats + [flat], shapes + [shape];
    }
    p := Program(flats, stack.base, shapes, chiBits, stack.Size());
    Compiled(p, stack, stored);
  }

  ghost predicate CompiledLevel(flat: seq<int>, shape: LevelShape, stack: Stack, l: nat) {
    && l < |stack.levels| && Flattened(flat, stack.levels[l])
    && shape == LevelShape(stack.levels[l].depth, stack.levels[l].bucketSize, WidthOf(stack.levels[l]))
  }

  lemma {:induction false} LevelCompiled(flat: seq<int>, shape: LevelShape, stack: Stack, l: nat)
    requires l < |stack.levels| && Flattened(flat, stack.levels[l])
    requires shape == LevelShape(stack.levels[l].depth, stack.levels[l].bucketSize, WidthOf(stack.levels[l]))
    ensures CompiledLevel(flat, shape, stack, l)
  {
  }

  lemma {:induction false} Compiled(p: Program, stack: Stack, stored: seq<seq<seq<int>>>)
    requires StackHolds(stack, stored) && stack.chi == Pow2(p.chiBits) && |stack.levels| > 0
    requires p.records == stack.Size() && p.base == stack.base && |p.flats| == |p.shapes| == |stack.levels|
    requires forall i :: 0 <= i < |p.flats| ==> CompiledLevel(p.flats[i], p.shapes[i], stack, i)
    ensures Encodes(p, stack, stored)
  {
    hide StackHolds, Flattened;
  }

  // --- One access -----------------------------------------------------------------------------

  /** The access indices the circuit actually uses: out-of-range requests read record 0. */
  function Gated(p: Program, original: int): (address: nat)
    ensures p.records > 0 ==> address < p.records
    ensures 0 <= original < p.records ==> address == original
  {
    if 0 <= original < p.records then original else 0
  }

  /** The state of one access after the levels from `level` up. */
  ghost predicate Chain(p: Program, stack: Stack, stored: seq<seq<seq<int>>>, indices: seq<nat>, t: nat, dummy: (nat, nat) -> nat,
                        level: nat, leaf: int, cache: seq<seq<StashSlot>>, leaves: seq<nat>, dummies: seq<bool>)
  {
    && Encodes(p, stack, stored) && t < |indices| && indices[t] < stack.Size() && level <= |stored|
    && (level > 0 ==> IsLeafOf(stack, indices[t], level - 1, leaf))
    && CacheHolds(stack, stored, indices[..t], indices[t], level, cache)
    && Descended(stack, indices, dummy, t, level, leaves, dummies)
  }

  /** What the level read needs. */
  lemma {:induction false} ChainFacts(p: Program, stack: Stack, stored: seq<seq<seq<int>>>, indices: seq<nat>, t: nat, dummy: (nat, nat) -> nat,
                                      level: nat, leaf: int, cache: seq<seq<StashSlot>>, leaves: seq<nat>, dummies: seq<bool>)
    requires Chain(p, stack, stored, indices, t, dummy, level + 1, leaf, cache, leaves, dummies)
    ensures level < |stored| == |stack.levels| == |cache| == |p.flats| == |p.shapes| && stack.chi > 0 && indices[t] < stack.Size()
    ensures stack.chi == Pow2(p.chiBits) && p.records == stack.Size()
    ensures Flattened(p.flats[level], stack.levels[level]) && Holds(stack.levels[level], stored[level])
    ensures p.shapes[level].depth == stack.levels[level].depth && p.shapes[level].bucketSize == stack.levels[level].bucketSize
    ensures |stack.levels[level].fields| >= 4 && p.shapes[level].width == |stack.levels[level].fields| - 3 == WidthOf(stack.levels[level])
    ensures var wanted := LevelIndex(stack.chi, indices[t], level);
      && wanted < stack.levels[level].size == |stack.levels[level].positionMap|
      && leaf == stack.levels[level].positionMap[wanted] && 0 <= leaf < Pow2(p.shapes[level].depth)
    ensures SlotsHold(cache[level], stack.chi, indices[..t], level, stored[level], p.shapes[level].width)
  {
    assert EncodesLevel(p, stack, level);
    LevelFacts(stack, stored, level);
    LevelIndexInRange(stack, stored, indices[t], level);
    StackShape(stack, stored);
    hide LevelIndex, StackHolds, Flattened, Holds, SlotsHold, Descended;
  }

  /** The record just read holds `leaf` where the level below looks for it. */
  ghost predicate HasDigit(stack: Stack, address: nat, level: nat, value: seq<int>, leaf: int) {
    && stack.chi > 0 && Remainder(LevelIndex(stack.chi, address, level), stack.chi) < |value|
    && leaf == value[Remainder(LevelIndex(stack.chi, address, level), stack.chi)]
  }

  /** The record just read is long enough. */
  lemma {:induction false} ChainDigit(p: Program, stack: Stack, stored: seq<seq<seq<int>>>, indices: seq<nat>, t: nat, dummy: (nat, nat) -> nat,
                                      level: nat, leaf: int, cache: seq<seq<StashSlot>>, leaves: seq<nat>, dummies: seq<bool>,
                                      value: seq<int>, ok: int, shown: nat, slot: StashSlot)
    requires Chain(p, stack, stored, indices, t, dummy, level + 1, leaf, cache, leaves, dummies)
    requires level < |stored| && level < |stack.levels|
    requires LevelRead(stack.levels[level], stored[level], stack.chi, indices[..t], indices[t], level, dummy(t, level), value, ok, shown, slot)
    ensures ok == 1 && stack.chi > 0 && t < |indices|
    ensures level > 0 ==> Remainder(LevelIndex(stack.chi, indices[t], level - 1), stack.chi) < |value|
  {
    if level > 0 {
      DescentStep(stack, stored, indices[t], level);
    }
    hide StackHolds, Descended, CacheHolds, LevelIndex, Touched, LevelShows, IsLeafOf, Holds, EncodesLevel, SlotsHold, Flattened;
  }

  /** After the level read. */
  lemma {:induction false} ChainStep(p: Program, stack: Stack, stored: seq<seq<seq<int>>>, indices: seq<nat>, t: nat, dummy: (nat, nat) -> nat,
                                     level: nat, leaf: int, cache: seq<seq<StashSlot>>, leaves: seq<nat>, dummies: seq<bool>,
                                     value: seq<int>, ok: int, shown: nat, slot: StashSlot, leaf': int)
    requires Chain(p, stack, stored, indices, t, dummy, level + 1, leaf, cache, leaves, dummies)
    requires level < |stored| && level < |stack.levels| && level < |cache| && t < |cache[level]| && stack.chi > 0
    requires LevelRead(stack.levels[level], stored[level], stack.chi, indices[..t], indices[t], level, dummy(t, level), value, ok, shown, slot)
    requires level > 0 ==> HasDigit(stack, indices[t], level - 1, value, leaf')
    ensures t < |indices|
    ensures Chain(p, stack, stored, indices, t, dummy, level, leaf',
                  cache[level := cache[level][t := slot]], leaves + [shown], dummies + [Repeats(stack.chi, indices, t, level)])
    ensures level == 0 ==> stored != [] && indices[t] < |stored[0]| && value == stored[0][indices[t]]
  {
    ChainFacts(p, stack, stored, indices, t, dummy, level, leaf, cache, leaves, dummies);
    ChainShows(p, stack, stored, indices, t, dummy, level, leaf, cache, leaves, dummies, value, ok, shown, slot);
    DescendedStep(stack, indices, dummy, t, level, leaves, dummies, shown, Repeats(stack.chi, indices, t, level));
    CacheAppend(stack, stored, indices[..t], indices[t], level, cache, slot);
    if level > 0 {
      DescentStep(stack, stored, indices[t], level);
    } else {
      LevelIndexStep(stack.chi, indices[t], 0);
    }
    hide StackHolds, Descended, CacheHolds, LevelIndex, Touched, LevelShows, IsLeafOf, Holds, EncodesLevel, SlotsHold, Flattened;
  }

  lemma {:induction false} ChainShows(p: Program, stack: Stack, stored: seq<seq<seq<int>>>, indices: seq<nat>, t: nat, dummy: (nat, nat) -> nat,
                                      level: nat, leaf: int, cache: seq<seq<StashSlot>>, leaves: seq<nat>, dummies: seq<bool>,
                                      value: seq<int>, ok: int, shown: nat, slot: StashSlot)
    requires Chain(p, stack, stored, indices, t, dummy, level + 1, leaf, cache, leaves, dummies)
    requires level < |stored| && level < |stack.levels|
    requires LevelRead(stack.levels[level], stored[level], stack.chi, indices[..t], indices[t], level, dummy(t, level), value, ok, shown, slot)
    ensures stack.chi > 0 && LevelShows(stack, indices, dummy, t, level, shown, Repeats(stack.chi, indices, t, level))
    ensures SlotOf(slot, stack.chi, indices[..t] + [indices[t]], level, stored[level], WidthOf(stack.levels[level]), |indices[..t]|)
  {
    ChainFacts(p, stack, stored, indices, t, dummy, level, leaf, cache, leaves, dummies);
    hide Chain, LevelIndex, Touched, Holds, SlotOf, Flattened, SlotsHold;
  }

  /** Address bits, level by level. */
  lemma {:induction false} AddressSlices(p: Program, stack: Stack, stored: seq<seq<seq<int>>>, address: nat, level: nat)
    requires Encodes(p, stack, stored) && address < p.records
    ensures p.records > 0 && stack.chi > 0
    ensures var bits := Decompose(address, IndexBits(p.records));
      && Compose(Clip(bits, Times(level, p.chiBits), Times(level, p.chiBits) + |bits|)) == LevelIndex(stack.chi, address, level)
      && Compose(Clip(bits, Times(level, p.chiBits), Times(level, p.chiBits) + p.chiBits)) == Remainder(LevelIndex(stack.chi, address, level), stack.chi)
  {
    HighBitsAreIndex(address, IndexBits(p.records), p.chiBits, level);
    LowBitsAreDigit(address, IndexBits(p.records), p.chiBits, level);
    hide StackHolds, EncodesLevel, Decompose, Compose, Clip, IndexBits, Times;
  }

  /** One level of one access: read, and write the access's own stash slot. */
  method ReadAndCache(p: Program, ghost stack: Stack, ghost stored: seq<seq<seq<int>>>, ghost indices: seq<nat>, t: nat, bits: seq<int>,
                      dummy: (nat, nat) -> nat, level: nat, leaf: int, stash: ReplayStash, ghost leaves: seq<nat>, ghost dummies: seq<bool>)
    returns (value: seq<int>, ok: int, shown: nat, ghost slot: StashSlot)
    requires stash.Shaped() && t < stash.valid.Length1 && t < |indices|
    requires Chain(p, stack, stored, indices, t, dummy, level + 1, leaf, stash.Contents(), leaves, dummies)
    requires indices[t] < p.records && bits == Decompose(indices[t], IndexBits(p.records))
    modifies stash.valid, stash.index, stash.value
    ensures level < |stored| && level < |stack.levels| && level < stash.valid.Length0 && t < |old(stash.Contents())[level]|
    ensures stash.Contents() == old(stash.Contents())[level := old(stash.Contents())[level][t := slot]]
    ensures LevelRead(stack.levels[level], stored[level], stack.chi, indices[..t], indices[t], level, dummy(t, level), value, ok, shown, slot)
  {
    hide *;
    ghost var cache := stash.Contents();
    ChainLevels(p, stack, stored, indices, t, dummy, level, leaf, cache, leaves, dummies);
    RowOf(stash, level);
    var written;
    value, ok, shown, written := ReadOneTree(p, stack, stored, indices, t, bits, dummy, level, leaf, cache, stash.Row(level), leaves, dummies);
    slot := written;
    stash.Put(level, t, written);
  }

  lemma {:induction false} RowOf(stash: ReplayStash, level: nat)
    requires stash.Shaped() && level < |stash.Contents()|
    ensures level < stash.valid.Length0 && stash.Row(level) == stash.Contents()[level] && |stash.Contents()[level]| == stash.valid.Length1
  {
    hide ReplayStash.Row;
  }

  lemma {:induction false} ChainLevels(p: Program, stack: Stack, stored: seq<seq<seq<int>>>, indices: seq<nat>, t: nat, dummy: (nat, nat) -> nat,
                                       level: nat, leaf: int, cache: seq<seq<StashSlot>>, leaves: seq<nat>, dummies: seq<bool>)
    requires Chain(p, stack, stored, indices, t, dummy, level + 1, leaf, cache, leaves, dummies)
    ensures level < |stored| == |stack.levels| == |cache|
  {
    hide Encodes, Descended, IsLeafOf, SlotsHold;
  }

  /** The read of one level's tree, given the level's slots. */
  method ReadOneTree(p: Program, ghost stack: Stack, ghost stored: seq<seq<seq<int>>>, ghost indices: seq<nat>, t: nat, bits: seq<int>,
                     dummy: (nat, nat) -> nat, level: nat, leaf: int, ghost cache: seq<seq<StashSlot>>, slots: seq<StashSlot>,
                     ghost leaves: seq<nat>, ghost dummies: seq<bool>)
    returns (value: seq<int>, ok: int, shown: nat, slot: StashSlot)
    requires t < |indices| && Chain(p, stack, stored, indices, t, dummy, level + 1, leaf, cache, leaves, dummies)
    requires level < |cache| && slots == cache[level]
    requires indices[t] < p.records && bits == Decompose(indices[t], IndexBits(p.records))
    ensures level < |stored| && level < |stack.levels|
    ensures LevelRead(stack.levels[level], stored[level], stack.chi, indices[..t], indices[t], level, dummy(t, level), value, ok, shown, slot)
  {
    hide *;
    ChainFacts(p, stack, stored, indices, t, dummy, level, leaf, cache, leaves, dummies);
    ChainEncodes(p, stack, stored, indices, t, dummy, level + 1, leaf, cache, leaves, dummies);
    AddressSlices(p, stack, stored, indices[t], level);
    var levelIndex := Compose(Clip(bits, Times(level, p.chiBits), Times(level, p.chiBits) + |bits|));
    var shape := p.shapes[level];
    value, ok, shown, slot :=
      ReadLevel(p.flats[level], stack.levels[level], stored[level], slots, stack.chi, indices[..t], indices[t], level,
                levelIndex, leaf, t, shape.depth, shape.bucketSize, shape.width, dummy(t, level));
  }

  lemma {:induction false} ChainEncodes(p: Program, stack: Stack, stored: seq<seq<seq<int>>>, indices: seq<nat>, t: nat, dummy: (nat, nat) -> nat,
                                        level: nat, leaf: int, cache: seq<seq<StashSlot>>, leaves: seq<nat>, dummies: seq<bool>)
    requires Chain(p, stack, stored, indices, t, dummy, level, leaf, cache, leaves, dummies)
    ensures Encodes(p, stack, stored) && stack.chi > 0
  {
    StackShape(stack, stored);
  }

  /** The leaf of the level below, selected from the record just read. */
  method ChildLeaf(p: Program, ghost stack: Stack, ghost stored: seq<seq<seq<int>>>, ghost address: nat, bits: seq<int>, level: nat, value: seq<int>)
    returns (leaf: int)
    requires Encodes(p, stack, stored) && address < p.records && bits == Decompose(address, IndexBits(p.records)) && stack.chi > 0
    requires level > 0 ==> Remainder(LevelIndex(stack.chi, address, level - 1), stack.chi) < |value|
    ensures level > 0 ==> HasDigit(stack, address, level - 1, value, leaf)
  {
    leaf := 0;
    if level > 0 {
      hide Remainder, LevelIndex, Encodes, Times, Compose, Clip, Decompose, IndexBits;
      AddressSlices(p, stack, stored, address, level - 1);
      var childOffset := Compose(Clip(bits, Times(level - 1, p.chiBits), Times(level - 1, p.chiBits) + p.chiBits));
      leaf := SelectLabel(value, childOffset);
    }
  }

  /** One level of one access, and the leaf of the next. */
  method ReadOneLevel(p: Program, ghost stack: Stack, ghost stored: seq<seq<seq<int>>>, ghost indices: seq<nat>, t: nat, bits: seq<int>,
                      dummy: (nat, nat) -> nat, level: nat, leaf: int, stash: ReplayStash, leaves: seq<nat>, ghost dummies: seq<bool>)
    returns (value: seq<int>, ok: int, leaf': int, leaves': seq<nat>, ghost dummies': seq<bool>)
    requires stash.Shaped() && t < stash.valid.Length1 && t < |indices|
    requires Chain(p, stack, stored, indices, t, dummy, level + 1, leaf, stash.Contents(), leaves, dummies)
    requires indices[t] < p.records && bits == Decompose(indices[t], IndexBits(p.records))
    modifies stash.valid, stash.index, stash.value
    ensures Chain(p, stack, stored, indices, t, dummy, level, leaf', stash.Contents(), leaves', dummies')
    ensures ok == 1
    ensures level == 0 ==> stored != [] && indices[t] < |stored[0]| && value == stored[0][indices[t]]
  {
    hide *;
    ghost var cache := stash.Contents();
    var shown;
    ghost var slot;
    value, ok, shown, slot := ReadAndCache(p, stack, stored, indices, t, bits, dummy, level, leaf, stash, leaves, dummies);
    leaf', leaves', dummies' := FinishLevel(p, stack, stored, indices, t, bits, dummy, level, leaf, cache, leaves, dummies, value, ok, shown, slot);
  }

  /** After a level's read: the trace and the next leaf. */
  method FinishLevel(p: Program, ghost stack: Stack, ghost stored: seq<seq<seq<int>>>, ghost indices: seq<nat>, ghost t: nat, bits: seq<int>,
                     ghost dummy: (nat, nat) -> nat, level: nat, ghost leaf: int, ghost cache: seq<seq<StashSlot>>, leaves: seq<nat>,
                     ghost dummies: seq<bool>, value: seq<int>, ghost ok: int, shown: nat, ghost slot: StashSlot)
    returns (leaf': int, leaves': seq<nat>, ghost dummies': seq<bool>)
    requires Chain(p, stack, stored, indices, t, dummy, level + 1, leaf, cache, leaves, dummies)
    requires t < |indices| && indices[t] < p.records && bits == Decompose(indices[t], IndexBits(p.records))
    requires level < |stored| && level < |stack.levels| && level < |cache| && t < |cache[level]|
    requires LevelRead(stack.levels[level], stored[level], stack.chi, indices[..t], indices[t], level, dummy(t, level), value, ok, shown, slot)
    ensures Chain(p, stack, stored, indices, t, dummy, level, leaf', cache[level := cache[level][t := slot]], leaves', dummies')
    ensures ok == 1
    ensures level == 0 ==> stored != [] && indices[t] < |stored[0]| && value == stored[0][indices[t]]
  {
    hide *;
    ChainEncodes(p, stack, stored, indices, t, dummy, level + 1, leaf, cache, leaves, dummies);
    ChainDigit(p, stack, stored, indices, t, dummy, level, leaf, cache, leaves, dummies, value, ok, shown, slot);
    leaf' := ChildLeaf(p, stack, stored, indices[t], bits, level, value);
    ChainStep(p, stack, stored, indices, t, dummy, level, leaf, cache, leaves, dummies, value, ok, shown, slot, leaf');
    leaves', dummies' := leaves + [shown], dummies + [Repeats(stack.chi, indices, t, level)];
  }

  lemma {:induction false} ChainStarts(p: Program, stack: Stack, stored: seq<seq<seq<int>>>, indices: seq<nat>, t: nat, dummy: (nat, nat) -> nat,
                                       cache: seq<seq<StashSlot>>)
    requires Encodes(p, stack, stored) && t < |indices| && indices[t] < stack.Size()
    requires Cached(stack, stored, indices[..t], cache)
    ensures |stack.levels| == |stored| == |p.shapes| > 0 && stack.chi > 0 && indices[t] < p.records
    ensures LevelIndex(stack.chi, indices[t], |stack.levels| - 1) < |p.base|
    ensures Chain(p, stack, stored, indices, t, dummy, |stored|,
                  p.base[LevelIndex(stack.chi, indices[t], |stack.levels| - 1)], cache, [], [])
  {
    StackShape(stack, stored);
    BaseLeaf(stack, stored, indices[t]);
    CachedBetween(stack, stored, indices[..t], indices[t], cache);
    hide StackHolds, CacheHolds, Cached, LevelIndex, IsLeafOf, EncodesLevel;
  }

  /** The stash between accesses. */
  ghost predicate Cached(stack: Stack, stored: seq<seq<seq<int>>>, history: seq<nat>, cache: seq<seq<StashSlot>>) {
    && |cache| == |stored| == |stack.levels|
    && forall l :: 0 <= l < |cache| ==>
      SlotsHold(cache[l], stack.chi, history, l, stored[l], WidthOf(stack.levels[l]))
  }

  lemma {:induction false} CachedBetween(stack: Stack, stored: seq<seq<seq<int>>>, history: seq<nat>, index: nat, cache: seq<seq<StashSlot>>)
    ensures Cached(stack, stored, history, cache) ==> CacheHolds(stack, stored, history, index, |stored|, cache)
    ensures CacheHolds(stack, stored, history, index, 0, cache) ==> Cached(stack, stored, history + [index], cache)
  {
    hide SlotsHold;
  }

  lemma {:induction false} ChainEnds(p: Program, stack: Stack, stored: seq<seq<seq<int>>>, indices: seq<nat>, t: nat, dummy: (nat, nat) -> nat,
                                     leaf: int, cache: seq<seq<StashSlot>>, leaves: seq<nat>, dummies: seq<bool>)
    requires Chain(p, stack, stored, indices, t, dummy, 0, leaf, cache, leaves, dummies)
    ensures Encodes(p, stack, stored) && Cached(stack, stored, indices[..t + 1], cache)
    ensures AccessShows(stack, indices, dummy, t, Reversed(leaves), Reversed(dummies))
  {
    CachedBetween(stack, stored, indices[..t], indices[t], cache);
    assert indices[..t + 1] == indices[..t] + [indices[t]];
    DescendedAll(stack, indices, dummy, t, leaves, dummies);
    hide Encodes, Cached, CacheHolds;
  }

  /** `address_ok`. */
  function AddressOk(p: Program, original: int): (ok: int)
    ensures ok == if 0 <= original < p.records then 1 else 0
  {
    Not(Less(original, 0)) * Less(original, p.records)
  }

  lemma {:induction false} GatedAddress(p: Program, original: int)
    ensures IfElse(AddressOk(p, original), original, 0) == Gated(p, original)
  {
  }

  /** `chain_valid *= found`. */
  function StillValid(chainValid: int, found: int): (r: int)
    ensures found == 1 ==> r == chainValid
  {
    chainValid * found
  }

  /** The address bits and the top level's leaf, from the scanned base. */
  method OpenTop(p: Program, ghost stack: Stack, ghost stored: seq<seq<seq<int>>>, address: nat) returns (bits: seq<int>, leaf: int)
    requires Encodes(p, stack, stored) && address < p.records && stack.chi > 0 && |p.shapes| == |stack.levels| > 0
    requires LevelIndex(stack.chi, address, |stack.levels| - 1) < |p.base|
    ensures p.records > 0 && bits == Decompose(address, IndexBits(p.records))
    ensures leaf == p.base[LevelIndex(stack.chi, address, |stack.levels| - 1)]
  {
    hide *;
    var top := |p.shapes| - 1;
    AddressSlices(p, stack, stored, address, top);
    bits := Decompose(address, IndexBits(p.records));
    var topIndex := Compose(Clip(bits, Times(top, p.chiBits), Times(top, p.chiBits) + |bits|));
    leaf := SelectLabel(p.base, topIndex);
  }

  /** One round of the descent. */
  method Descend(p: Program, ghost stack: Stack, ghost stored: seq<seq<seq<int>>>, ghost indices: seq<nat>, t: nat, bits: seq<int>,
                 dummy: (nat, nat) -> nat, level: nat, leaf: int, stash: ReplayStash, leaves: seq<nat>, ghost dummies: seq<bool>, before: int)
    returns (value: seq<int>, chainValid: int, leaf': int, leaves': seq<nat>, ghost dummies': seq<bool>)
    requires stash.Shaped() && t < stash.valid.Length1 && t < |indices|
    requires Chain(p, stack, stored, indices, t, dummy, level + 1, leaf, stash.Contents(), leaves, dummies)
    requires indices[t] < p.records && bits == Decompose(indices[t], IndexBits(p.records))
    modifies stash.valid, stash.index, stash.value
    ensures Chain(p, stack, stored, indices, t, dummy, level, leaf', stash.Contents(), leaves', dummies')
    ensures chainValid == before
    ensures level == 0 ==> stored != [] && indices[t] < |stored[0]| && value == stored[0][indices[t]]
  {
    hide *;
    var found;
    value, found, leaf', leaves', dummies' := ReadOneLevel(p, stack, stored, indices, t, bits, dummy, level, leaf, stash, leaves, dummies);
    chainValid := StillValid(before, found);
  }

  /** `read_owner`: one recursive access, served by the rendered circuit. */
  method ReadOwner(p: Program, ghost stack: Stack, ghost stored: seq<seq<seq<int>>>, ghost indices: seq<nat>, t: nat, original: int,
                   dummy: (nat, nat) -> nat, stash: ReplayStash)
    returns (value: seq<int>, chainValid: int, leaves: seq<nat>, ghost dummies: seq<bool>)
    requires Encodes(p, stack, stored) && stash.Shaped() && t < stash.valid.Length1
    requires t < |indices| && indices[t] == Gated(p, original) && indices[t] < p.records == stack.Size()
    requires Cached(stack, stored, indices[..t], stash.Contents())
    modifies stash.valid, stash.index, stash.value
    ensures Cached(stack, stored, indices[..t + 1], stash.Contents())
    ensures stored != [] && indices[t] < |stored[0]| && value == stored[0][indices[t]]
    ensures chainValid == if 0 <= original < p.records then 1 else 0
    ensures AccessShows(stack, indices, dummy, t, leaves, dummies)
  {
    hide *;
    ChainStarts(p, stack, stored, indices, t, dummy, stash.Contents());
    GatedAddress(p, original);
    var address := IfElse(AddressOk(p, original), original, 0);
    var bits, leaf := OpenTop(p, stack, stored, address);
    chainValid, leaves, value, dummies := AddressOk(p, original), [], [], [];
    for level := |p.shapes| downto 0
      invariant Chain(p, stack, stored, indices, t, dummy, level, leaf, stash.Contents(), leaves, dummies)
      invariant chainValid == AddressOk(p, original)
      invariant level == 0 ==> indices[t] < |stored[0]| && value == stored[0][indices[t]]
    {
      value, chainValid, leaf, leaves, dummies := Descend(p, stack, stored, indices, t, bits, dummy, level, leaf, stash, leaves, dummies, chainValid);
    }
    ChainEnds(p, stack, stored, indices, t, dummy, leaf, stash.Contents(), leaves, dummies);
    leaves, dummies := Reversed(leaves), Reversed(dummies);
  }

  // --- A whole epoch ------------------------------------------------------------------------------

  /** The addresses the circuit reads for the requested ones. */
  function GatedAll(p: Program, originals: seq<int>): (r: seq<nat>)
    ensures |r| == |originals| && forall t :: 0 <= t < |r| ==> r[t] == Gated(p, originals[t])
  {
    if originals == [] then [] else GatedAll(p, originals[..|originals| - 1]) + [Gated(p, originals[|originals| - 1])]
  }

  /** What the circuit must produce for access `t`. */
  ghost predicate Served(p: Program, stack: Stack, stored: seq<seq<seq<int>>>, originals: seq<int>, dummy: (nat, nat) -> nat, t: nat,
                         value: seq<int>, valid: int, leaves: seq<nat>)
  {
    && t < |originals| && stored != [] && Gated(p, originals[t]) < |stored[0]|
    && value == stored[0][Gated(p, originals[t])]
    && valid == (if 0 <= originals[t] < p.records then 1 else 0)
    && exists dummies :: AccessShows(stack, GatedAll(p, originals), dummy, t, leaves, dummies)
  }

  lemma {:induction false} IsServed(p: Program, stack: Stack, stored: seq<seq<seq<int>>>, originals: seq<int>, dummy: (nat, nat) -> nat, t: nat,
                                    value: seq<int>, valid: int, leaves: seq<nat>, dummies: seq<bool>)
    requires t < |originals| && stored != [] && Gated(p, originals[t]) < |stored[0]|
    requires value == stored[0][Gated(p, originals[t])] && valid == if 0 <= originals[t] < p.records then 1 else 0
    requires AccessShows(stack, GatedAll(p, originals), dummy, t, leaves, dummies)
    ensures Served(p, stack, stored, originals, dummy, t, value, valid, leaves)
  {
    hide AccessShows;
  }

  lemma {:induction false} NothingCached(p: Program, stack: Stack, stored: seq<seq<seq<int>>>, cache: seq<seq<StashSlot>>)
    requires Encodes(p, stack, stored) && |cache| == |stack.levels|
    ensures Cached(stack, stored, [], cache) && p.records == stack.Size() && |p.shapes| == |stack.levels| && p.records > 0
  {
    StackShape(stack, stored);
    forall l | 0 <= l < |cache|
      ensures SlotsHold(cache[l], stack.chi, [], l, stored[l], WidthOf(stack.levels[l]))
    {
      LevelFacts(stack, stored, l);
    }
  }

  /**
   * The circuit over an epoch of accesses: served exactly when the public schedule fits the
   * stash, whatever the secret addresses are.
   */
  method RunEpoch(p: Program, ghost stack: Stack, ghost stored: seq<seq<seq<int>>>, originals: seq<int>, maxAccesses: nat, dummy: (nat, nat) -> nat)
    returns (r: Result<(seq<seq<int>>, seq<int>, seq<seq<nat>>)>, stash: ReplayStash)
    requires Encodes(p, stack, stored)
    ensures r.Ok? <==> |originals| <= maxAccesses
    ensures stash.Shaped() && (r.Ok? ==> Cached(stack, stored, GatedAll(p, originals), stash.Contents()))
    ensures r.Ok? ==> |r.value.0| == |r.value.1| == |r.value.2| == |originals|
    ensures r.Ok? ==> forall t :: 0 <= t < |originals| ==>
      Served(p, stack, stored, originals, dummy, t, r.value.0[t], r.value.1[t], r.value.2[t])
  {
    stash := new ReplayStash(|p.shapes|, maxAccesses);
    if |originals| > maxAccesses {
      return Err(EpochExhausted), stash;
    }
    ghost var all := GatedAll(p, originals);
    assert |p.shapes| == |stack.levels|;
    NothingCached(p, stack, stored, stash.Contents());
    assert all[..0] == [];
    hide *;
    var values: seq<seq<int>>, valids: seq<int>, revealed: seq<seq<nat>> := [], [], [];
    for t := 0 to |originals|
      invariant |values| == |valids| == |revealed| == t
      invariant Cached(stack, stored, all[..t], stash.Contents())
      invariant forall i :: 0 <= i < t ==> Served(p, stack, stored, originals, dummy, i, values[i], valids[i], revealed[i])
    {
      var value, valid, leaves;
      ghost var dummies;
      value, valid, leaves, dummies := ReadOwner(p, stack, stored, all, t, originals[t], dummy, stash);
      IsServed(p, stack, stored, originals, dummy, t, value, valid, leaves, dummies);
      values, valids, revealed := values + [value], valids + [valid], revealed + [leaves];
    }
    assert all[..|originals|] == all;
    r := Ok((values, valids, revealed));
  }

  // --- Refinement -------------------------------------------------------------------------------------

  /** The leaves of an access are determined by the accesses and the dummies drawn. */
  lemma {:induction false} ShowsUnique(stack: Stack, indices: seq<nat>, dummy: (nat, nat) -> nat, t: nat,
                                       leaves: seq<nat>, dummies: seq<bool>, leaves': seq<nat>, dummies': seq<bool>)
    requires AccessShows(stack, indices, dummy, t, leaves, dummies) && AccessShows(stack, indices, dummy, t, leaves', dummies')
    ensures leaves == leaves' && dummies == dummies'
  {
    forall level | 0 <= level < |leaves|
      ensures leaves[level] == leaves'[level] && dummies[level] == dummies'[level]
    {
      assert LevelShows(stack, indices, dummy, t, level, leaves[level], dummies[level]);
      assert LevelShows(stack, indices, dummy, t, level, leaves'[level], dummies'[level]);
    }
    assert leaves == leaves' && dummies == dummies';
  }

  /**
   * The circuit refines the simulation: on any requests, with the same dummies, it opens the
   * same leaves and returns the same records as the dictionary-stash run over the gated
   * addresses, and marks exactly the in-range requests valid.
   */
  lemma {:induction false} CircuitRefines(p: Program, stack: Stack, stored: seq<seq<seq<int>>>, originals: seq<int>, dummy: (nat, nat) -> nat,
                                          trace: Trace, values: seq<seq<int>>, valids: seq<int>, leaves: seq<seq<nat>>)
    requires Faithful(stack, stored, GatedAll(p, originals), dummy, trace)
    requires |values| == |valids| == |leaves| == |originals|
    requires forall t :: 0 <= t < |originals| ==> Served(p, stack, stored, originals, dummy, t, values[t], valids[t], leaves[t])
    ensures values == trace.results && leaves == trace.revealed
    ensures forall t :: 0 <= t < |originals| ==> (valids[t] == 1 <==> 0 <= originals[t] < p.records)
  {
    forall t | 0 <= t < |originals|
      ensures values[t] == trace.results[t] && leaves[t] == trace.revealed[t]
      ensures valids[t] == 1 <==> 0 <= originals[t] < p.records
    {
      assert Served(p, stack, stored, originals, dummy, t, values[t], valids[t], leaves[t]);
      assert AccessShows(stack, GatedAll(p, originals), dummy, t, trace.revealed[t], trace.dummyLevels[t]);
      var dummies :| AccessShows(stack, GatedAll(p, originals), dummy, t, leaves[t], dummies);
      hide AccessShows;
      ShowsUnique(stack, GatedAll(p, originals), dummy, t, leaves[t], dummies, trace.revealed[t], trace.dummyLevels[t]);
    }
    hide Served;
  }
}
