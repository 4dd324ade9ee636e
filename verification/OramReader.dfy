// The rendered reader: address gating, level indices from address bits, the
// descent through the levels, and the arrays that cache every access.
module OramReader {
  import opened Gates
  import opened Bits
  import opened OramTree
  import opened OramStack
  import opened OramAccess
  import opened OramCircuit
  import opened ObliviousRead

  // --- Level indices as bit slices ---------------------------------------------------

  /** `bits[lo:hi]`, clipped the way slices are. */
  function Clip(bits: seq<int>, lo: nat, hi: nat): seq<int>
    requires lo <= hi
  {
    bits[if lo <= |bits| then lo else |bits|..if hi <= |bits| then hi else |bits|]
  }

  lemma {:induction false} PowerOfPow2(b: nat, l: nat)
    ensures Power(Pow2(b), l) == Pow2(Times(l, b))
  {
    TimesFacts(l, b);
    hide Times;
    if l > 0 {
      PowerOfPow2(b, l - 1);
      Pow2Add(b, Times(l - 1, b));
    }
  }

  /** Clipping does not change the number the bits stand for. */
  lemma {:induction false} ComposeClip(a: nat, n: nat, lo: nat, hi: nat)
    requires lo <= hi && a < Pow2(n)
    ensures Compose(Clip(Decompose(a, n), lo, hi)) == Field(a, lo, hi)
  {
    var from, to := if lo <= n then lo else n, if hi <= n then hi else n;
    ComposeSlice(a, n, from, to);
    if n < hi {
      Pow2Monotone(n, hi);
      if n < lo {
        Pow2Monotone(n, lo);
        SmallQuotient(a, Pow2(lo));
        SmallQuotient(0, Pow2(hi - lo));
        SmallQuotient(a, Pow2(n));
        SmallQuotient(0, Pow2(0));
      } else {
        Pow2Add(lo, n - lo);
        QuotientBound(a, Pow2(lo), Pow2(n - lo));
        Pow2Monotone(n - lo, hi - lo);
        SmallQuotient(Quotient(a, Pow2(lo)), Pow2(n - lo));
        SmallQuotient(Quotient(a, Pow2(lo)), Pow2(hi - lo));
      }
    }
  }

  /** The high bits of an address are its index at a level. */
  lemma {:induction false} HighBitsAreIndex(a: nat, n: nat, b: nat, level: nat)
    requires a < Pow2(n)
    ensures Compose(Clip(Decompose(a, n), Times(level, b), Times(level, b) + n)) == LevelIndex(Pow2(b), a, level)
  {
    PowerOfPow2(b, level);
    var lo := Times(level, b);
    ComposeClip(a, n, lo, lo + n);
    QuotientAtMost(a, Pow2(lo));
    SmallQuotient(Quotient(a, Pow2(lo)), Pow2(n));
  }

  lemma {:induction false} QuotientAtMost(a: nat, d: nat)
    requires d > 0
    ensures Quotient(a, d) <= a
  {
    DivMod(a, d);
    ProductOrder(1, d, Quotient(a, d));
    hide Quotient, Remainder;
    assert Quotient(a, d) * d == d * Quotient(a, d);
  }

  /** The next `b` bits down are the position inside the record. */
  lemma {:induction false} LowBitsAreDigit(a: nat, n: nat, b: nat, level: nat)
    requires a < Pow2(n)
    ensures Compose(Clip(Decompose(a, n), Times(level, b), Times(level, b) + b)) == Remainder(LevelIndex(Pow2(b), a, level), Pow2(b))
  {
    PowerOfPow2(b, level);
    ComposeClip(a, n, Times(level, b), Times(level, b) + b);
  }

  /** `sum((index == i) * labels[i])`. */
  method SelectLabel(labels: seq<int>, index: nat) returns (label': int)
    ensures label' == if index < |labels| then labels[index] else 0
  {
    label' := 0;
    for i := 0 to |labels|
      invariant label' == if index < i then labels[index] else 0
    {
      label' := label' + Equal(index, i) * labels[i];
    }
  }

  // --- The stash scan ----------------------------------------------------------------------

  /** The scan of the slots written by the first `s` accesses. */
  ghost predicate Found(chi: nat, history: seq<nat>, level: nat, records: seq<seq<int>>, width: nat, wanted: nat, s: nat, hit: int, cached: seq<int>) {
    && chi > 0 && s <= |history| && wanted < |records|
    && hit == (if wanted in Touched(chi, history[..s], level) then 1 else 0)
    && cached == if hit == 1 then records[wanted] else ZeroRow(width)
  }

  /** `same`, `take`, and the accumulators of the stash scan. */
  function Recall(slot: StashSlot, wanted: int, hit: int, cached: seq<int>): (int, seq<int>)
    requires |slot.value| == |cached|
  {
    var take := slot.valid * Equal(slot.index, wanted) * Not(hit);
    (hit + take, AddScaled(cached, take, slot.value))
  }

  lemma {:induction false} RecallStep(slots: seq<StashSlot>, chi: nat, history: seq<nat>, level: nat, records: seq<seq<int>>, width: nat,
                                      wanted: nat, s: nat, hit: int, cached: seq<int>)
    requires SlotsHold(slots, chi, history, level, records, width) && s < |history|
    requires Found(chi, history, level, records, width, wanted, s, hit, cached)
    ensures s < |slots| && |slots[s].value| == |cached|
    ensures var (hit', cached') := Recall(slots[s], wanted, hit, cached);
      Found(chi, history, level, records, width, wanted, s + 1, hit', cached')
  {
    var slot := slots[s];
    assert SlotOf(slot, chi, history, level, records, width, s);
    assert history[..s + 1] == history[..s] + [history[s]];
    TouchedSnoc(chi, history[..s], history[s], level);
    hide LevelIndex, Touched;
    var take := slot.valid * Equal(slot.index, wanted) * Not(hit);
    assert take == if LevelIndex(chi, history[s], level) == wanted && hit == 0 then 1 else 0;
    AddScaledBit(cached, take, slot.value);
  }

  lemma {:induction false} NothingFound(chi: nat, history: seq<nat>, level: nat, records: seq<seq<int>>, width: nat, wanted: nat)
    requires chi > 0 && wanted < |records|
    ensures Found(chi, history, level, records, width, wanted, 0, 0, ZeroRow(width))
  {
    assert history[..0] == [];
  }

  lemma {:induction false} FoundAll(chi: nat, history: seq<nat>, level: nat, records: seq<seq<int>>, width: nat, wanted: nat, hit: int, cached: seq<int>)
    requires Found(chi, history, level, records, width, wanted, |history|, hit, cached)
    ensures IsBit(hit) && wanted < |records| && (hit == 1 <==> wanted in Touched(chi, history, level))
    ensures cached == if hit == 1 then records[wanted] else ZeroRow(width)
  {
    assert history[..|history|] == history;
  }

  method ScanStash(slots: seq<StashSlot>, accessNumber: nat, wanted: nat, width: nat,
                   ghost chi: nat, ghost history: seq<nat>, ghost level: nat, ghost records: seq<seq<int>>)
    returns (hit: int, cached: seq<int>)
    requires SlotsHold(slots, chi, history, level, records, width) && accessNumber == |history| && wanted < |records|
    ensures IsBit(hit) && (hit == 1 <==> wanted in Touched(chi, history, level))
    ensures cached == if hit == 1 then records[wanted] else ZeroRow(width)
  {
    hit, cached := 0, ZeroRow(width);
    NothingFound(chi, history, level, records, width, wanted);
    hide *;
    for slot := 0 to accessNumber
      invariant Found(chi, history, level, records, width, wanted, slot, hit, cached)
    {
      RecallStep(slots, chi, history, level, records, width, wanted, slot, hit, cached);
      var next := Recall(slots[slot], wanted, hit, cached);
      hit, cached := next.0, next.1;
    }
    FoundAll(chi, history, level, records, width, wanted, hit, cached);
  }

  // --- One level -----------------------------------------------------------------------------

  /** `cond.if_else(a, b)` on rows. */
  function Choose(cond: int, a: seq<int>, b: seq<int>): (r: seq<int>)
    requires |a| == |b|
    ensures |r| == |a| && forall i :: 0 <= i < |r| ==> r[i] == IfElse(cond, a[i], b[i])
  {
    seq(|a|, i requires 0 <= i < |a| => IfElse(cond, a[i], b[i]))
  }

  lemma {:induction false} ChooseBit(cond: int, a: seq<int>, b: seq<int>)
    requires |a| == |b| && IsBit(cond)
    ensures Choose(cond, a, b) == if cond == 1 then a else b
  {
  }

  /** What access `accessNumber` writes into its own slot. */
  function Written(write: int, wanted: int, fetched: seq<int>): StashSlot {
    StashSlot(write, write * wanted, AddScaled(ZeroRow(|fetched|), write, fetched))
  }

  lemma {:induction false} WrittenBit(write: int, wanted: int, fetched: seq<int>)
    requires IsBit(write)
    ensures Written(write, wanted, fetched) == if write == 1 then StashSlot(1, wanted, fetched) else StashSlot(0, 0, ZeroRow(|fetched|))
  {
    AddScaledBit(ZeroRow(|fetched|), write, fetched);
  }

  /** The outcome of one level read, in terms of the accesses so far and the current one. */
  ghost predicate LevelRead(tree: Tree, records: seq<seq<int>>, chi: nat, history: seq<nat>, index: nat, level: nat, dummy: nat,
                            value: seq<int>, ok: int, shown: nat, slot: StashSlot)
  {
    && chi > 0 && tree.Shaped() && |records| == tree.size && LevelIndex(chi, index, level) < tree.size
    && value == records[LevelIndex(chi, index, level)] && ok == 1
    && shown == (if LevelIndex(chi, index, level) in Touched(chi, history, level)
                 then Remainder(dummy, Pow2(tree.depth)) else tree.positionMap[LevelIndex(chi, index, level)])
    && SlotOf(slot, chi, history + [index], level, records, |tree.fields| - 3, |history|)
  }

  /** The state of a level read once the path has been scanned. */
  ghost predicate PathRead(tree: Tree, records: seq<seq<int>>, wanted: nat, dummy: nat, realLeaf: nat,
                           hit: int, cached: seq<int>, shown: nat, found: int, fetched: seq<int>)
  {
    && Holds(tree, records) && wanted < tree.size && IsBit(hit)
    && cached == (if hit == 1 then records[wanted] else ZeroRow(|tree.fields| - 3))
    && shown == (if hit == 1 then Remainder(dummy, Pow2(tree.depth)) else realLeaf)
    && |fetched| == |tree.fields| - 3
    && (hit == 0 ==> found == 1 && fetched == records[wanted])
  }

  lemma {:induction false} PathReadIs(tree: Tree, records: seq<seq<int>>, wanted: nat, dummy: nat, realLeaf: nat,
                                      hit: int, cached: seq<int>, shown: nat, found: int, fetched: seq<int>)
    requires Holds(tree, records) && wanted < tree.size && realLeaf == tree.positionMap[wanted] && IsBit(hit)
    requires cached == if hit == 1 then records[wanted] else ZeroRow(|tree.fields| - 3)
    requires shown == if hit == 1 then Remainder(dummy, Pow2(tree.depth)) else realLeaf
    requires IsBit(found) && fetched == if found == 1 then records[wanted] else ZeroRow(|tree.fields| - 3)
    requires shown == tree.positionMap[wanted] ==> found == 1
    ensures PathRead(tree, records, wanted, dummy, realLeaf, hit, cached, shown, found, fetched)
  {
    RecordWidth(tree, records, wanted);
  }

  /** Scan the stash, then open one path. */
  method OpenPath(flat: seq<int>, ghost tree: Tree, ghost records: seq<seq<int>>, slots: seq<StashSlot>,
                  ghost chi: nat, ghost history: seq<nat>, ghost level: nat,
                  wanted: nat, realLeaf: nat, accessNumber: nat, depth: nat, bucketSize: nat, width: nat, dummy: nat)
    returns (hit: int, cached: seq<int>, shown: nat, found: int, fetched: seq<int>)
    requires Flattened(flat, tree) && Holds(tree, records)
    requires depth == tree.depth && bucketSize == tree.bucketSize && width == |tree.fields| - 3
    requires wanted < tree.size == |tree.positionMap| && realLeaf == tree.positionMap[wanted] && realLeaf < Pow2(depth)
    requires SlotsHold(slots, chi, history, level, records, width) && accessNumber == |history|
    ensures chi > 0 && (hit == 1 <==> wanted in Touched(chi, history, level))
    ensures PathRead(tree, records, wanted, dummy, realLeaf, hit, cached, shown, found, fetched)
  {
    RecordWidth(tree, records, wanted);
    SlotsPositive(slots, chi, history, level, records, width);
    hide *;
    hit, cached := ScanStash(slots, accessNumber, wanted, width, chi, history, level, records);
    shown := Opening(hit, dummy, realLeaf, depth);
    ghost var visited;
    found, fetched, visited := ReadPath(flat, tree, records, wanted, shown, depth, bucketSize, width);
    PathReadIs(tree, records, wanted, dummy, realLeaf, hit, cached, shown, found, fetched);
  }

  lemma {:induction false} SlotsPositive(slots: seq<StashSlot>, chi: nat, history: seq<nat>, level: nat, records: seq<seq<int>>, width: nat)
    requires SlotsHold(slots, chi, history, level, records, width)
    ensures chi > 0
  {
  }

  /** `read_oram_level` up to the write of its slot. */
  method ReadLevel(flat: seq<int>, ghost tree: Tree, ghost records: seq<seq<int>>, slots: seq<StashSlot>,
                   ghost chi: nat, ghost history: seq<nat>, ghost index: nat, ghost level: nat,
                   wanted: nat, realLeaf: nat, accessNumber: nat, depth: nat, bucketSize: nat, width: nat, dummy: nat)
    returns (value: seq<int>, ok: int, shown: nat, slot: StashSlot)
    requires Flattened(flat, tree) && Holds(tree, records)
    requires depth == tree.depth && bucketSize == tree.bucketSize && width == |tree.fields| - 3
    requires chi > 0 && wanted == LevelIndex(chi, index, level) && wanted < tree.size == |tree.positionMap|
    requires realLeaf == tree.positionMap[wanted] && realLeaf < Pow2(depth)
    requires SlotsHold(slots, chi, history, level, records, width) && accessNumber == |history|
    ensures LevelRead(tree, records, chi, history, index, level, dummy, value, ok, shown, slot)
  {
    hide *;
    var hit, cached, found, fetched;
    hit, cached, shown, found, fetched :=
      OpenPath(flat, tree, records, slots, chi, history, level, wanted, realLeaf, accessNumber, depth, bucketSize, width, dummy);
    SelectedWidths(tree, records, wanted, dummy, realLeaf, hit, cached, shown, found, fetched);
    value := Choose(hit, cached, fetched);
    ok := IfElse(hit, 1, found);
    slot := Written(Not(hit), wanted, fetched);
    LevelReadIs(tree, records, chi, history, index, level, dummy, realLeaf, hit, cached, shown, found, fetched);
  }

  lemma {:induction false} SelectedWidths(tree: Tree, records: seq<seq<int>>, wanted: nat, dummy: nat, realLeaf: nat,
                                          hit: int, cached: seq<int>, shown: nat, found: int, fetched: seq<int>)
    requires PathRead(tree, records, wanted, dummy, realLeaf, hit, cached, shown, found, fetched)
    ensures |cached| == |fetched|
  {
    RecordWidth(tree, records, wanted);
  }

  /** The revealed leaf: a fresh dummy for a hit, the real one otherwise. */
  function Opening(hit: int, dummy: nat, realLeaf: nat, depth: nat): (shown: nat)
    requires IsBit(hit) && realLeaf < Pow2(depth)
    ensures shown < Pow2(depth)
    ensures shown == if hit == 1 then Remainder(dummy, Pow2(depth)) else realLeaf
  {
    IfElse(hit, Remainder(dummy, Pow2(depth)), realLeaf)
  }

  lemma {:induction false} WriteFlag(hit: int)
    requires IsBit(hit)
    ensures IsBit(Not(hit)) && (Not(hit) == 1 <==> hit == 0) && (hit == 0 || hit == 1)
  {
  }

  lemma {:induction false} RecordWidth(tree: Tree, records: seq<seq<int>>, wanted: nat)
    requires Holds(tree, records) && wanted < tree.size
    ensures |records| == tree.size && |records[wanted]| == |tree.fields| - 3
  {
  }

  /** The result gates, once the path has been read. */
  lemma {:induction false} LevelReadIs(tree: Tree, records: seq<seq<int>>, chi: nat, history: seq<nat>, index: nat, level: nat, dummy: nat,
                                       realLeaf: nat, hit: int, cached: seq<int>, shown: nat, found: int, fetched: seq<int>)
    requires chi > 0 && LevelIndex(chi, index, level) < tree.size == |tree.positionMap|
    requires realLeaf == tree.positionMap[LevelIndex(chi, index, level)]
    requires hit == 1 <==> LevelIndex(chi, index, level) in Touched(chi, history, level)
    requires PathRead(tree, records, LevelIndex(chi, index, level), dummy, realLeaf, hit, cached, shown, found, fetched)
    requires |cached| == |fetched|
    ensures LevelRead(tree, records, chi, history, index, level, dummy, Choose(hit, cached, fetched), IfElse(hit, 1, found), shown,
                      Written(Not(hit), LevelIndex(chi, index, level), fetched))
  {
    hide *;
    var wanted := LevelIndex(chi, index, level);
    PathReadFacts(tree, records, wanted, dummy, realLeaf, hit, cached, shown, found, fetched);
    ResultGates(hit, cached, found, fetched, wanted);
    var slot := Written(Not(hit), wanted, fetched);
    SlotWritten(chi, history, index, level, records, |tree.fields| - 3, slot);
    var value, ok := Choose(hit, cached, fetched), IfElse(hit, 1, found);
    LevelReadFrom(tree, records, chi, history, index, level, dummy, value, ok, shown, slot);
  }

  lemma {:induction false} LevelReadFrom(tree: Tree, records: seq<seq<int>>, chi: nat, history: seq<nat>, index: nat, level: nat, dummy: nat,
                                         value: seq<int>, ok: int, shown: nat, slot: StashSlot)
    requires chi > 0 && tree.Shaped() && |records| == tree.size && LevelIndex(chi, index, level) < tree.size
    requires value == records[LevelIndex(chi, index, level)] && ok == 1
    requires shown == (if LevelIndex(chi, index, level) in Touched(chi, history, level)
                       then Remainder(dummy, Pow2(tree.depth)) else tree.positionMap[LevelIndex(chi, index, level)])
    requires SlotOf(slot, chi, history + [index], level, records, |tree.fields| - 3, |history|)
    ensures LevelRead(tree, records, chi, history, index, level, dummy, value, ok, shown, slot)
  {
  }

  lemma {:induction false} PathReadFacts(tree: Tree, records: seq<seq<int>>, wanted: nat, dummy: nat, realLeaf: nat,
                                         hit: int, cached: seq<int>, shown: nat, found: int, fetched: seq<int>)
    requires PathRead(tree, records, wanted, dummy, realLeaf, hit, cached, shown, found, fetched)
    ensures tree.Shaped() && wanted < tree.size == |records| == |tree.positionMap| && IsBit(hit) && |tree.fields| >= 4
    ensures hit == 1 ==> cached == records[wanted]
    ensures |fetched| == |tree.fields| - 3
    ensures hit == 0 ==> found == 1 && fetched == records[wanted]
    ensures shown == if hit == 1 then Remainder(dummy, Pow2(tree.depth)) else realLeaf
  {
  }

  lemma {:induction false} SlotWritten(chi: nat, history: seq<nat>, index: nat, level: nat, records: seq<seq<int>>, width: nat, slot: StashSlot)
    requires chi > 0 && LevelIndex(chi, index, level) < |records|
    requires slot == if LevelIndex(chi, index, level) in Touched(chi, history, level) then StashSlot(0, 0, ZeroRow(width))
                     else StashSlot(1, LevelIndex(chi, index, level), records[LevelIndex(chi, index, level)])
    ensures SlotOf(slot, chi, history + [index], level, records, width, |history|)
  {
    assert (history + [index])[..|history|] == history;
    hide LevelIndex, Touched;
  }

  /** The gates on a hit bit, as a case split. */
  lemma {:induction false} ResultGates(hit: int, cached: seq<int>, found: int, fetched: seq<int>, wanted: int)
    requires IsBit(hit) && |cached| == |fetched|
    ensures Choose(hit, cached, fetched) == if hit == 1 then cached else fetched
    ensures IfElse(hit, 1, found) == if hit == 1 then 1 else found
    ensures Written(Not(hit), wanted, fetched) == if hit == 1 then StashSlot(0, 0, ZeroRow(|fetched|)) else StashSlot(1, wanted, fetched)
  {
    ChooseBit(hit, cached, fetched);
    WriteFlag(hit);
    WrittenBit(Not(hit), wanted, fetched);
  }
}
