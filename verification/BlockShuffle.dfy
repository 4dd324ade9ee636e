// The secret block permutation: a Fisher-Yates shuffle of whole blocks, the
// remapping of pages and descriptors, and why no lookup changes.
module BlockShuffle {
  import opened Wrappers
  import opened Sorting
  import opened FisherYates
  import opened Bags
  import opened Pooling

  // --- Shuffling the blocks -----------------------------------------------------------------

  ghost predicate Ordering(order: seq<nat>, n: nat) {
    |order| == n && Distinct(order) && forall i :: 0 <= i < n ==> order[i] < n
  }

  function Naturals(n: nat): (r: seq<nat>)
    ensures |r| == n && forall i :: 0 <= i < n ==> r[i] == i
  {
    if n == 0 then [] else Naturals(n - 1) + [n - 1]
  }

  /** The Fisher-Yates loop over the blocks' positions. */
  method Shuffle(n: nat, draws: seq<nat>) returns (order: seq<nat>)
    requires Steps(draws, n)
    ensures order == Shuffled(Naturals(n), draws) && Ordering(order, n)
  {
    var a := new nat[n](i => i);
    assert a[..] == Naturals(n);
    ShuffleInPlace(a, draws);
    order := a[..];
    ShuffledBag(Naturals(n), draws);
    hide Shuffled;
    SameBagOrdering(order, n);
  }

  /** Every ordering of the blocks comes from exactly one sequence of draws. */
  lemma {:induction false} OneShuffle(order: seq<nat>, n: nat) returns (draws: seq<nat>)
    requires Ordering(order, n)
    ensures Steps(draws, n) && Shuffled(Naturals(n), draws) == order
    ensures forall other :: Steps(other, n) && Shuffled(Naturals(n), other) == order ==> other == draws
  {
    OrderingBag(order, n);
    NaturalsDistinct(n);
    hide Ordering, Shuffled, Steps;
    draws := OneDealing(Naturals(n), order);
  }

  // --- Laying the blocks out in the shuffled order ----------------------------------------------

  /** The shuffled blocks' total width. */
  function Width(entries: seq<Entry>, order: seq<nat>): nat {
    if order == [] then 0 else Width(entries, order[..|order| - 1]) + CountAt(entries, order[|order| - 1])
  }

  function CountAt(entries: seq<Entry>, i: nat): nat {
    if i < |entries| then entries[i].count else 0
  }

  lemma {:induction false} WidthGrows(entries: seq<Entry>, order: seq<nat>, t: nat, u: nat)
    requires t <= u <= |order|
    ensures Width(entries, order[..t]) <= Width(entries, order[..u])
    ensures t < u ==> Width(entries, order[..t]) + CountAt(entries, order[t]) <= Width(entries, order[..u])
    decreases u
  {
    if t < u {
      assert order[..u][..u - 1] == order[..u - 1];
      if t < u - 1 {
        WidthGrows(entries, order, t, u - 1);
      }
    }
  }

  /** A block's slots, so that widths can be compared as bags. */
  function BlockSlots(entries: seq<Entry>): nat -> seq<nat> {
    (i: nat) => Naturals(CountAt(entries, i))
  }

  lemma {:induction false} WidthIsBag(entries: seq<Entry>, order: seq<nat>)
    ensures Width(entries, order) == |Bag(order, BlockSlots(entries))|
  {
    if order != [] {
      WidthIsBag(entries, order[..|order| - 1]);
    }
  }

  /** The blocks in their original order are as wide as the pool. */
  lemma {:induction false} WidthInOrder(entries: seq<Entry>, n: nat)
    requires n <= |entries|
    ensures Width(entries, Naturals(n)) == TotalOf(entries[..n])
  {
    if n > 0 {
      WidthInOrder(entries, n - 1);
      assert Naturals(n)[..n - 1] == Naturals(n - 1);
      assert entries[..n][..n - 1] == entries[..n - 1];
    } else {
      assert entries[..0] == [];
    }
  }

  function Elements(xs: seq<nat>): set<nat> {
    set i | 0 <= i < |xs| :: xs[i]
  }

  lemma {:induction false} ElementsOf(xs: seq<nat>)
    requires Distinct(xs)
    ensures |Elements(xs)| == |xs|
  {
    if xs != [] {
      var n := |xs| - 1;
      ElementsOf(xs[..n]);
      assert Elements(xs) == Elements(xs[..n]) + {xs[n]};
    }
  }

  function Below(n: nat): (r: set<nat>)
    ensures forall x: nat :: x in r <==> x < n
    ensures |r| == n
  {
    if n == 0 then {}
    else
      var last: nat := n - 1;
      Below(n - 1) + {last}
  }

  lemma {:induction false} SameSize(a: set<nat>, b: set<nat>)
    requires a <= b && |a| == |b|
    ensures a == b
  {
    if a != b {
      var x :| x in b && x !in a;
      SubsetSmaller(a, b - {x});
    }
  }

  lemma {:induction false} SubsetSmaller(a: set<nat>, b: set<nat>)
    requires a <= b
    ensures |a| <= |b|
  {
    if a != {} {
      var x :| x in a;
      SubsetSmaller(a - {x}, b - {x});
    }
  }

  /** An ordering uses every number. */
  lemma {:induction false} OrderingUsesAll(order: seq<nat>, n: nat)
    requires Ordering(order, n)
    ensures forall x: nat :: x < n <==> x in order
  {
    ElementsOf(order);
    var used := Elements(order);
    forall x | x in used
      ensures x in Below(n)
    {
      var i :| 0 <= i < |order| && order[i] == x;
    }
    SameSize(used, Below(n));
    forall x: nat
      ensures x < n <==> x in order
    {
      assert x in used <==> x in Below(n);
    }
  }

  lemma {:induction false} NaturalsContain(n: nat, x: nat)
    ensures x in Naturals(n) <==> x < n
  {
    if x < n {
      assert Naturals(n)[x] == x;
    }
  }

  lemma {:induction false} OrderingCovers(order: seq<nat>, n: nat)
    requires Ordering(order, n)
    ensures forall x: nat :: x < n <==> x in order
    ensures multiset(order) == multiset(Naturals(n))
  {
    OrderingUsesAll(order, n);
    DistinctCounts(order);
    NaturalsDistinct(n);
    hide *;
    forall x: nat
      ensures multiset(order)[x] == multiset(Naturals(n))[x]
    {
      NaturalsContain(n, x);
      assert x in order <==> x in multiset(order);
      assert x in Naturals(n) <==> x in multiset(Naturals(n));
    }
  }

  lemma {:induction false} NaturalsDistinct(n: nat)
    ensures Distinct(Naturals(n)) && forall x :: x in Naturals(n) ==> multiset(Naturals(n))[x] == 1
  {
    DistinctCounts(Naturals(n));
  }

  /** Shuffled blocks are as wide as the pool. */
  lemma {:induction false} WidthOfAll(entries: seq<Entry>, size: nat, order: seq<nat>)
    requires TotalOf(entries) == size && Ordering(order, |entries|)
    ensures Width(entries, order) == size
  {
    assert entries[..|entries|] == entries;
    hide *;
    OrderingBag(order, |entries|);
    BagPermute(order, Naturals(|entries|), BlockSlots(entries));
    WidthIsBag(entries, order);
    WidthIsBag(entries, Naturals(|entries|));
    WidthInOrder(entries, |entries|);
  }

  lemma {:induction false} OrderingBag(order: seq<nat>, n: nat)
    requires Ordering(order, n)
    ensures multiset(order) == multiset(Naturals(n))
  {
    OrderingCovers(order, n);
  }

  // --- Descriptors that share no page -------------------------------------------------------------

  /** No descriptor reaches beyond the pool. */
  ghost predicate Inside(entries: seq<Entry>, size: nat) {
    forall e :: e in entries ==> Within(e, size)
  }

  predicate Within(e: Entry, size: nat) {
    e.count > 0 ==> e.base + e.count <= size
  }

  ghost predicate Apart(a: Entry, b: Entry) {
    a.count == 0 || b.count == 0 || a.base + a.count <= b.base || b.base + b.count <= a.base
  }

  /** No two descriptors share a page. */
  ghost predicate Separate(entries: seq<Entry>) {
    forall a, b :: a in entries && b in entries && a != b ==> Apart(a, b)
  }

  /** Descriptors, in any order, that cover the pool without sharing a page. */
  ghost predicate Packs(entries: seq<Entry>, size: nat) {
    Distinct(entries) && TotalOf(entries) == size && Inside(entries, size) && Separate(entries)
  }

  function Span(base: nat, count: nat): (r: set<nat>)
    ensures forall p: nat :: p in r <==> base <= p < base + count
    ensures |r| == count
  {
    if count == 0 then {}
    else
      var last: nat := base + (count - 1);
      Span(base, count - 1) + {last}
  }

  /** The pages of one descriptor. */
  function PagesOf(e: Entry): (r: set<nat>)
    ensures |r| == e.count && forall p: nat :: p in r <==> e.base <= p < e.base + e.count
  {
    Span(e.base, e.count)
  }

  /** The pages of all descriptors. */
  function Covered(entries: seq<Entry>): set<nat> {
    if entries == [] then {} else Covered(entries[..|entries| - 1]) + PagesOf(entries[|entries| - 1])
  }

  lemma {:induction false} CoveredBy(entries: seq<Entry>, p: nat)
    requires p in Covered(entries)
    ensures exists i :: 0 <= i < |entries| && p in PagesOf(entries[i])
  {
    var n := |entries| - 1;
    if p in PagesOf(entries[n]) {
      assert p in PagesOf(entries[n]);
    } else {
      CoveredBy(entries[..n], p);
      var i :| 0 <= i < n && p in PagesOf(entries[..n][i]);
      assert p in PagesOf(entries[i]);
    }
  }

  /** Descriptors that share no page cover as many pages as they count. */
  lemma {:induction false} CoveredCount(entries: seq<Entry>)
    requires Distinct(entries) && Separate(entries)
    ensures |Covered(entries)| == TotalOf(entries)
  {
    if entries != [] {
      var n := |entries| - 1;
      SeparatePrefix(entries, n);
      CoveredCount(entries[..n]);
      forall p | p in Covered(entries[..n])
        ensures p !in PagesOf(entries[n])
      {
        CoveredBy(entries[..n], p);
        var i :| 0 <= i < n && p in PagesOf(entries[..n][i]);
        ApartAt(entries, i, n);
      }
      assert Covered(entries[..n]) !! PagesOf(entries[n]);
      hide Covered, PagesOf, Separate, Distinct;
      assert |Covered(entries[..n]) + PagesOf(entries[n])| == TotalOf(entries[..n]) + entries[n].count;
      CoveredSnoc(entries);
    }
  }

  lemma {:induction false} CoveredSnoc(entries: seq<Entry>)
    requires entries != []
    ensures var n := |entries| - 1; Covered(entries) == Covered(entries[..n]) + PagesOf(entries[n])
    ensures TotalOf(entries) == TotalOf(entries[..|entries| - 1]) + entries[|entries| - 1].count
  {
  }

  lemma {:induction false} SeparatePrefix(entries: seq<Entry>, n: nat)
    requires Distinct(entries) && Separate(entries) && n <= |entries|
    ensures Distinct(entries[..n]) && Separate(entries[..n])
  {
    hide Apart;
  }

  lemma {:induction false} ApartAt(entries: seq<Entry>, i: nat, j: nat)
    requires Distinct(entries) && Separate(entries) && i < j < |entries|
    ensures Apart(entries[i], entries[j])
  {
    assert entries[i] in entries && entries[j] in entries && entries[i] != entries[j];
    hide Apart;
  }

  /** Every page of the pool belongs to a descriptor. */
  lemma {:induction false} BlockAt(entries: seq<Entry>, size: nat, slot: nat) returns (i: nat)
    requires Packs(entries, size) && slot < size
    ensures i < |entries| && entries[i].base <= slot < entries[i].base + entries[i].count
  {
    CoveredCount(entries);
    forall p | p in Covered(entries)
      ensures p in Below(size)
    {
      CoveredBy(entries, p);
      var i :| 0 <= i < |entries| && p in PagesOf(entries[i]);
      assert entries[i] in entries && Within(entries[i], size);
    }
    SameSize(Covered(entries), Below(size));
    assert slot in Below(size);
    CoveredBy(entries, slot);
    i :| 0 <= i < |entries| && slot in PagesOf(entries[i]);
  }

  /** A descriptor's pages, so that totals can be compared as bags. */
  function EntrySlots(): Entry -> seq<nat> {
    (e: Entry) => Naturals(e.count)
  }

  lemma {:induction false} TotalIsBag(entries: seq<Entry>)
    ensures TotalOf(entries) == |Bag(entries, EntrySlots())|
  {
    if entries != [] {
      TotalIsBag(entries[..|entries| - 1]);
    }
  }

  lemma {:induction false} EntryAtMostIsTotal()
    ensures TotalOrder(EntryAtMost)
  {
  }

  /** Sorting the descriptors by base changes neither their total nor whether they fit or meet. */
  lemma {:induction false} SortedAlike(entries: seq<Entry>, size: nat)
    requires Distinct(entries)
    ensures var blocks := SortBy(entries, EntryAtMost);
      && (forall e :: e in blocks <==> e in entries) && Distinct(blocks) && TotalOf(blocks) == TotalOf(entries)
      && (Inside(blocks, size) <==> Inside(entries, size)) && (Separate(blocks) <==> Separate(entries))
  {
    var blocks := SortBy(entries, EntryAtMost);
    EntryAtMostIsTotal();
    SortBySorted(entries, EntryAtMost);
    SortByDistinct(entries, EntryAtMost);
    hide TotalOrder, SortedBy, SortBy, EntryAtMost, TotalOf, Apart, Within;
    forall e: Entry
      ensures e in blocks <==> e in entries
    {
      assert e in multiset(blocks) <==> e in multiset(entries);
    }
    BagPermute(blocks, entries, EntrySlots());
    TotalIsBag(blocks);
    TotalIsBag(entries);
  }

  lemma {:induction false} KeysDistinct(entries: seq<Entry>)
    requires KeysDiffer(entries)
    ensures Distinct(entries)
  {
  }

  // --- Laying out the blocks ------------------------------------------------------------------------

  /** The first blocks of the order have been given their new slots, one after the other. */
  ghost predicate LaidOut(entries: seq<Entry>, order: seq<nat>, t: nat, permutation: seq<nat>) {
    && t <= |order| && (forall u :: 0 <= u < |order| ==> order[u] < |entries|)
    && forall u :: 0 <= u < t ==> MovedBlock(entries[order[u]], Width(entries, order[..u]), permutation)
  }

  /** A block's pages move together, in order, to the slots from `start`. */
  ghost predicate MovedBlock(e: Entry, start: nat, permutation: seq<nat>) {
    && Within(e, |permutation|)
    && forall p :: e.base <= p < e.base + e.count ==> permutation[p] == start + (p - e.base)
  }

  /** `permutation[base + offset] = cursor + offset` for one block. */
  method MoveBlock(permutation: array<nat>, e: Entry, cursor: nat)
    requires Within(e, permutation.Length)
    modifies permutation
    ensures MovedBlock(e, cursor, permutation[..]) && ElsewhereSame(e, old(permutation[..]), permutation[..])
  {
    for offset := 0 to e.count
      invariant forall p :: e.base <= p < e.base + offset ==> permutation[p] == cursor + (p - e.base)
      invariant forall p :: 0 <= p < permutation.Length && !(e.base <= p < e.base + e.count) ==> permutation[p] == old(permutation[p])
    {
      permutation[e.base + offset] := cursor + offset;
    }
  }

  /** Moving one more block disturbs none of the blocks already moved. */
  lemma {:induction false} LayOutStep(entries: seq<Entry>, size: nat, order: seq<nat>, t: nat, was: seq<nat>, now: seq<nat>)
    requires Distinct(entries) && Separate(entries) && Ordering(order, |entries|) && t < |order| && |was| == |now| == size
    requires LaidOut(entries, order, t, was) && MovedBlock(entries[order[t]], Width(entries, order[..t]), now)
    requires ElsewhereSame(entries[order[t]], was, now)
    ensures LaidOut(entries, order, t + 1, now)
  {
    forall u | 0 <= u < t
      ensures MovedBlock(entries[order[u]], Width(entries, order[..u]), now)
    {
      assert MovedBlock(entries[order[u]], Width(entries, order[..u]), was);
      assert order[u] != order[t];
      assert entries[order[u]] in entries && entries[order[t]] in entries && entries[order[u]] != entries[order[t]];
      BlockUndisturbed(entries[order[u]], entries[order[t]], Width(entries, order[..u]), was, now);
    }
    hide MovedBlock, Width, ElsewhereSame, Apart;
  }

  /** Only the block's own positions were written. */
  ghost predicate ElsewhereSame(e: Entry, was: seq<nat>, now: seq<nat>) {
    |was| == |now| && forall p :: 0 <= p < |now| && !(e.base <= p < e.base + e.count) ==> now[p] == was[p]
  }

  lemma {:induction false} BlockUndisturbed(a: Entry, b: Entry, start: nat, was: seq<nat>, now: seq<nat>)
    requires MovedBlock(a, start, was) && Apart(a, b) && ElsewhereSame(b, was, now)
    ensures MovedBlock(a, start, now)
  {
  }

  predicate EntryAtMost(a: Entry, b: Entry) {
    a.base < b.base || (a.base == b.base && (a.count < b.count || (a.count == b.count && a.key <= b.key)))
  }

  /**
   * `block_permutation`, for any draws: it fails exactly when a descriptor reaches beyond the
   * pool or the counts do not add up to it; and when no two descriptors share a page the result
   * is a permutation of the pool that moves every key's pages as one block.
   */
  method BlockPermutation(entries: seq<Entry>, size: nat, draws: seq<nat>) returns (r: Result<seq<nat>>)
    requires KeysDiffer(entries) && Steps(draws, |entries|)
    ensures r.Ok? <==> Inside(entries, size) && TotalOf(entries) == size
    ensures r.Ok? && Separate(entries) ==> Ordering(r.value, size) && AllMoved(entries, r.value)
    ensures r.Ok? && Separate(entries) ==> BlocksDealt(entries, draws, r.value)
  {
    KeysDistinct(entries);
    SortedAlike(entries, size);
    hide *;
    var blocks := SortBy(entries, EntryAtMost);
    var order := Shuffle(|blocks|, draws);
    var laid := LayOut(blocks, size, order);
    WidthOfAll(blocks, TotalOf(blocks), order);
    if laid.Err? || laid.value.1 != size {
      return Err(Malformed);
    }
    if Separate(blocks) {
      PacksIs(blocks, size);
      LaidOutIsOrdering(blocks, size, order, laid.value.0);
      MovedAlike(blocks, entries, laid.value.0);
      DealtIs(entries, draws, order, laid.value.0);
    }
    r := Ok(laid.value.0);
  }

  /** The blocks, by ascending base, are laid out in the order the draws deal. */
  ghost predicate BlocksDealt(entries: seq<Entry>, draws: seq<nat>, permutation: seq<nat>) {
    Steps(draws, |entries|) && exists blocks: seq<Entry> ::
      && multiset(blocks) == multiset(entries) && (forall i, j :: 0 <= i < j < |blocks| ==> blocks[i].base <= blocks[j].base)
      && LaidOut(blocks, Shuffled(Naturals(|entries|), draws), |entries|, permutation)
  }

  lemma {:induction false} DealtIs(entries: seq<Entry>, draws: seq<nat>, order: seq<nat>, permutation: seq<nat>)
    requires Steps(draws, |entries|) && order == Shuffled(Naturals(|entries|), draws)
    requires LaidOut(SortBy(entries, EntryAtMost), order, |order|, permutation)
    ensures BlocksDealt(entries, draws, permutation)
  {
    EntryAtMostIsTotal();
    SortBySorted(entries, EntryAtMost);
    var blocks := SortBy(entries, EntryAtMost);
    assert |order| == |entries|;
    hide LaidOut, SortBy, TotalOrder, Shuffled;
    forall i, j | 0 <= i < j < |blocks|
      ensures blocks[i].base <= blocks[j].base
    {
      assert EntryAtMost(blocks[i], blocks[j]);
    }
  }

  lemma {:induction false} PacksIs(entries: seq<Entry>, size: nat)
    requires Distinct(entries) && TotalOf(entries) == size && Inside(entries, size) && Separate(entries)
    ensures Packs(entries, size)
  {
  }

  lemma {:induction false} MovedAlike(blocks: seq<Entry>, entries: seq<Entry>, permutation: seq<nat>)
    requires AllMoved(blocks, permutation) && forall e :: e in entries ==> e in blocks
    ensures AllMoved(entries, permutation)
  {
    hide Moved;
    forall i | 0 <= i < |entries|
      ensures Moved(entries[i], permutation)
    {
      assert entries[i] in blocks;
    }
  }

  /** Every block moved as one. */
  ghost predicate AllMoved(entries: seq<Entry>, permutation: seq<nat>) {
    forall i :: 0 <= i < |entries| ==> Moved(entries[i], permutation)
  }

  ghost predicate Moved(e: Entry, permutation: seq<nat>) {
    exists start: nat :: MovedBlock(e, start, permutation)
  }

  lemma {:induction false} OrderingParts(order: seq<nat>, n: nat)
    requires Ordering(order, n)
    ensures |order| == n && forall u :: 0 <= u < |order| ==> order[u] < n
  {
  }

  /** The blocks, in the shuffled order, one after the other; a descriptor beyond the pool stops it. */
  method LayOut(entries: seq<Entry>, size: nat, order: seq<nat>) returns (r: Result<(seq<nat>, nat)>)
    requires Ordering(order, |entries|) && Distinct(entries)
    ensures r.Ok? <==> Inside(entries, size)
    ensures r.Ok? ==> |r.value.0| == size && r.value.1 == Width(entries, order)
    ensures r.Ok? && Separate(entries) ==> LaidOut(entries, order, |order|, r.value.0)
  {
    OrderingParts(order, |entries|);
    LaidOutStarts(entries, order, size);
    InsideInOrder(entries, order, size);
    hide *;
    var a := new nat[size](_ => 0);
    var cursor := 0;
    for t := 0 to |order|
      invariant a.Length == size && cursor == Width(entries, order[..t])
      invariant forall u :: 0 <= u < t ==> Within(entries[order[u]], size)
      invariant Separate(entries) ==> LaidOut(entries, order, t, a[..])
    {
      ghost var was := a[..];
      var e := entries[order[t]];
      WidthNext(entries, order, t);
      if !Within(e, size) {
        return Err(Malformed);
      }
      MoveBlock(a, e, cursor);
      if Separate(entries) {
        LayOutStep(entries, size, order, t, was, a[..]);
      }
      cursor := cursor + e.count;
    }
    assert order[..|order|] == order;
    r := Ok((a[..], cursor));
  }

  lemma {:induction false} InsideInOrder(entries: seq<Entry>, order: seq<nat>, size: nat)
    requires Ordering(order, |entries|)
    ensures forall u :: 0 <= u < |order| ==> order[u] < |entries|
    ensures Inside(entries, size) <==> forall u :: 0 <= u < |order| ==> Within(entries[order[u]], size)
  {
    OrderingUsesAll(order, |entries|);
    hide Within;
    if forall u :: 0 <= u < |order| ==> Within(entries[order[u]], size) {
      forall e | e in entries
        ensures Within(e, size)
      {
        var i :| 0 <= i < |entries| && entries[i] == e;
        assert i in order;
        var u :| 0 <= u < |order| && order[u] == i;
      }
    }
  }

  lemma {:induction false} LaidOutStarts(entries: seq<Entry>, order: seq<nat>, size: nat)
    requires forall u :: 0 <= u < |order| ==> order[u] < |entries|
    ensures Width(entries, order[..0]) == 0
    ensures forall permutation :: LaidOut(entries, order, 0, permutation)
  {
  }

  lemma {:induction false} WidthNext(entries: seq<Entry>, order: seq<nat>, t: nat)
    requires t < |order| && forall u :: 0 <= u < |order| ==> order[u] < |entries|
    ensures Width(entries, order[..t + 1]) == Width(entries, order[..t]) + entries[order[t]].count
  {
    assert order[..t + 1][..t] == order[..t];
  }

  /** When all blocks are laid out, every slot has moved to its own new slot. */
  lemma {:induction false} LaidOutIsOrdering(entries: seq<Entry>, size: nat, order: seq<nat>, permutation: seq<nat>)
    requires Packs(entries, size) && Ordering(order, |entries|) && |permutation| == size
    requires LaidOut(entries, order, |order|, permutation)
    ensures Ordering(permutation, size) && AllMoved(entries, permutation)
  {
    forall i: nat | i < |entries|
      ensures Moved(entries[i], permutation)
    {
      var u := BlockMoved(entries, size, order, permutation, i);
    }
    forall p: nat | p < size
      ensures permutation[p] < size
    {
      var u, start := SlotMoved(entries, size, order, permutation, p);
    }
    forall p: nat, q: nat | p < q < size
      ensures permutation[p] != permutation[q]
    {
      SlotsApart(entries, size, order, permutation, p, q);
    }
    hide Packs, LaidOut, Moved;
  }

  /** Where a block went. */
  lemma {:induction false} BlockMoved(entries: seq<Entry>, size: nat, order: seq<nat>, permutation: seq<nat>, i: nat) returns (u: nat)
    requires Packs(entries, size) && Ordering(order, |entries|) && LaidOut(entries, order, |order|, permutation) && i < |entries|
    ensures u < |order| && order[u] == i && (forall t :: 0 <= t < |order| ==> order[t] < |entries|)
    ensures MovedBlock(entries[i], Width(entries, order[..u]), permutation) && Moved(entries[i], permutation)
    ensures Width(entries, order[..u]) + entries[i].count <= size
  {
    OrderingUsesAll(order, |entries|);
    OrderingParts(order, |entries|);
    hide Packs, Width, Distinct, Ordering;
    assert i in order;
    u :| 0 <= u < |order| && order[u] == i;
    WidthGrows(entries, order, u, |order|);
    WidthOfAll(entries, size, order);
    assert order[..|order|] == order;
    assert MovedBlock(entries[order[u]], Width(entries, order[..u]), permutation);
    hide MovedBlock, Packs, Width, Distinct;
  }

  /** Where a slot went. */
  lemma {:induction false} SlotMoved(entries: seq<Entry>, size: nat, order: seq<nat>, permutation: seq<nat>, p: nat) returns (u: nat, start: nat)
    requires Packs(entries, size) && Ordering(order, |entries|) && |permutation| == size && p < size
    requires LaidOut(entries, order, |order|, permutation)
    ensures u < |order| && (forall t :: 0 <= t < |order| ==> order[t] < |entries|) && start == Width(entries, order[..u])
    ensures start <= permutation[p] < start + CountAt(entries, order[u]) && permutation[p] < size
    ensures var e := entries[order[u]]; e.base <= p < e.base + e.count && permutation[p] == start + (p - e.base)
  {
    var i := BlockAt(entries, size, p);
    u := BlockMoved(entries, size, order, permutation, i);
    start := Width(entries, order[..u]);
    hide Packs, Ordering, LaidOut, Width, Moved;
  }

  lemma {:induction false} SlotsApart(entries: seq<Entry>, size: nat, order: seq<nat>, permutation: seq<nat>, p: nat, q: nat)
    requires Packs(entries, size) && Ordering(order, |entries|) && |permutation| == size && p < q < size
    requires LaidOut(entries, order, |order|, permutation)
    ensures permutation[p] != permutation[q]
  {
    hide *;
    var u, a := SlotMoved(entries, size, order, permutation, p);
    var v, b := SlotMoved(entries, size, order, permutation, q);
    if u < v {
      WidthGrows(entries, order, u, v);
    } else if v < u {
      WidthGrows(entries, order, v, u);
    }
  }

  // --- Applying it --------------------------------------------------------------------------------

  /** The pooled layout: permuted pages, remapped descriptors. */
  datatype PooledLayout = PooledLayout(pages: seq<Page>, descriptors: map<nat, (nat, nat)>) {

    /** `read`: a key's pages, or nothing for a key no owner holds. */
    function Read(key: nat): Option<seq<Page>> {
      if key !in descriptors then None
      else
        var (base, count) := descriptors[key];
        if base + count <= |pages| then Some(pages[base..base + count]) else None
    }
  }

  lemma {:induction false} SortedNaturals(xs: seq<nat>, n: nat)
    ensures SortBy(xs, AtMost) == Naturals(n) <==> Ordering(xs, n)
  {
    SortBySorted(xs, AtMost);
    if Ordering(xs, n) {
      OrderingCovers(xs, n);
      NaturalsSorted(n);
      SortedUnique(SortBy(xs, AtMost), Naturals(n), AtMost);
    }
    if SortBy(xs, AtMost) == Naturals(n) {
      SameBagOrdering(xs, n);
    }
    hide *;
  }

  lemma {:induction false} NaturalsSorted(n: nat)
    ensures SortedBy(Naturals(n), AtMost) && TotalOrder(AtMost)
  {
  }

  lemma {:induction false} SameBagOrdering(xs: seq<nat>, n: nat)
    requires multiset(xs) == multiset(Naturals(n))
    ensures Ordering(xs, n)
  {
    NaturalsDistinct(n);
    forall x | x in xs
      ensures multiset(xs)[x] == 1 && x < n
    {
      assert x in multiset(xs);
      assert x in Naturals(n);
      NaturalsContain(n, x);
    }
    CountsDistinct(xs);
    assert |multiset(xs)| == |xs| && |multiset(Naturals(n))| == n;
    forall i | 0 <= i < |xs|
      ensures xs[i] < n
    {
      assert xs[i] in xs;
    }
  }

  /** Every page is at its slot's target. */
  ghost predicate PermutedTo(pages: seq<Page>, permutation: seq<nat>, permuted: seq<Page>) {
    && |permutation| == |permuted| == |pages| && (forall p :: 0 <= p < |pages| ==> permutation[p] < |permuted|)
    && forall p :: 0 <= p < |pages| ==> permuted[permutation[p]] == pages[p]
  }

  lemma {:induction false} MovedPage(pages: seq<Page>, permutation: seq<nat>, permuted: seq<Page>, p: nat)
    requires PermutedTo(pages, permutation, permuted) && p < |permutation|
    ensures |permutation| == |pages| && permutation[p] < |permuted| && permuted[permutation[p]] == pages[p]
  {
  }

  /** `permuted[target] = pool[original]` for every slot. */
  method Permute(pages: seq<Page>, permutation: seq<nat>) returns (permuted: seq<Page>)
    requires Ordering(permutation, |pages|)
    ensures PermutedTo(pages, permutation, permuted)
  {
    var a := new Page[|pages|](_ => []);
    for p := 0 to |pages|
      invariant forall q :: 0 <= q < p ==> a[permutation[q]] == pages[q]
    {
      a[permutation[p]] := pages[p];
    }
    permuted := a[..];
  }

  /** `targets == list(range(targets[0], targets[0] + count))`. */
  ghost predicate StaysTogether(e: Entry, permutation: seq<nat>) {
    e.base + e.count <= |permutation| && e.count >= 1 && MovedBlock(e, permutation[e.base], permutation)
  }

  method TogetherCheck(e: Entry, permutation: seq<nat>) returns (ok: bool)
    requires e.base + e.count <= |permutation| && e.count >= 1
    ensures ok <==> StaysTogether(e, permutation)
  {
    ok := true;
    for offset := 0 to e.count
      invariant ok <==> forall p :: e.base <= p < e.base + offset ==> permutation[p] == permutation[e.base] + (p - e.base)
    {
      if permutation[e.base + offset] != permutation[e.base] + offset {
        ok := false;
      }
    }
  }

  /** The remapped descriptors of the first entries. */
  ghost predicate Remapped(entries: seq<Entry>, n: nat, permutation: seq<nat>, m: map<nat, (nat, nat)>) {
    && n <= |entries| && (forall i :: 0 <= i < n ==> StaysTogether(entries[i], permutation))
    && (forall i :: 0 <= i < n ==> entries[i].key in m && m[entries[i].key] == (permutation[entries[i].base], entries[i].count))
    && forall key :: key in m ==> HasKey(entries[..n], key)
  }

  ghost predicate EntryReads(pages: seq<Page>, e: Entry, layout: PooledLayout) {
    e.base + e.count <= |pages| && layout.Read(e.key) == Some(pages[e.base..e.base + e.count])
  }

  /** The layout reads every key of the pool exactly as the pool holds it. */
  ghost predicate Preserves(pages: seq<Page>, entries: seq<Entry>, layout: PooledLayout) {
    && (forall i :: 0 <= i < |entries| ==> EntryReads(pages, entries[i], layout))
    && forall key :: !HasKey(entries, key) ==> layout.Read(key) == None
  }

  /**
   * `apply_permutation`, for any descriptors: refused unless the permutation is a bijection of
   * the pool and every descriptor names pages of it that stay together; and any permutation
   * it accepts preserves every lookup.
   */
  method ApplyPermutation(pages: seq<Page>, entries: seq<Entry>, permutation: seq<nat>) returns (r: Result<PooledLayout>)
    requires KeysDiffer(entries)
    ensures r.Ok? <==> Ordering(permutation, |pages|) && forall i :: 0 <= i < |entries| ==> StaysTogether(entries[i], permutation)
    ensures r.Ok? ==> Preserves(pages, entries, r.value)
  {
    SortedNaturals(permutation, |pages|);
    if SortBy(permutation, AtMost) != Naturals(|pages|) {
      return Err(Malformed);
    }
    var permuted := Permute(pages, permutation);
    var m: map<nat, (nat, nat)> := map[];
    for i := 0 to |entries|
      invariant Remapped(entries, i, permutation, m)
    {
      var e := entries[i];
      if e.count == 0 || e.base + e.count > |permutation| {
        return Err(Malformed);
      }
      var ok := TogetherCheck(e, permutation);
      if !ok {
        return Err(Malformed);
      }
      RemapStep(entries, i, permutation, m);
      hide Remapped, StaysTogether, Ordering, KeysDiffer;
      m := m[e.key := (permutation[e.base], e.count)];
    }
    RemappedPreserves(pages, entries, permutation, permuted, m);
    r := Ok(PooledLayout(permuted, m));
  }

  lemma {:induction false} RemapStep(entries: seq<Entry>, i: nat, permutation: seq<nat>, m: map<nat, (nat, nat)>)
    requires i < |entries| && KeysDiffer(entries) && Remapped(entries, i, permutation, m) && StaysTogether(entries[i], permutation)
    ensures Remapped(entries, i + 1, permutation, m[entries[i].key := (permutation[entries[i].base], entries[i].count)])
  {
    var next := m[entries[i].key := (permutation[entries[i].base], entries[i].count)];
    hide StaysTogether;
    forall key | key in next
      ensures HasKey(entries[..i + 1], key)
    {
      assert entries[..i + 1] == entries[..i] + [entries[i]];
      HasSnoc(entries[..i], entries[i], key);
    }
  }

  /** One key's pages, read through the remapped descriptor. */
  lemma {:induction false} BlockReads(pages: seq<Page>, e: Entry, permutation: seq<nat>, permuted: seq<Page>)
    requires StaysTogether(e, permutation)
    requires PermutedTo(pages, permutation, permuted)
    ensures e.base + e.count <= |pages| && permutation[e.base] + e.count <= |permuted|
    ensures permuted[permutation[e.base]..permutation[e.base] + e.count] == pages[e.base..e.base + e.count]
  {
    var start := permutation[e.base];
    var last := e.base + (e.count - 1);
    MovedPage(pages, permutation, permuted, last);
    assert permutation[last] == start + (e.count - 1);
    forall q: nat | start <= q < start + e.count
      ensures q < |permuted| && permuted[q] == pages[e.base + (q - start)]
    {
      var p := e.base + (q - start);
      assert permutation[p] == q;
      MovedPage(pages, permutation, permuted, p);
    }
    hide PermutedTo, Ordering;
  }

  lemma {:induction false} RemappedPreserves(pages: seq<Page>, entries: seq<Entry>, permutation: seq<nat>, permuted: seq<Page>, m: map<nat, (nat, nat)>)
    requires Ordering(permutation, |pages|) && |permuted| == |pages|
    requires PermutedTo(pages, permutation, permuted)
    requires Remapped(entries, |entries|, permutation, m)
    ensures Preserves(pages, entries, PooledLayout(permuted, m))
  {
    var layout := PooledLayout(permuted, m);
    forall i | 0 <= i < |entries|
      ensures EntryReads(pages, entries[i], layout)
    {
      EntryPreserved(pages, entries, permutation, permuted, m, i);
    }
    forall key
      ensures !HasKey(entries, key) ==> layout.Read(key) == None
    {
      KeyUnheld(entries, permutation, permuted, m, key);
    }
    hide Ordering, Remapped, EntryReads, PooledLayout.Read, HasKey;
  }

  lemma {:induction false} EntryPreserved(pages: seq<Page>, entries: seq<Entry>, permutation: seq<nat>, permuted: seq<Page>, m: map<nat, (nat, nat)>, i: nat)
    requires Ordering(permutation, |pages|) && |permuted| == |pages| && i < |entries|
    requires PermutedTo(pages, permutation, permuted)
    requires Remapped(entries, |entries|, permutation, m)
    ensures EntryReads(pages, entries[i], PooledLayout(permuted, m))
  {
    RemappedAt(entries, permutation, m, i);
    BlockReads(pages, entries[i], permutation, permuted);
    hide *;
    ReadIs(pages, entries[i], PooledLayout(permuted, m), permutation[entries[i].base]);
  }

  lemma {:induction false} RemappedAt(entries: seq<Entry>, permutation: seq<nat>, m: map<nat, (nat, nat)>, i: nat)
    requires Remapped(entries, |entries|, permutation, m) && i < |entries|
    ensures var e := entries[i];
      StaysTogether(e, permutation) && e.base < |permutation| && e.key in m && m[e.key] == (permutation[e.base], e.count)
  {
    hide HasKey, MovedBlock;
  }

  lemma {:induction false} ReadIs(pages: seq<Page>, e: Entry, layout: PooledLayout, start: nat)
    requires e.key in layout.descriptors && layout.descriptors[e.key] == (start, e.count)
    requires start + e.count <= |layout.pages| && e.base + e.count <= |pages|
    requires layout.pages[start..start + e.count] == pages[e.base..e.base + e.count]
    ensures EntryReads(pages, e, layout)
  {
  }

  lemma {:induction false} KeyUnheld(entries: seq<Entry>, permutation: seq<nat>, permuted: seq<Page>, m: map<nat, (nat, nat)>, key: nat)
    requires Remapped(entries, |entries|, permutation, m)
    ensures !HasKey(entries, key) ==> PooledLayout(permuted, m).Read(key) == None
  {
    assert entries[..|entries|] == entries;
    hide HasKey, StaysTogether;
  }

  // --- Pooling, end to end ----------------------------------------------------------------------------

  /** Every lookup returns the pages of the owner that holds the key, and nothing for other keys. */
  ghost predicate LooksUp(owners: Holdings, layout: PooledLayout) {
    && (forall o, key :: Holds(owners, o, key) ==> layout.Read(key) == Some(owners[o][key]))
    && forall key :: (forall o :: !Holds(owners, o, key)) ==> layout.Read(key) == None
  }

  lemma {:induction false} PreservedLooksUp(owners: Holdings, pool: Pool, layout: PooledLayout)
    requires Partitioned(owners) && AllDescribed(owners, pool) && Preserves(pool.pages, pool.entries, layout)
    requires forall o, key :: Holds(owners, o, key) ==> HasKey(pool.entries, key)
    ensures LooksUp(owners, layout)
  {
    forall o, key | Holds(owners, o, key)
      ensures layout.Read(key) == Some(owners[o][key])
    {
      assert HasKey(pool.entries, key);
      var i :| 0 <= i < |pool.entries| && pool.entries[i].key == key;
      assert EntryReads(pool.pages, pool.entries[i], layout);
      EntryOwner(owners, pool, i, o);
    }
    forall key
      ensures HasKey(pool.entries, key) ==> exists o :: Holds(owners, o, key)
    {
      EntryHeld(owners, pool, key);
    }
    hide Partitioned, AllDescribed, Holds;
  }

  lemma {:induction false} EntryHeld(owners: Holdings, pool: Pool, key: nat)
    requires AllDescribed(owners, pool)
    ensures HasKey(pool.entries, key) ==> exists o :: Holds(owners, o, key)
  {
    if HasKey(pool.entries, key) {
      var i :| 0 <= i < |pool.entries| && pool.entries[i].key == key;
      assert Described(owners, pool, pool.entries[i]);
      var o :| Describes(owners, pool, pool.entries[i], o);
      assert Holds(owners, o, key);
    }
  }

  lemma {:induction false} EntryOwner(owners: Holdings, pool: Pool, i: nat, o: int)
    requires Partitioned(owners) && AllDescribed(owners, pool) && i < |pool.entries| && Holds(owners, o, pool.entries[i].key)
    ensures var e := pool.entries[i]; e.base + e.count <= |pool.pages| && pool.pages[e.base..e.base + e.count] == owners[o][e.key]
  {
    assert Described(owners, pool, pool.entries[i]);
    var p :| Describes(owners, pool, pool.entries[i], p);
    assert p == o;
  }

  /** A moved block is one the remapping accepts. */
  lemma {:induction false} MovedTogether(entries: seq<Entry>, size: nat, permutation: seq<nat>)
    requires Tiles(entries, size) && AllMoved(entries, permutation)
    ensures forall i :: 0 <= i < |entries| ==> StaysTogether(entries[i], permutation)
  {
    forall i | 0 <= i < |entries|
      ensures StaysTogether(entries[i], permutation)
    {
      assert Moved(entries[i], permutation);
      var start: nat :| MovedBlock(entries[i], start, permutation);
      assert entries[i].count >= 1;
      assert permutation[entries[i].base] == start;
    }
  }

  /**
   * For any holdings and any random draws: pooling is refused exactly when two owners hold the
   * same key; otherwise the shuffled pool answers every lookup with the original pages in order.
   */
  method PoolOwners(owners: Holdings, draws: nat -> seq<nat>) returns (r: Result<PooledLayout>)
    requires forall n: nat :: Steps(draws(n), n)
    ensures r.Ok? <==> Partitioned(owners)
    ensures r.Ok? ==> LooksUp(owners, r.value)
  {
    var pool := ConcatenateOwnerPools(owners);
    if pool.Err? {
      return Err(pool.error);
    }
    DescribedParts(owners, pool.value);
    TilesPack(pool.value.entries, |pool.value.pages|);
    hide *;
    var entries, size := pool.value.entries, |pool.value.pages|;
    var permutation := BlockPermutation(entries, size, draws(|entries|));
    MovedTogether(entries, size, permutation.value);
    r := ApplyPermutation(pool.value.pages, entries, permutation.value);
    PreservedLooksUp(owners, pool.value, r.value);
  }

  /** Blocks laid end to end pack the pool. */
  lemma {:induction false} TilesPack(entries: seq<Entry>, size: nat)
    requires Tiles(entries, size)
    ensures Inside(entries, size) && TotalOf(entries) == size && Separate(entries)
  {
    forall e | e in entries
      ensures Within(e, size)
    {
      var i :| 0 <= i < |entries| && entries[i] == e;
      BlocksApart(entries, size, i, i);
    }
    forall a, b | a in entries && b in entries && a != b
      ensures Apart(a, b)
    {
      var i :| 0 <= i < |entries| && entries[i] == a;
      var j :| 0 <= j < |entries| && entries[j] == b;
      BlocksApart(entries, size, i, j);
      BlocksApart(entries, size, j, i);
    }
  }

  lemma {:induction false} DescribedParts(owners: Holdings, pool: Pool)
    requires AllDescribed(owners, pool)
    ensures Tiles(pool.entries, |pool.pages|) && KeysDiffer(pool.entries)
  {
  }
}
