// Stable oblivious compaction of a frontier, and when it loses nothing.
module Compaction {
  import opened Gates
  import opened TwoHop

  /** One circuit slot: a validity bit and the edge it carries. */
  datatype Slot = Slot(valid: int, target: int, handle: int, score: int)

  const EMPTY_SLOT := Slot(0, 0, 0, 0)

  ghost predicate BitSlots(slots: seq<Slot>) {
    forall i :: 0 <= i < |slots| ==> IsBit(slots[i].valid)
  }

  function SlotHit(s: Slot): Hit {
    Hit(s.target, s.handle, s.score)
  }

  function SlotOf(h: Hit): Slot {
    Slot(1, h.target, h.handle, h.score)
  }

  /** The edges in the valid slots, in slot order. */
  function Live(slots: seq<Slot>): (r: seq<Hit>)
    ensures |r| <= |slots|
  {
    if slots == [] then []
    else
      var n := |slots| - 1;
      Live(slots[..n]) + if slots[n].valid == 1 then [SlotHit(slots[n])] else []
  }

  /** The first `width` hits, padded with empty slots. */
  function Padded(hits: seq<Hit>, width: nat): (r: seq<Slot>)
    ensures |r| == width
    ensures forall i :: 0 <= i < width ==> r[i] == if i < |hits| then SlotOf(hits[i]) else EMPTY_SLOT
  {
    seq(width, i requires 0 <= i < width => if i < |hits| then SlotOf(hits[i]) else EMPTY_SLOT)
  }

  function Compact(slots: seq<Slot>, width: nat): (r: seq<Slot>)
    ensures |r| == width
  {
    Padded(Live(slots), width)
  }

  // --- Facts about the specification ----------------------------------------

  lemma {:induction false} LiveSnoc(slots: seq<Slot>, s: Slot)
    ensures Live(slots + [s]) == Live(slots) + if s.valid == 1 then [SlotHit(s)] else []
  {
    assert (slots + [s])[..|slots|] == slots;
  }

  lemma {:induction false} LiveConcat(a: seq<Slot>, b: seq<Slot>)
    ensures Live(a + b) == Live(a) + Live(b)
  {
    if b == [] {
      assert a + b == a;
    } else {
      var n := |b| - 1;
      LiveConcat(a, b[..n]);
      assert (a + b)[..|a| + n] == a + b[..n];
    }
  }

  lemma {:induction false} LivePadded(hits: seq<Hit>, width: nat)
    ensures Live(Padded(hits, width)) == if |hits| <= width then hits else hits[..width]
  {
    if width == 0 {
      assert hits[..0] == [];
    } else {
      LivePadded(hits, width - 1);
      assert Padded(hits, width)[..width - 1] == Padded(hits, width - 1);
    }
  }

  /** Compaction keeps every match exactly when the declared width suffices. */
  lemma {:induction false} CompactLossless(slots: seq<Slot>, width: nat)
    ensures Live(Compact(slots, width)) == Live(slots) <==> |Live(slots)| <= width
  {
    LivePadded(Live(slots), width);
  }

  /** The owners' slots, end to end. */
  function Joined(owners: seq<seq<Slot>>): seq<Slot> {
    if owners == [] then [] else Joined(owners[..|owners| - 1]) + owners[|owners| - 1]
  }

  /** Every owner compacted on its own. */
  function CompactEach(owners: seq<seq<Slot>>, width: nat): (r: seq<seq<Slot>>)
    ensures |r| == |owners| && forall i :: 0 <= i < |r| ==> r[i] == Compact(owners[i], width)
  {
    seq(|owners|, i requires 0 <= i < |owners| => Compact(owners[i], width))
  }

  /** Owner-local compaction keeps the federation's matches when every owner's bound holds. */
  lemma {:induction false} CompactEachLossless(owners: seq<seq<Slot>>, width: nat)
    requires forall i :: 0 <= i < |owners| ==> |Live(owners[i])| <= width
    ensures Live(Joined(CompactEach(owners, width))) == Live(Joined(owners))
  {
    if owners != [] {
      var n := |owners| - 1;
      CompactEachLossless(owners[..n], width);
      assert CompactEach(owners, width)[..n] == CompactEach(owners[..n], width);
      LiveConcat(Joined(CompactEach(owners[..n], width)), Compact(owners[n], width));
      LiveConcat(Joined(owners[..n]), owners[n]);
      CompactLossless(owners[n], width);
    }
  }

  /** Owner-local then federation-wide compaction is one federation-wide compaction. */
  lemma {:induction false} CompactTwice(owners: seq<seq<Slot>>, ownerWidth: nat, width: nat)
    requires forall i :: 0 <= i < |owners| ==> |Live(owners[i])| <= ownerWidth
    ensures Compact(Joined(CompactEach(owners, ownerWidth)), width) == Compact(Joined(owners), width)
  {
    CompactEachLossless(owners, ownerWidth);
  }

  // --- The circuit ------------------------------------------------------------

  /** `consumed` after `rounds` rounds, the last of which has only scanned up to `upTo`. */
  ghost predicate Consumed(slots: seq<Slot>, consumed: seq<int>, rounds: nat, upTo: nat) {
    && |consumed| == |slots|
    && forall i :: 0 <= i < |slots| ==>
      consumed[i] == if slots[i].valid == 1 && |Live(slots[..i])| < (if i < upTo then rounds + 1 else rounds) then 1 else 0
  }

  /** What the accumulators hold after scanning `upTo` slots of round `rounds`. */
  function Chosen(slots: seq<Slot>, rounds: nat, upTo: nat): Slot
    requires upTo <= |slots|
  {
    if |Live(slots[..upTo])| > rounds then SlotOf(Live(slots[..upTo])[rounds]) else EMPTY_SLOT
  }

  lemma {:induction false} ScanStep(slots: seq<Slot>, consumed: seq<int>, rounds: nat, i: nat, chosen: Slot, take: int)
    requires BitSlots(slots) && i < |slots|
    requires Consumed(slots, consumed, rounds, i) && chosen == Chosen(slots, rounds, i)
    requires take == slots[i].valid * (1 - consumed[i]) * (1 - chosen.valid)
    ensures IsBit(take)
    ensures Consumed(slots, consumed[i := consumed[i] + take], rounds, i + 1)
    ensures Slot(chosen.valid + take, chosen.target + take * slots[i].target,
                 chosen.handle + take * slots[i].handle, chosen.score + take * slots[i].score)
         == Chosen(slots, rounds, i + 1)
  {
    var before, after := slots[..i], slots[..i + 1];
    assert after == before + [slots[i]];
    LiveSnoc(before, slots[i]);
    var available := slots[i].valid * (1 - consumed[i]);
    assert available == if slots[i].valid == 1 && consumed[i] == 0 then 1 else 0;
    if slots[i].valid == 1 && |Live(before)| == rounds {
      assert take == 1;
    } else {
      assert take == 0;
    }
  }

  /** The rendered loop: `width` rounds, each taking the first valid slot not yet consumed. */
  method StableCompaction(slots: seq<Slot>, width: nat) returns (frontier: seq<Slot>)
    requires BitSlots(slots)
    ensures frontier == Compact(slots, width)
  {
    var consumed := new int[|slots|](_ => 0);
    frontier := [];
    for compactSlot := 0 to width
      invariant frontier == Compact(slots, width)[..compactSlot]
      invariant Consumed(slots, consumed[..], compactSlot, 0)
    {
      var chosen := EMPTY_SLOT;
      for slot := 0 to |slots|
        invariant Consumed(slots, consumed[..], compactSlot, slot)
        invariant chosen == Chosen(slots, compactSlot, slot)
      {
        ghost var was := consumed[..];
        var available := slots[slot].valid * (1 - consumed[slot]);
        var take := available * (1 - chosen.valid);
        ScanStep(slots, was, compactSlot, slot, chosen, take);
        consumed[slot] := consumed[slot] + take;
        assert consumed[..] == was[slot := was[slot] + take];
        chosen := Slot(chosen.valid + take, chosen.target + take * slots[slot].target,
                       chosen.handle + take * slots[slot].handle, chosen.score + take * slots[slot].score);
      }
      assert slots[..|slots|] == slots;
      frontier := frontier + [chosen];
    }
  }
}
