// Packed adjacency records: five fixed-width fields in one integer.
module PackedEdges {
  import opened Wrappers
  import opened Bits
  import opened FieldPacking

  datatype Record = Record(target: nat, relation: nat, evidence: nat, score: nat)

  /** Public field widths: target, relation, evidence, score, valid. */
  datatype Widths = Widths(slotBits: nat, relationBits: nat, evidenceBits: nat, scoreBits: nat, usableBits: nat) {
    function List(): (r: seq<nat>)
      ensures |r| == 5
    {
      [slotBits, relationBits, evidenceBits, scoreBits, 1]
    }

    /** The number of bits of a packed edge. */
    function Bits(): nat {
      slotBits + relationBits + evidenceBits + scoreBits + 1
    }
  }

  lemma {:induction false} TotalBits(w: Widths)
    ensures Total(w.List()) == w.Bits()
  {
    assert Total([1]) == 1 + Total([1][1..]);
    TotalCons(w.scoreBits, [1]);
    TotalCons(w.evidenceBits, [w.scoreBits, 1]);
    TotalCons(w.relationBits, [w.evidenceBits, w.scoreBits, 1]);
    TotalCons(w.slotBits, [w.relationBits, w.evidenceBits, w.scoreBits, 1]);
    assert w.List() == [w.slotBits] + [w.relationBits, w.evidenceBits, w.scoreBits, 1];
    assert [w.relationBits, w.evidenceBits, w.scoreBits, 1] == [w.relationBits] + [w.evidenceBits, w.scoreBits, 1];
    assert [w.evidenceBits, w.scoreBits, 1] == [w.evidenceBits] + [w.scoreBits, 1];
    assert [w.scoreBits, 1] == [w.scoreBits] + [1];
  }

  lemma {:induction false} TotalCons(w: nat, ws: seq<nat>)
    ensures Total([w] + ws) == w + Total(ws)
  {
    assert ([w] + ws)[1..] == ws;
  }

  ghost predicate RecordFits(w: Widths, e: Record) {
    && e.target < Pow2(w.slotBits) && e.relation < Pow2(w.relationBits)
    && e.evidence < Pow2(w.evidenceBits) && e.score < Pow2(w.scoreBits)
  }

  function FieldsOf(e: Record, valid: nat): (r: seq<nat>)
    ensures |r| == 5
  {
    [e.target, e.relation, e.evidence, e.score, valid]
  }

  /** The stored form of a real edge. */
  function PackedRecord(w: Widths, e: Record): nat {
    Pack(FieldsOf(e, 1), w.List())
  }

  lemma {:induction false} FitsWidths(w: Widths, e: Record)
    ensures RecordFits(w, e) <==> Fits(FieldsOf(e, 1), w.List())
  {
    var v, l := FieldsOf(e, 1), w.List();
    assert Pow2(1) == 2;
    assert v[0] < Pow2(l[0]) <==> e.target < Pow2(w.slotBits);
    assert v[1] < Pow2(l[1]) <==> e.relation < Pow2(w.relationBits);
    assert v[2] < Pow2(l[2]) <==> e.evidence < Pow2(w.evidenceBits);
    assert v[3] < Pow2(l[3]) <==> e.score < Pow2(w.scoreBits);
    assert v[4] < Pow2(l[4]);
  }

  /** The packed form, bit range by bit range: the target lowest, the set valid bit on top. */
  lemma {:induction false} PackedFormat(w: Widths, e: Record)
    ensures PackedRecord(w, e)
         == e.target + Pow2(w.slotBits) * (e.relation + Pow2(w.relationBits) * (e.evidence + Pow2(w.evidenceBits) * (e.score + Pow2(w.scoreBits) * 1)))
  {
    PackCons(1, 1, [], []);
    PackCons(e.score, w.scoreBits, [1], [1]);
    PackCons(e.evidence, w.evidenceBits, [e.score, 1], [w.scoreBits, 1]);
    PackCons(e.relation, w.relationBits, [e.evidence, e.score, 1], [w.evidenceBits, w.scoreBits, 1]);
    PackCons(e.target, w.slotBits, [e.relation, e.evidence, e.score, 1], [w.relationBits, w.evidenceBits, w.scoreBits, 1]);
    hide Pow2, Pack;
    assert [1] + [] == [1] && [e.score] + [1] == [e.score, 1] && [w.scoreBits] + [1] == [w.scoreBits, 1];
    assert [e.evidence] + [e.score, 1] == [e.evidence, e.score, 1] && [w.evidenceBits] + [w.scoreBits, 1] == [w.evidenceBits, w.scoreBits, 1];
    assert [e.relation] + [e.evidence, e.score, 1] == [e.relation, e.evidence, e.score, 1];
    assert [w.relationBits] + [w.evidenceBits, w.scoreBits, 1] == [w.relationBits, w.evidenceBits, w.scoreBits, 1];
    assert FieldsOf(e, 1) == [e.target] + [e.relation, e.evidence, e.score, 1];
    assert w.List() == [w.slotBits] + [w.relationBits, w.evidenceBits, w.scoreBits, 1];
  }

  lemma {:induction false} PackCons(v: nat, w: nat, vs: seq<nat>, ws: seq<nat>)
    requires |vs| == |ws|
    ensures Pack([v] + vs, [w] + ws) == v + Pow2(w) * Pack(vs, ws)
    ensures vs == [] ==> Pack([v] + vs, [w] + ws) == v
  {
    assert ([v] + vs)[1..] == vs && ([w] + ws)[1..] == ws;
  }

  /** A stored edge is never the all-zero slot, and reading its fields gives the edge back. */
  lemma {:induction false} PackedRecordReads(w: Widths, e: Record)
    requires RecordFits(w, e)
    ensures 0 < PackedRecord(w, e) < Pow2(w.Bits())
    ensures Unpack(PackedRecord(w, e), w.List()) == FieldsOf(e, 1)
  {
    FitsWidths(w, e);
    TotalBits(w);
    PackBound(FieldsOf(e, 1), w.List());
    UnpackPack(FieldsOf(e, 1), w.List());
    UnpackZero(w.List());
    assert Unpack(PackedRecord(w, e), w.List())[4] == 1;
  }

  lemma {:induction false} UnpackZero(widths: seq<nat>)
    ensures forall i :: 0 <= i < |widths| ==> Unpack(0, widths)[i] == 0
    decreases |widths|
  {
    if widths != [] {
      SmallQuotient(0, Pow2(widths[0]));
      UnpackZero(widths[1..]);
    }
  }

  /** `pack_edge`: range-check each field, then OR it in above the fields before it. */
  method PackEdge(w: Widths, values: seq<nat>) returns (r: Result<nat>)
    requires |values| == 5
    ensures r.Ok? <==> w.Bits() <= w.usableBits && Fits(values, w.List())
    ensures r.Ok? ==> r.value == Pack(values, w.List())
  {
    if w.Bits() > w.usableBits {
      return Err(FieldOverflow);
    }
    var widths := w.List();
    var result, shift: nat := 0, 0;
    for i := 0 to 5
      invariant Fits(values[..i], widths[..i])
      invariant shift == Total(widths[..i]) && result == Pack(values[..i], widths[..i])
    {
      if values[i] >= Pow2(widths[i]) {
        return Err(BadValue);
      }
      PackBound(values[..i], widths[..i]);
      OrDisjoint(result, values[i], shift);
      PackSnoc(values[..i], widths[..i], values[i], widths[i]);
      assert values[..i + 1] == values[..i] + [values[i]] && widths[..i + 1] == widths[..i] + [widths[i]];
      result := Or(result, ShiftLeft(values[i], shift));
      shift := shift + widths[i];
    }
    assert values[..5] == values && widths[..5] == widths;
    r := Ok(result);
  }

  /** `unpack_edge`: mask off and shift out each field. */
  method UnpackEdge(w: Widths, value: nat) returns (r: Result<seq<nat>>)
    ensures r.Ok? <==> w.Bits() <= w.usableBits && value < Pow2(w.Bits())
    ensures r.Ok? ==> r.value == Unpack(value, w.List())
  {
    if w.Bits() > w.usableBits || value >= Pow2(w.Bits()) {
      return Err(BadValue);
    }
    var widths := w.List();
    var result: seq<nat> := [];
    var rest := value;
    for i := 0 to 5
      invariant result + Unpack(rest, widths[i..]) == Unpack(value, widths)
    {
      AndMask(rest, widths[i]);
      assert widths[i..][1..] == widths[i + 1..];
      ghost var tail := Unpack(Quotient(rest, Pow2(widths[i])), widths[i + 1..]);
      assert result + ([Remainder(rest, Pow2(widths[i]))] + tail) == result + [Remainder(rest, Pow2(widths[i]))] + tail;
      result := result + [And(rest, Pow2(widths[i]) - 1)];
      rest := ShiftRight(rest, widths[i]);
    }
    r := Ok(result);
  }
}
