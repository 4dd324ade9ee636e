// Fixed-width fields packed side by side into one integer.
module FieldPacking {
  import opened Bits

  ghost predicate Fits(values: seq<nat>, widths: seq<nat>) {
    |values| == |widths| && forall i :: 0 <= i < |values| ==> values[i] < Pow2(widths[i])
  }

  function Total(widths: seq<nat>): nat {
    if widths == [] then 0 else widths[0] + Total(widths[1..])
  }

  /** The packed integer, first field lowest. */
  function Pack(values: seq<nat>, widths: seq<nat>): nat
    requires |values| == |widths|
  {
    if values == [] then 0
    else
      ProductIsNat(Pow2(widths[0]), Pack(values[1..], widths[1..]));
      values[0] + Pow2(widths[0]) * Pack(values[1..], widths[1..])
  }

  function Unpack(v: nat, widths: seq<nat>): (r: seq<nat>)
    ensures |r| == |widths|
    decreases |widths|
  {
    if widths == [] then []
    else [Remainder(v, Pow2(widths[0]))] + Unpack(Quotient(v, Pow2(widths[0])), widths[1..])
  }

  /** Unpacking what was packed. */
  lemma {:induction false} UnpackPack(values: seq<nat>, widths: seq<nat>)
    requires Fits(values, widths)
    ensures Unpack(Pack(values, widths), widths) == values
  {
    if values != [] {
      var rest, d := Pack(values[1..], widths[1..]), Pow2(widths[0]);
      assert d * rest == rest * d;
      DivModUnique(Pack(values, widths), d, rest, values[0]);
      hide Quotient, Remainder;
      UnpackPack(values[1..], widths[1..]);
      assert values == [values[0]] + values[1..];
    }
  }

  /** Packing what was unpacked, and every unpacked field fits. */
  lemma {:induction false} PackUnpack(v: nat, widths: seq<nat>)
    requires v < Pow2(Total(widths))
    ensures Fits(Unpack(v, widths), widths) && Pack(Unpack(v, widths), widths) == v
    decreases |widths|
  {
    hide Quotient, Remainder;
    if widths != [] {
      var d, rest := Pow2(widths[0]), Total(widths[1..]);
      Pow2Add(widths[0], rest);
      QuotientBound(v, d, Pow2(rest));
      PackUnpack(Quotient(v, d), widths[1..]);
      DivMod(v, d);
      assert d * Quotient(v, d) == Quotient(v, d) * d;
      assert Unpack(v, widths)[1..] == Unpack(Quotient(v, d), widths[1..]);
    }
  }

  lemma {:induction false} PackBound(values: seq<nat>, widths: seq<nat>)
    requires Fits(values, widths)
    ensures Pack(values, widths) < Pow2(Total(widths))
  {
    if values != [] {
      var rest, d := Pack(values[1..], widths[1..]), Pow2(widths[0]);
      PackBound(values[1..], widths[1..]);
      Pow2Add(widths[0], Total(widths[1..]));
      TopFieldBound(values[0], rest, d, Pow2(Total(widths[1..])));
    }
  }

  lemma {:induction false} TopFieldBound(v: nat, rest: nat, d: nat, b: nat)
    requires v < d && rest < b
    ensures v + d * rest < d * b
  {
    ProductOrder(rest, b - 1, d);
    assert d * rest == rest * d;
    assert (b - 1) * d == d * b - d;
  }

  /** One more field goes on top of the fields already packed. */
  lemma {:induction false} PackSnoc(values: seq<nat>, widths: seq<nat>, v: nat, w: nat)
    requires |values| == |widths|
    ensures Pack(values + [v], widths + [w]) == Pack(values, widths) + ShiftLeft(v, Total(widths))
    ensures Total(widths + [w]) == Total(widths) + w
  {
    if values == [] {
      assert values + [v] == [v] && widths + [w] == [w];
      assert Pack([v][1..], [w][1..]) == 0;
    } else {
      PackSnoc(values[1..], widths[1..], v, w);
      assert (values + [v])[1..] == values[1..] + [v];
      assert (widths + [w])[1..] == widths[1..] + [w];
      Pow2Add(widths[0], Total(widths[1..]));
      ShiftTwice(Pack(values[1..], widths[1..]), v, Pow2(widths[0]), Pow2(Total(widths[1..])));
    }
  }

  lemma {:induction false} ShiftTwice(rest: int, v: int, d: int, t: int)
    ensures d * (rest + v * t) == d * rest + v * (d * t)
  {
    assert d * (v * t) == v * (d * t);
  }

  /** Field `i` sits above the fields before it. */
  lemma {:induction false} UnpackAt(v: nat, widths: seq<nat>, i: nat)
    requires i < |widths|
    ensures Unpack(v, widths)[i] == Field(v, Total(widths[..i]), Total(widths[..i]) + widths[i])
    decreases |widths|
  {
    hide Quotient, Remainder;
    if i == 0 {
      assert widths[..0] == [];
      DivModUnique(v, 1, v, 0);
    } else {
      UnpackAt(Quotient(v, Pow2(widths[0])), widths[1..], i - 1);
      assert widths[..i][1..] == widths[1..][..i - 1];
      Pow2Add(widths[0], Total(widths[1..][..i - 1]));
      DivDiv(v, Pow2(widths[0]), Pow2(Total(widths[1..][..i - 1])));
    }
  }
}
