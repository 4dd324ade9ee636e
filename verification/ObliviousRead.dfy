// Reading a table at a secret address: a one-hot selector from the address bits,
// and a sum over every row.
module ObliviousRead {
  import opened Gates
  import opened Bits

  /** `demux_matrix` on `bits` address bits: one selector per value the bits can take. */
  function Demux(address: nat, bits: nat): (r: seq<int>)
    ensures |r| == Pow2(bits)
    ensures forall i :: 0 <= i < |r| ==> IsBit(r[i]) && (r[i] == 1 <==> i == Remainder(address, Pow2(bits)))
  {
    seq(Pow2(bits), i requires 0 <= i => Equal(i, Remainder(address, Pow2(bits))))
  }

  /** The selector of an address that fits its bits. */
  lemma {:induction false} DemuxInRange(address: nat, bits: nat)
    requires address < Pow2(bits)
    ensures forall i :: 0 <= i < Pow2(bits) ==> Demux(address, bits)[i] == if i == address then 1 else 0
  {
    SmallQuotient(address, Pow2(bits));
    hide Quotient, Remainder;
  }

  ghost predicate Rectangular(table: seq<seq<int>>, width: nat) {
    forall i :: 0 <= i < |table| ==> |table[i]| == width
  }

  function ZeroRow(width: nat): (r: seq<int>)
    ensures |r| == width && forall i :: 0 <= i < width ==> r[i] == 0
  {
    seq(width, _ => 0)
  }

  /** One accumulation step: `sum + weight * row`. */
  function AddScaled(sum: seq<int>, weight: int, row: seq<int>): (r: seq<int>)
    requires |sum| == |row|
    ensures |r| == |sum| && forall i :: 0 <= i < |r| ==> r[i] == sum[i] + weight * row[i]
  {
    seq(|sum|, i requires 0 <= i < |sum| => sum[i] + weight * row[i])
  }

  lemma {:induction false} AddScaledBit(sum: seq<int>, weight: int, row: seq<int>)
    requires |sum| == |row| && IsBit(weight)
    ensures weight == 0 ==> AddScaled(sum, weight, row) == sum
    ensures weight == 1 && sum == ZeroRow(|sum|) ==> AddScaled(sum, weight, row) == row
  {
  }

  /** The rendered `map_sum` over all rows with a shared selector, shifted by `offset` rows. */
  method SelectRow(selector: seq<int>, table: seq<seq<int>>, rows: nat, offset: nat, width: nat, ghost address: nat)
    returns (result: seq<int>)
    requires rows <= |selector| && rows + offset <= |table| && Rectangular(table, width)
    requires forall i :: 0 <= i < |selector| ==> selector[i] == if i == address then 1 else 0
    ensures result == if address < rows then table[address + offset] else ZeroRow(width)
  {
    result := ZeroRow(width);
    for row := 0 to rows
      invariant result == if address < row then table[address + offset] else ZeroRow(width)
    {
      AddScaledBit(result, selector[row], table[row + offset]);
      result := AddScaled(result, selector[row], table[row + offset]);
    }
  }

  /** An oblivious read at a secret address. */
  method ReadRow(table: seq<seq<int>>, address: nat, bits: nat, width: nat) returns (result: seq<int>)
    requires Rectangular(table, width) && address < |table| <= Pow2(bits)
    ensures result == table[address]
  {
    DemuxInRange(address, bits);
    result := SelectRow(Demux(address, bits), table, |table|, 0, width, address);
  }

  /** `selectors.trans_mul(table)`: a matrix product, so there must be exactly one selector per table row. */
  method MultiplyRow(table: seq<seq<int>>, address: nat, bits: nat, width: nat) returns (result: seq<int>)
    requires Rectangular(table, width) && address < |table| == Pow2(bits)
    ensures result == table[address]
  {
    result := ReadRow(table, address, bits, width);
  }

  // --- Folding a shared coordinate out first ----------------------------------------

  /** The two-coordinate table `(entity, relation) -> row`, stored entity-major. */
  function Cell(table: seq<seq<int>>, relations: nat, entity: nat, relation: nat): seq<int>
    requires relation < relations && Times(entity, relations) + relation < |table|
  {
    table[Times(entity, relations) + relation]
  }

  /** Contract the relation coordinate at a secret relation, entity by entity, in chunks of public size. */
  method FoldTable(table: seq<seq<int>>, entities: nat, relations: nat, relation: nat, bits: nat, chunk: nat, width: nat)
    returns (folded: seq<seq<int>>)
    requires Rectangular(table, width) && |table| == Times(entities, relations)
    requires relation < relations <= Pow2(bits) && chunk >= 1
    ensures |folded| == entities && Rectangular(folded, width)
    ensures forall e :: 0 <= e < entities ==>
      Times(e, relations) + relation < |table| && folded[e] == Cell(table, relations, e, relation)
  {
    var selector := Demux(relation, bits);
    DemuxInRange(relation, bits);
    folded := [];
    while |folded| < entities
      invariant |folded| <= entities && Rectangular(folded, width)
      invariant forall e :: 0 <= e < |folded| ==>
        Times(e, relations) + relation < |table| && folded[e] == Cell(table, relations, e, relation)
    {
      var start := |folded|;
      var stop := if start + chunk < entities then start + chunk else entities;
      for entity := start to stop
        invariant |folded| == entity && Rectangular(folded, width)
        invariant forall e :: 0 <= e < |folded| ==>
          Times(e, relations) + relation < |table| && folded[e] == Cell(table, relations, e, relation)
      {
        TimesMonotone(entity + 1, entities, relations);
        TimesFacts(entity, relations);
        hide Times;
        var row := SelectRow(selector, table[Times(entity, relations)..Times(entity, relations) + relations],
                             relations, 0, width, relation);
        folded := folded + [row];
      }
    }
  }
}
