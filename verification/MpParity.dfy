// Parity arrays: all p-bit columns with an odd (or even) number of ones, in a
// random order, and what they mean for who holds which seed.
module MpParity {
  import opened Bits
  import opened Sorting
  import opened FisherYates
  import opened Xor

  /** `bin(column).count("1")`. */
  function PopCount(column: nat): nat {
    if column == 0 then 0 else column % 2 + PopCount(column / 2)
  }

  /** `party_holds`: bit `party` of the column. */
  function PartyHolds(column: nat, party: nat): bool {
    Remainder(ShiftRight(column, party), 2) == 1
  }

  predicate HasParity(column: nat, odd: bool) {
    PopCount(column) % 2 == if odd then 1 else 0
  }

  /** The columns below `limit` of one parity, ascending. */
  function ColumnsBelow(limit: nat, odd: bool): seq<nat> {
    if limit == 0 then []
    else ColumnsBelow(limit - 1, odd) + if HasParity(limit - 1, odd) then [limit - 1] else []
  }

  /** `parity_columns`. */
  function ParityColumns(parties: nat, odd: bool): seq<nat> {
    ColumnsBelow(Pow2(parties), odd)
  }

  /** Exactly the columns of that parity, each once, in ascending order. */
  lemma {:induction false} ColumnsAreAll(limit: nat, odd: bool)
    ensures forall c: nat :: c in ColumnsBelow(limit, odd) <==> c < limit && HasParity(c, odd)
    ensures forall i, j :: 0 <= i < j < |ColumnsBelow(limit, odd)| ==> ColumnsBelow(limit, odd)[i] < ColumnsBelow(limit, odd)[j]
    ensures forall i :: 0 <= i < |ColumnsBelow(limit, odd)| ==> ColumnsBelow(limit, odd)[i] < limit
  {
    if limit > 0 {
      ColumnsAreAll(limit - 1, odd);
      hide PopCount;
    }
  }

  /** Half of the columns have each parity. */
  lemma {:induction false} HalfTheColumns(pairs: nat, odd: bool)
    ensures |ColumnsBelow(2 * pairs, odd)| == pairs
  {
    if pairs > 0 {
      HalfTheColumns(pairs - 1, odd);
      var even := 2 * pairs - 2;
      PairParity(pairs - 1, odd);
      hide HasParity;
      assert ColumnsBelow(even + 2, odd)
          == ColumnsBelow(even, odd) + (if HasParity(even, odd) then [even] else []) + if HasParity(even + 1, odd) then [even + 1] else [];
    }
  }

  /** The two columns of a pair differ in their lowest bit. */
  lemma {:induction false} PairParity(c: nat, odd: bool)
    ensures HasParity(2 * c + 1, odd) <==> !HasParity(2 * c, odd)
  {
    assert (2 * c) / 2 == c && (2 * c + 1) / 2 == c && (2 * c) % 2 == 0 && (2 * c + 1) % 2 == 1;
  }

  /** A parity array has `2^(p - 1)` columns: one per seed of a row. */
  lemma {:induction false} ParityCount(parties: nat, odd: bool)
    requires parties >= 1
    ensures |ParityColumns(parties, odd)| == Pow2(parties - 1)
  {
    HalfTheColumns(Pow2(parties - 1), odd);
  }

  /** `columns` is some ordering of the parity array. */
  ghost predicate ParityArray(columns: seq<nat>, parties: nat, odd: bool) {
    multiset(columns) == multiset(ParityColumns(parties, odd))
  }

  lemma {:induction false} ParityArrayFacts(columns: seq<nat>, parties: nat, odd: bool)
    requires parties >= 1 && ParityArray(columns, parties, odd)
    ensures |columns| == Pow2(parties - 1)
    ensures forall j :: 0 <= j < |columns| ==> columns[j] < Pow2(parties) && HasParity(columns[j], odd)
    ensures Distinct(columns)
    ensures forall c: nat :: c < Pow2(parties) && HasParity(c, odd) ==> c in columns
  {
    var all := ParityColumns(parties, odd);
    ParityCount(parties, odd);
    ColumnsAreAll(Pow2(parties), odd);
    assert |multiset(columns)| == |columns| && |multiset(all)| == |all|;
    hide PopCount, HasParity;
    forall j | 0 <= j < |columns|
      ensures columns[j] in all
    {
      assert columns[j] in multiset(columns);
    }
    DistinctCounts(all);
    forall c | c in columns
      ensures multiset(columns)[c] == 1
    {
      assert c in multiset(columns);
    }
    CountsDistinct(columns);
    forall c: nat | c in all
      ensures c in columns
    {
      assert c in multiset(all);
    }
  }

  /** The positions `random.shuffle` draws: at step `i`, one at or before `i`. */
  function StepsOf(draw: nat -> nat, n: nat): (r: seq<nat>)
    ensures Steps(r, n)
  {
    if n == 0 then [] else StepsOf(draw, n - 1) + [Remainder(draw(n - 1), n)]
  }

  /** `sample_parity_array`: the columns, shuffled by the draws. */
  method SampleParityArray(parties: nat, odd: bool, draw: nat -> nat) returns (columns: seq<nat>)
    ensures columns == Shuffled(ParityColumns(parties, odd), StepsOf(draw, |ParityColumns(parties, odd)|))
    ensures ParityArray(columns, parties, odd)
  {
    var all := ParityColumns(parties, odd);
    var a := new nat[|all|](i requires 0 <= i < |all| => all[i]);
    assert a[..] == all;
    ShuffleInPlace(a, StepsOf(draw, |all|));
    columns := a[..];
    ShuffledBag(all, StepsOf(draw, |all|));
  }

  /** Every ordering of the columns comes from exactly one sequence of drawn positions. */
  lemma {:induction false} OneArray(columns: seq<nat>, parties: nat, odd: bool) returns (steps: seq<nat>)
    requires parties >= 1 && ParityArray(columns, parties, odd)
    ensures var all := ParityColumns(parties, odd);
      && Steps(steps, |all|) && Shuffled(all, steps) == columns
      && forall other :: Steps(other, |all|) && Shuffled(all, other) == columns ==> other == steps
  {
    ColumnsAreAll(Pow2(parties), odd);
    ParityArrayFacts(ParityColumns(parties, odd), parties, odd);
    hide Shuffled, Steps, Distinct;
    steps := OneDealing(ParityColumns(parties, odd), columns);
  }

  // --- Who holds a seed -----------------------------------------------------------------

  /** How many of the first `n` parties hold the seed of a column. */
  function Holders(column: nat, n: nat): nat {
    if n == 0 then 0 else Holders(column, n - 1) + if PartyHolds(column, n - 1) then 1 else 0
  }

  /** Party 0 holds the lowest bit; the others hold the bits of the halved column. */
  lemma {:induction false} HoldersHalve(column: nat, n: nat)
    requires n > 0
    ensures Holders(column, n) == column % 2 + Holders(column / 2, n - 1)
  {
    hide Quotient, Remainder;
    if n == 1 {
      DivModUnique(column, 1, column, 0);
      Halves(column);
      assert Holders(column, 1) == Holders(column, 0) + if PartyHolds(column, 0) then 1 else 0;
    } else {
      HoldersHalve(column, n - 1);
      HalfDivide(column, n - 1);
    }
  }

  /** The holders of a seed are the ones of its column. */
  lemma {:induction false} HoldersArePopCount(column: nat, n: nat)
    requires column < Pow2(n)
    ensures Holders(column, n) == PopCount(column)
  {
    if n > 0 {
      HoldersHalve(column, n);
      HoldersArePopCount(column / 2, n - 1);
    }
  }

  /** In an odd array, every party has a seed that no other party holds. */
  lemma {:induction false} ExclusiveSeed(columns: seq<nat>, parties: nat, party: nat) returns (j: nat)
    requires ParityArray(columns, parties, true) && party < parties
    ensures j < |columns| && PartyHolds(columns[j], party) && Holders(columns[j], parties) == 1
  {
    ParityArrayFacts(columns, parties, true);
    PowerBit(party, parties);
    var c := Pow2(party);
    assert HasParity(c, true);
    assert c in columns;
    j :| 0 <= j < |columns| && columns[j] == c;
    HoldersArePopCount(c, parties);
    hide PopCount, Holders;
  }

  /** A power of two has a single one. */
  lemma {:induction false} PowerBit(party: nat, parties: nat)
    requires party < parties
    ensures Pow2(party) < Pow2(parties) && PopCount(Pow2(party)) == 1 && PartyHolds(Pow2(party), party)
  {
    PopCountPower(party);
    Pow2Monotone(party + 1, parties);
    DivModUnique(Pow2(party), Pow2(party), 1, 0);
    DivModUnique(1, 2, 0, 1);
  }

  lemma {:induction false} PopCountPower(n: nat)
    ensures PopCount(Pow2(n)) == 1
  {
    if n > 0 {
      PopCountPower(n - 1);
      assert Pow2(n) / 2 == Pow2(n - 1) && Pow2(n) % 2 == 0;
    } else {
      assert PopCount(1) == 1 % 2 + PopCount(1 / 2);
    }
  }

  /** A word xored once per holder survives exactly when the column is odd. */
  lemma {:induction false} HolderSum(t: (nat, nat) -> Word, j: nat, column: nat, w: Word, n: nat)
    requires forall i: nat :: i < n ==> t(i, j) == if PartyHolds(column, i) then w else 0
    ensures ColumnSum(t, j, n) == if Holders(column, n) % 2 == 1 then w else 0
  {
    hide Plus, PartyHolds;
    Cancel(w, 0);
    Cancel(0, 0);
    if n > 0 {
      HolderSum(t, j, column, w, n - 1);
    }
  }
}
