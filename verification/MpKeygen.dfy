// Key generation and the full-universe sweep of the multi-party point function.
module MpKeygen {
  import opened Wrappers
  import opened Bits
  import opened Xor
  import opened MpParams
  import opened MpParity
  import opened FisherYates
  import opened MpDpf

  /** Everything key generation draws: shuffles, seeds and correction words. */
  datatype Randomness = Randomness(shuffle: (nat, nat) -> nat, seed: (nat, nat) -> Seed, noise: (nat, nat) -> Word)

  // --- The correction words ----------------------------------------------------------

  ghost function PrgSum(prg: Prg, seeds: seq<Seed>, k: nat, n: nat): Word
    requires n <= |seeds|
  {
    if n == 0 then 0 else Plus(PrgSum(prg, seeds, k, n - 1), prg(seeds[n - 1], k))
  }

  ghost function WordSum(cw: seq<seq<Word>>, k: nat, n: nat): Word
    requires n <= |cw| && forall j :: 0 <= j < n ==> k < |cw[j]|
  {
    if n == 0 then 0 else Plus(WordSum(cw, k, n - 1), cw[n - 1][k])
  }

  /** Expansions and words summed apart are the contributions. */
  lemma {:induction false} ContributionsSplit(prg: Prg, seeds: seq<Seed>, cw: seq<seq<Word>>, k: nat, n: nat)
    requires n <= |seeds| == |cw| && forall j :: 0 <= j < |cw| ==> k < |cw[j]|
    ensures ContributionSum(prg, seeds, cw, k, n) == Plus(WordSum(cw, k, n), PrgSum(prg, seeds, k, n))
  {
    hide Plus;
    Cancel(0, 0);
    if n > 0 {
      ContributionsSplit(prg, seeds, cw, k, n - 1);
      Swap4(WordSum(cw, k, n - 1), cw[n - 1][k], PrgSum(prg, seeds, k, n - 1), prg(seeds[n - 1], k));
    }
  }

  lemma {:induction false} WordSumPrefix(cw: seq<seq<Word>>, more: seq<Word>, k: nat, n: nat)
    requires n <= |cw| && forall j :: 0 <= j < |cw| ==> k < |cw[j]|
    ensures WordSum(cw + [more], k, n) == WordSum(cw, k, n)
  {
    hide Plus;
    if n > 0 {
      WordSumPrefix(cw, more, k, n - 1);
    }
  }

  /** The solved last word makes all contributions sum to the target. */
  lemma {:induction false} SolvedWord(prg: Prg, seeds: seq<Seed>, cw: seq<seq<Word>>, last: seq<Word>, target: seq<Word>, k: nat)
    requires |seeds| == |cw| + 1 && k < |last| && k < |target| && forall j :: 0 <= j < |cw| ==> k < |cw[j]|
    requires last[k] == Plus(Plus(target[k], PrgSum(prg, seeds, k, |seeds|)), WordSum(cw, k, |cw|))
    ensures ContributionSum(prg, seeds, cw + [last], k, |seeds|) == target[k]
  {
    hide Plus;
    var special, partial := PrgSum(prg, seeds, k, |seeds|), WordSum(cw, k, |cw|);
    ContributionsSplit(prg, seeds, cw + [last], k, |seeds|);
    WordSumPrefix(cw, last, k, |cw|);
    Commute(partial, last[k]);
    Cancel(Plus(target[k], special), partial);
    Cancel(target[k], special);
  }

  method SumExpansions(prg: Prg, seeds: seq<Seed>, mu: nat) returns (special: seq<Word>)
    ensures |special| == mu && forall k: nat :: k < mu ==> special[k] == PrgSum(prg, seeds, k, |seeds|)
  {
    special := ZeroWords(mu);
    hide Plus;
    for j := 0 to |seeds|
      invariant |special| == mu && forall k: nat :: k < mu ==> special[k] == PrgSum(prg, seeds, k, j)
    {
      special := XorWords(special, Expand(prg, seeds[j], mu));
    }
  }

  method SumWords(cw: seq<seq<Word>>, mu: nat) returns (partial: seq<Word>)
    requires forall j :: 0 <= j < |cw| ==> |cw[j]| == mu
    ensures |partial| == mu && forall k: nat :: k < mu ==> partial[k] == WordSum(cw, k, |cw|)
  {
    partial := ZeroWords(mu);
    hide Plus;
    for j := 0 to |cw|
      invariant |partial| == mu && forall k: nat :: k < mu ==> partial[k] == WordSum(cw, k, j)
    {
      partial := XorWords(partial, cw[j]);
    }
  }

  /** Draw all words but one, and solve for the last. */
  method CorrectionWords(prg: Prg, seeds: seq<Seed>, target: seq<Word>, noise: (nat, nat) -> Word) returns (cw: seq<seq<Word>>)
    requires |seeds| >= 1
    ensures |cw| == |seeds| && forall j :: 0 <= j < |cw| ==> |cw[j]| == |target|
    ensures Corrected(prg, seeds, cw, target)
    ensures forall j, k: nat :: 0 <= j < |seeds| - 1 && k < |target| ==> |cw[j]| == |target| && cw[j][k] == noise(j, k)
  {
    var mu := |target|;
    var special := SumExpansions(prg, seeds, mu);
    var rows := new seq<Word>[|seeds|];
    for j := 0 to |seeds| - 1
      invariant forall i :: 0 <= i < j ==> |rows[i]| == mu
      invariant forall i, k: nat :: 0 <= i < j && k < mu ==> |rows[i]| == mu && rows[i][k] == noise(i, k)
    {
      rows[j] := seq(mu, (k: nat) => noise(j, k));
    }
    var drawn := rows[..|seeds| - 1];
    var partial := SumWords(drawn, mu);
    var last := XorWords(XorWords(target, special), partial);
    rows[|seeds| - 1] := last;
    cw := rows[..];
    assert cw == drawn + [last];
    hide Plus, ContributionSum;
    forall k: nat | k < mu
      ensures ContributionSum(prg, seeds, cw, k, |seeds|) == target[k]
    {
      SolvedWord(prg, seeds, drawn, last, target, k);
    }
  }

  // --- Seeds and shares ----------------------------------------------------------------

  function SeedRow(rnd: Randomness, row: nat, n: nat): (r: seq<Seed>)
    ensures |r| == n && forall j: nat :: j < n ==> r[j] == rnd.seed(row, j)
  {
    seq(n, (j: nat) => rnd.seed(row, j))
  }

  /** A row's columns: all of its parity, shuffled by the row's own draws. */
  function DrawnColumns(ps: Params, gamma: nat, rnd: Randomness, row: nat): seq<nat> {
    var all := ParityColumns(ps.partyCount, row == gamma);
    Shuffled(all, StepsOf((i: nat) => rnd.shuffle(row, i), |all|))
  }

  /** An odd array in the special row, even arrays elsewhere, and fresh seeds everywhere. */
  method SampleGrid(ps: Params, gamma: nat, rnd: Randomness) returns (columns: seq<seq<nat>>, seeds: seq<seq<Seed>>)
    requires ps.Valid()
    ensures Grid(ps, Secrets(columns, seeds), gamma)
    ensures forall row, j | 0 <= row < |seeds| && 0 <= j < |seeds[row]| :: seeds[row][j] == rnd.seed(row, j)
    ensures forall row :: 0 <= row < |columns| ==> columns[row] == DrawnColumns(ps, gamma, rnd, row)
  {
    columns, seeds := [], [];
    hide *;
    for row := 0 to ps.Nu()
      invariant |columns| == |seeds| == row
      invariant forall i :: 0 <= i < row ==> ParityArray(columns[i], ps.partyCount, i == gamma)
      invariant forall i :: 0 <= i < row ==> seeds[i] == SeedRow(rnd, i, ps.SeedsPerRow())
      invariant forall i :: 0 <= i < row ==> columns[i] == DrawnColumns(ps, gamma, rnd, i)
    {
      var sampled := SampleRow(ps, gamma, rnd, row);
      columns := columns + [sampled];
      seeds := seeds + [SeedRow(rnd, row, ps.SeedsPerRow())];
    }
    SampledGrid(ps, gamma, rnd, columns, seeds);
  }

  method SampleRow(ps: Params, gamma: nat, rnd: Randomness, row: nat) returns (columns: seq<nat>)
    ensures ParityArray(columns, ps.partyCount, row == gamma) && columns == DrawnColumns(ps, gamma, rnd, row)
  {
    columns := SampleParityArray(ps.partyCount, row == gamma, (i: nat) => rnd.shuffle(row, i));
    hide ParityArray;
  }

  lemma {:induction false} SampledGrid(ps: Params, gamma: nat, rnd: Randomness, columns: seq<seq<nat>>, seeds: seq<seq<Seed>>)
    requires ps.Valid() && |columns| == |seeds| == ps.Nu()
    requires forall i :: 0 <= i < ps.Nu() ==> ParityArray(columns[i], ps.partyCount, i == gamma)
    requires forall i :: 0 <= i < ps.Nu() ==> seeds[i] == SeedRow(rnd, i, ps.SeedsPerRow())
    ensures Grid(ps, Secrets(columns, seeds), gamma)
    ensures forall row, j | 0 <= row < |seeds| && 0 <= j < |seeds[row]| :: seeds[row][j] == rnd.seed(row, j)
  {
    hide ParityArray;
  }

  method MakeBlocks(columns: seq<nat>, seeds: seq<Seed>, party: nat) returns (blocks: seq<Seed>)
    requires |columns| == |seeds|
    ensures RowHeld(columns, seeds, blocks, party)
  {
    blocks := [];
    hide PartyHolds;
    for j := 0 to |seeds|
      invariant |blocks| == j && forall i :: 0 <= i < j ==> blocks[i] == Block(columns[i], seeds[i], party)
    {
      var block := if PartyHolds(columns[j], party) then seeds[j] else 0;
      blocks := blocks + [block];
    }
  }

  method MakeShare(ps: Params, s: Secrets, ghost gamma: nat, cw: seq<seq<Word>>, party: nat) returns (share: KeyShare)
    requires Grid(ps, s, gamma) && |cw| == ps.SeedsPerRow() && forall j :: 0 <= j < |cw| ==> |cw[j]| == ps.Mu()
    ensures ShareOf(ps, s, cw, share, party)
  {
    var sigma: seq<seq<Seed>> := [];
    GridWidths(ps, s, gamma);
    hide *;
    for row := 0 to ps.Nu()
      invariant |sigma| == row
      invariant forall i :: 0 <= i < row ==> RowHeld(s.columns[i], s.seeds[i], sigma[i], party)
    {
      var blocks := MakeBlocks(s.columns[row], s.seeds[row], party);
      sigma := sigma + [blocks];
    }
    share := KeyShare(ps, party, sigma, cw);
    IsShare(ps, s, gamma, cw, sigma, party);
  }

  lemma {:induction false} IsShare(ps: Params, s: Secrets, gamma: nat, cw: seq<seq<Word>>, sigma: seq<seq<Seed>>, party: nat)
    requires Grid(ps, s, gamma) && |cw| == ps.SeedsPerRow() && forall j :: 0 <= j < |cw| ==> |cw[j]| == ps.Mu()
    requires |sigma| == |s.columns| == |s.seeds| == ps.Nu()
    requires forall i :: 0 <= i < |sigma| ==> RowHeld(s.columns[i], s.seeds[i], sigma[i], party)
    ensures ShareOf(ps, s, cw, KeyShare(ps, party, sigma, cw), party)
  {
    forall row | 0 <= row < |sigma|
      ensures |sigma[row]| == ps.SeedsPerRow()
    {
      assert RowHeld(s.columns[row], s.seeds[row], sigma[row], party);
    }
    hide RowHeld, ParityArray;
  }

  lemma {:induction false} GridWidths(ps: Params, s: Secrets, gamma: nat)
    requires Grid(ps, s, gamma)
    ensures ps.Valid() && |s.columns| == |s.seeds| == ps.Nu()
    ensures forall row :: 0 <= row < ps.Nu() ==> |s.columns[row]| == |s.seeds[row]| == ps.SeedsPerRow()
  {
    forall row | 0 <= row < ps.Nu()
      ensures |s.columns[row]| == |s.seeds[row]| == ps.SeedsPerRow()
    {
      ParityArrayFacts(s.columns[row], ps.partyCount, row == gamma);
    }
  }

  /** `generate`: shares of `f_{alpha,beta}`, for any randomness. */
  method Generate(prg: Prg, ps: Params, alpha: int, beta: Word, rnd: Randomness)
    returns (r: Result<seq<KeyShare>>, ghost s: Secrets, ghost words: seq<seq<Word>>)
    requires ps.Valid()
    ensures r.Ok? <==> 0 <= alpha < ps.DomainSize()
    ensures r.Ok? ==> Shares(prg, ps, alpha, beta, s, words, r.value)
    ensures r.Ok? ==> forall row, j | 0 <= row < |s.seeds| && 0 <= j < |s.seeds[row]| :: s.seeds[row][j] == rnd.seed(row, j)
    ensures r.Ok? ==> ps.Cell(alpha).Ok? && forall row :: 0 <= row < |s.columns| ==> s.columns[row] == DrawnColumns(ps, ps.Cell(alpha).value.0, rnd, row)
    ensures r.Ok? ==> forall j, k: nat :: 0 <= j < |words| - 1 && k < |words[j]| ==> words[j][k] == rnd.noise(j, k)
  {
    s, words := Secrets([], []), [];
    var cell := ps.Cell(alpha);
    if cell.Err? {
      return Err(cell.error), s, words;
    }
    var (gamma, delta) := cell.value;
    GridCovers(ps, alpha);
    var columns, seeds := SampleGrid(ps, gamma, rnd);
    var secrets := Secrets(columns, seeds);
    hide Grid, Corrected, ShareOf, Target;
    assert gamma < |seeds| && |seeds[gamma]| == ps.SeedsPerRow() by {
      GridRow(ps, secrets, gamma);
    }
    var cw := CorrectionWords(prg, seeds[gamma], Target(ps.Mu(), delta, beta), rnd.noise);
    var shares: seq<KeyShare> := [];
    for i := 0 to ps.partyCount
      invariant |shares| == i && forall j :: 0 <= j < i ==> ShareOf(ps, secrets, cw, shares[j], j)
    {
      var share := MakeShare(ps, secrets, gamma, cw, i);
      shares := shares + [share];
    }
    s, words := secrets, cw;
    r := Ok(shares);
  }

  lemma {:induction false} GridRow(ps: Params, s: Secrets, gamma: nat)
    requires Grid(ps, s, gamma) && gamma < ps.Nu()
    ensures |s.seeds| == ps.Nu() && |s.seeds[gamma]| == ps.SeedsPerRow()
  {
  }

  // --- The universe sweep -----------------------------------------------------------------

  /** The row vectors laid end to end are the shares of consecutive points. */
  ghost predicate SweptTo(prg: Prg, share: KeyShare, flat: seq<Word>, rows: nat) {
    && share.WellFormed() && rows <= |share.sigma| && |flat| == Times(rows, share.ps.Mu())
    && forall x: nat :: x < |flat| && x < share.ps.DomainSize() ==> flat[x] == OutputShare(prg, share, x)
  }

  lemma {:induction false} SweepStep(prg: Prg, share: KeyShare, flat: seq<Word>, rows: nat, vector: seq<Word>)
    requires SweptTo(prg, share, flat, rows) && rows < |share.sigma| && |vector| == share.ps.Mu()
    requires forall k: nat :: k < |vector| ==> vector[k] == HeldSum(prg, share.sigma[rows], share.cw, k, share.ps.SeedsPerRow())
    ensures SweptTo(prg, share, flat + vector, rows + 1)
  {
    var mu := share.ps.Mu();
    TimesFacts(rows, mu);
    hide HeldSum, Times;
    forall x: nat | |flat| <= x < |flat| + mu && x < share.ps.DomainSize()
      ensures (flat + vector)[x] == OutputShare(prg, share, x)
    {
      InRow(rows, mu, x);
      CellOf(share, x);
    }
  }

  lemma {:induction false} InRow(rows: nat, mu: nat, x: nat)
    requires mu > 0 && Times(rows, mu) <= x < Times(rows, mu) + mu
    ensures Quotient(x, mu) == rows && Remainder(x, mu) == x - Times(rows, mu)
  {
    DivModUnique(x, mu, rows, x - Times(rows, mu));
  }

  /** `evaluate_universe`: this party's share of every rank. */
  method EvaluateUniverse(prg: Prg, share: KeyShare, universe: int) returns (r: Result<seq<Word>>)
    requires share.WellFormed()
    ensures r.Ok? <==> 0 < universe <= share.ps.DomainSize()
    ensures r.Ok? ==> |r.value| == universe && forall x: nat :: x < universe ==> r.value[x] == OutputShare(prg, share, x)
  {
    if !(0 < universe <= share.ps.DomainSize()) {
      return Err(OutOfRange);
    }
    var lastRow := Quotient(universe - 1, share.ps.Mu());
    CellOf(share, universe - 1);
    var flat: seq<Word> := [];
    TimesFacts(0, share.ps.Mu());
    hide HeldSum, Times;
    assert SweptTo(prg, share, flat, 0);
    for row := 0 to lastRow + 1
      invariant SweptTo(prg, share, flat, row)
    {
      var vector := RowVector(prg, share, row);
      SweepStep(prg, share, flat, row, vector);
      flat := flat + vector;
    }
    Covered(universe, share.ps.Mu(), lastRow);
    r := Ok(flat[..universe]);
  }

  lemma {:induction false} Covered(universe: nat, mu: nat, lastRow: nat)
    requires mu > 0 && universe > 0 && lastRow == Quotient(universe - 1, mu)
    ensures universe <= Times(lastRow + 1, mu)
  {
    DivMod(universe - 1, mu);
    TimesFacts(lastRow, mu);
    hide Quotient, Remainder;
  }
}
