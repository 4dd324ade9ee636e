// The multi-party distributed point function (Boyle, Gilboa, Ishai, EUROCRYPT
// 2015, section 3.1): key generation, evaluation, and why the shares of all
// parties xor to the point function.
module MpDpf {
  import opened Wrappers
  import opened Bits
  import opened Xor
  import opened MpParams
  import opened MpParity

  type Seed = bv128

  /** The pseudorandom generator, as the words a seed expands to; nothing is assumed of it. */
  type Prg = (Seed, nat) -> Word

  function Expand(prg: Prg, seed: Seed, mu: nat): (r: seq<Word>)
    ensures |r| == mu && forall k: nat :: k < mu ==> r[k] == prg(seed, k)
  {
    seq(mu, (k: nat) => prg(seed, k))
  }

  /** Party `party`'s key: for every row of the grid its seeds, zero where not held, and the public words. */
  datatype KeyShare = KeyShare(ps: Params, party: nat, sigma: seq<seq<Seed>>, cw: seq<seq<Word>>) {
    ghost predicate WellFormed() {
      && ps.Valid() && |sigma| == ps.Nu() && |cw| == ps.SeedsPerRow()
      && (forall row :: 0 <= row < |sigma| ==> |sigma[row]| == ps.SeedsPerRow())
      && forall j :: 0 <= j < |cw| ==> |cw[j]| == ps.Mu()
    }
  }

  // --- What key generation must produce --------------------------------------------

  /** The words of `f_{alpha,beta}` in the special row. */
  function Target(mu: nat, delta: nat, beta: Word): (r: seq<Word>)
    ensures |r| == mu && forall k: nat :: k < mu ==> r[k] == if k == delta then beta else 0
  {
    seq(mu, (k: nat) => if k == delta then beta else 0)
  }

  /** Word `k` contributed by seed `j` of a row. */
  ghost function Contribution(prg: Prg, seeds: seq<Seed>, cw: seq<seq<Word>>, k: nat, j: nat): Word {
    if j < |seeds| && j < |cw| && k < |cw[j]| then Plus(cw[j][k], prg(seeds[j], k)) else 0
  }

  ghost function ContributionSum(prg: Prg, seeds: seq<Seed>, cw: seq<seq<Word>>, k: nat, n: nat): Word {
    if n == 0 then 0 else Plus(ContributionSum(prg, seeds, cw, k, n - 1), Contribution(prg, seeds, cw, k, n - 1))
  }

  /** All contributions of the special row together give the target. */
  ghost predicate Corrected(prg: Prg, seeds: seq<Seed>, cw: seq<seq<Word>>, target: seq<Word>) {
    forall k: nat :: k < |target| ==> ContributionSum(prg, seeds, cw, k, |seeds|) == target[k]
  }

  /** The secrets behind a set of shares: column orders and seeds of every row. */
  datatype Secrets = Secrets(columns: seq<seq<nat>>, seeds: seq<seq<Seed>>)

  ghost predicate Grid(ps: Params, s: Secrets, gamma: nat) {
    && ps.Valid() && |s.columns| == |s.seeds| == ps.Nu()
    && (forall row :: 0 <= row < |s.seeds| ==> |s.seeds[row]| == ps.SeedsPerRow())
    && forall row :: 0 <= row < |s.columns| ==> ParityArray(s.columns[row], ps.partyCount, row == gamma)
  }

  /** A block of a share: the seed if the party holds it, zero otherwise. */
  function Block(column: nat, seed: Seed, party: nat): Seed {
    if PartyHolds(column, party) then seed else 0
  }

  /** One row of a share. */
  ghost predicate RowHeld(columns: seq<nat>, seeds: seq<Seed>, blocks: seq<Seed>, party: nat) {
    && |blocks| == |seeds| == |columns|
    && forall j :: 0 <= j < |blocks| ==> blocks[j] == Block(columns[j], seeds[j], party)
  }

  ghost predicate HoldsSeeds(s: Secrets, sigma: seq<seq<Seed>>, party: nat, row: nat) {
    && row < |sigma| && row < |s.columns| && row < |s.seeds|
    && RowHeld(s.columns[row], s.seeds[row], sigma[row], party)
  }

  ghost predicate ShareOf(ps: Params, s: Secrets, cw: seq<seq<Word>>, share: KeyShare, party: nat) {
    && share.ps == ps && share.party == party && share.cw == cw && share.WellFormed()
    && forall row :: 0 <= row < ps.Nu() ==> HoldsSeeds(s, share.sigma, party, row)
  }

  /** The shares of `f_{alpha,beta}`. */
  ghost predicate Shares(prg: Prg, ps: Params, alpha: nat, beta: Word, s: Secrets, cw: seq<seq<Word>>, shares: seq<KeyShare>) {
    && ps.Valid() && alpha < ps.DomainSize()
    && var (gamma, delta) := ps.Cell(alpha).value;
       && Grid(ps, s, gamma) && gamma < ps.Nu()
       && Corrected(prg, s.seeds[gamma], cw, Target(ps.Mu(), delta, beta))
       && |shares| == ps.partyCount
       && forall i :: 0 <= i < |shares| ==> ShareOf(ps, s, cw, shares[i], i)
  }

  // --- Evaluation ---------------------------------------------------------------------

  /** What a held block contributes; a zero block is read as a seed that is not held. */
  ghost function HeldSum(prg: Prg, sigma: seq<Seed>, cw: seq<seq<Word>>, k: nat, n: nat): Word {
    if n == 0 then 0
    else Plus(HeldSum(prg, sigma, cw, k, n - 1),
              if n - 1 < |sigma| && sigma[n - 1] != 0 then Contribution(prg, sigma, cw, k, n - 1) else 0)
  }

  /** This party's output share at a point. */
  ghost function OutputShare(prg: Prg, share: KeyShare, x: nat): Word
    requires share.WellFormed() && x < share.ps.DomainSize()
  {
    var (gamma, delta) := share.ps.Cell(x).value;
    if gamma < |share.sigma| then HeldSum(prg, share.sigma[gamma], share.cw, delta, share.ps.SeedsPerRow()) else 0
  }

  lemma {:induction false} AccumulateBlock(prg: Prg, sigma: seq<Seed>, cw: seq<seq<Word>>, mu: nat, j: nat, acc: seq<Word>, acc': seq<Word>)
    requires j < |sigma| && j < |cw| && |cw[j]| == mu && |acc| == mu
    requires forall k: nat :: k < mu ==> acc[k] == HeldSum(prg, sigma, cw, k, j)
    requires acc' == if sigma[j] == 0 then acc else XorWords(XorWords(acc, cw[j]), Expand(prg, sigma[j], mu))
    ensures |acc'| == mu && forall k: nat :: k < mu ==> acc'[k] == HeldSum(prg, sigma, cw, k, j + 1)
  {
    forall k: nat | k < mu
      ensures acc'[k] == HeldSum(prg, sigma, cw, k, j + 1)
    {
      if sigma[j] == 0 {
        Cancel(acc[k], 0);
        hide Plus;
      } else {
        Associate(acc[k], cw[j][k], prg(sigma[j], k));
        hide Plus;
      }
    }
  }

  /** `_row_vector`. */
  method RowVector(prg: Prg, share: KeyShare, row: nat) returns (accumulator: seq<Word>)
    requires share.WellFormed() && row < |share.sigma|
    ensures |accumulator| == share.ps.Mu()
    ensures forall k: nat :: k < |accumulator| ==> accumulator[k] == HeldSum(prg, share.sigma[row], share.cw, k, share.ps.SeedsPerRow())
  {
    accumulator := ZeroWords(share.ps.Mu());
    hide Plus, Expand, XorWords, HeldSum;
    assert forall k: nat :: k < |accumulator| ==> HeldSum(prg, share.sigma[row], share.cw, k, 0) == 0 by {
      NothingHeld(prg, share.sigma[row], share.cw);
    }
    for j := 0 to share.ps.SeedsPerRow()
      invariant |accumulator| == share.ps.Mu()
      invariant forall k: nat :: k < |accumulator| ==> accumulator[k] == HeldSum(prg, share.sigma[row], share.cw, k, j)
    {
      var block := share.sigma[row][j];
      ghost var was := accumulator;
      if block != 0 {
        accumulator := XorWords(accumulator, share.cw[j]);
        accumulator := XorWords(accumulator, Expand(prg, block, share.ps.Mu()));
      }
      AccumulateBlock(prg, share.sigma[row], share.cw, share.ps.Mu(), j, was, accumulator);
    }
  }

  lemma {:induction false} NothingHeld(prg: Prg, sigma: seq<Seed>, cw: seq<seq<Word>>)
    ensures forall k: nat :: HeldSum(prg, sigma, cw, k, 0) == 0
  {
  }

  lemma {:induction false} CellOf(share: KeyShare, x: nat)
    requires share.WellFormed() && x < share.ps.DomainSize()
    ensures share.ps.Cell(x) == Ok((Quotient(x, share.ps.Mu()), Remainder(x, share.ps.Mu())))
    ensures Quotient(x, share.ps.Mu()) < |share.sigma| && Remainder(x, share.ps.Mu()) < share.ps.Mu()
  {
    GridCovers(share.ps, x);
  }

  /** `evaluate`. */
  method Evaluate(prg: Prg, share: KeyShare, point: int) returns (r: Result<Word>)
    requires share.WellFormed()
    ensures r.Ok? <==> 0 <= point < share.ps.DomainSize()
    ensures r.Ok? ==> r.value == OutputShare(prg, share, point)
  {
    var cell := share.ps.Cell(point);
    if cell.Err? {
      return Err(cell.error);
    }
    CellOf(share, point);
    var (gamma, delta) := cell.value;
    var row := RowVector(prg, share, gamma);
    r := Ok(row[delta]);
  }

  /** The cached rows are the row vectors. */
  ghost predicate CachedRows(prg: Prg, share: KeyShare, cache: map<nat, seq<Word>>) {
    && share.WellFormed()
    && forall row :: row in cache ==>
      && row < |share.sigma| && |cache[row]| == share.ps.Mu()
      && forall k: nat :: k < |cache[row]| ==> cache[row][k] == HeldSum(prg, share.sigma[row], share.cw, k, share.ps.SeedsPerRow())
  }

  predicate AllInDomain(share: KeyShare, points: seq<int>) {
    forall i :: 0 <= i < |points| ==> 0 <= points[i] < share.ps.DomainSize()
  }

  /** `evaluate_many`: one expansion per distinct row, and the same shares as point by point. */
  method EvaluateMany(prg: Prg, share: KeyShare, points: seq<int>) returns (r: Result<seq<Word>>)
    requires share.WellFormed()
    ensures r.Ok? <==> AllInDomain(share, points)
    ensures r.Ok? ==> |r.value| == |points| && forall i :: 0 <= i < |points| ==> r.value[i] == OutputShare(prg, share, points[i])
  {
    if !AllInDomain(share, points) {
      return Err(OutOfRange);
    }
    var cache := CacheRows(prg, share, points);
    var shares: seq<Word> := [];
    for i := 0 to |points|
      invariant |shares| == i
      invariant forall j :: 0 <= j < i ==> shares[j] == OutputShare(prg, share, points[j])
    {
      CellOf(share, points[i]);
      hide HeldSum;
      shares := shares + [cache[Quotient(points[i], share.ps.Mu())][Remainder(points[i], share.ps.Mu())]];
    }
    r := Ok(shares);
  }

  method CacheRows(prg: Prg, share: KeyShare, points: seq<int>) returns (cache: map<nat, seq<Word>>)
    requires share.WellFormed() && AllInDomain(share, points)
    ensures CachedRows(prg, share, cache)
    ensures forall i :: 0 <= i < |points| ==> Quotient(points[i], share.ps.Mu()) in cache
  {
    cache := map[];
    for i := 0 to |points|
      invariant CachedRows(prg, share, cache)
      invariant forall j :: 0 <= j < i ==> Quotient(points[j], share.ps.Mu()) in cache
    {
      CellOf(share, points[i]);
      hide HeldSum;
      var row := Quotient(points[i], share.ps.Mu());
      if row !in cache {
        var vector := RowVector(prg, share, row);
        cache := cache[row := vector];
      }
    }
  }

  // --- Correctness ----------------------------------------------------------------------

  /** Xor of all parties' values. */
  function Combined(values: seq<Word>): Word {
    if values == [] then 0 else Plus(Combined(values[..|values| - 1]), values[|values| - 1])
  }

  /** The contributions of the seeds that are not all zero, or of those that are. */
  ghost function SeedSum(prg: Prg, seeds: seq<Seed>, cw: seq<seq<Word>>, k: nat, n: nat, zero: bool): Word {
    if n == 0 then 0
    else Plus(SeedSum(prg, seeds, cw, k, n - 1, zero),
              if n - 1 < |seeds| && (seeds[n - 1] == 0) == zero then Contribution(prg, seeds, cw, k, n - 1) else 0)
  }

  /** Zero and nonzero seeds together are all seeds. */
  lemma {:induction false} SeedSumsSplit(prg: Prg, seeds: seq<Seed>, cw: seq<seq<Word>>, k: nat, n: nat)
    requires n <= |seeds|
    ensures Plus(SeedSum(prg, seeds, cw, k, n, false), SeedSum(prg, seeds, cw, k, n, true)) == ContributionSum(prg, seeds, cw, k, n)
  {
    hide Plus, Contribution;
    Cancel(0, 0);
    if n > 0 {
      SeedSumsSplit(prg, seeds, cw, k, n - 1);
      var w := Contribution(prg, seeds, cw, k, n - 1);
      Cancel(w, 0);
      var zero := seeds[n - 1] == 0;
      Swap4(SeedSum(prg, seeds, cw, k, n - 1, false), if zero then 0 else w, SeedSum(prg, seeds, cw, k, n - 1, true), if zero then w else 0);
    }
  }

  lemma {:induction false} NoZeroSeeds(prg: Prg, seeds: seq<Seed>, cw: seq<seq<Word>>, k: nat, n: nat)
    requires n <= |seeds| && forall j :: 0 <= j < |seeds| ==> seeds[j] != 0
    ensures SeedSum(prg, seeds, cw, k, n, true) == 0
  {
    hide Plus, Contribution;
    Cancel(0, 0);
    if n > 0 {
      NoZeroSeeds(prg, seeds, cw, k, n - 1);
    }
  }

  /** What party `i` gets from seed `j` of a row. */
  ghost function Term(prg: Prg, columns: seq<nat>, seeds: seq<Seed>, cw: seq<seq<Word>>, k: nat): (nat, nat) -> Word {
    (i: nat, j: nat) => if j < |columns| && j < |seeds| && PartyHolds(columns[j], i) && seeds[j] != 0
              then Contribution(prg, seeds, cw, k, j) else 0
  }

  lemma {:induction false} HeldIsRowSum(prg: Prg, s: Secrets, sigma: seq<seq<Seed>>, cw: seq<seq<Word>>, party: nat, row: nat, k: nat, n: nat)
    requires HoldsSeeds(s, sigma, party, row) && n <= |sigma[row]|
    ensures HeldSum(prg, sigma[row], cw, k, n) == RowSum(Term(prg, s.columns[row], s.seeds[row], cw, k), party, n)
  {
    hide Plus, PartyHolds, Term, Contribution, Block;
    if n > 0 {
      HeldIsRowSum(prg, s, sigma, cw, party, row, k, n - 1);
      HeldTerm(prg, s.columns[row], s.seeds[row], sigma[row], cw, party, k, n - 1);
    }
  }

  /** One block's contribution is the party's term. */
  lemma {:induction false} HeldTerm(prg: Prg, columns: seq<nat>, seeds: seq<Seed>, blocks: seq<Seed>, cw: seq<seq<Word>>, party: nat, k: nat, j: nat)
    requires j < |columns| == |seeds| == |blocks| && blocks[j] == Block(columns[j], seeds[j], party)
    ensures Term(prg, columns, seeds, cw, k)(party, j) == if blocks[j] != 0 then Contribution(prg, blocks, cw, k, j) else 0
  {
    hide Plus, PartyHolds;
  }

  /** Column by column, an odd row leaves its nonzero seeds and an even row leaves nothing. */
  lemma {:induction false} ColumnsGive(prg: Prg, columns: seq<nat>, seeds: seq<Seed>, cw: seq<seq<Word>>, k: nat, parties: nat, odd: bool, n: nat)
    requires |columns| == |seeds| && n <= |columns|
    requires forall j :: 0 <= j < |columns| ==> columns[j] < Pow2(parties) && HasParity(columns[j], odd)
    ensures ByColumns(Term(prg, columns, seeds, cw, k), parties, n) == if odd then SeedSum(prg, seeds, cw, k, n, false) else 0
  {
    hide Plus, Contribution, PartyHolds, Holders, PopCount;
    Cancel(0, 0);
    if n > 0 {
      ColumnsGive(prg, columns, seeds, cw, k, parties, odd, n - 1);
      var t := Term(prg, columns, seeds, cw, k);
      var w := if seeds[n - 1] == 0 then 0 else Contribution(prg, seeds, cw, k, n - 1);
      HolderSum(t, n - 1, columns[n - 1], w, parties);
      HoldersArePopCount(columns[n - 1], parties);
      Cancel(w, 0);
    }
  }

  lemma {:induction false} CombinedIsByRows(values: seq<Word>, t: (nat, nat) -> Word, m: nat)
    requires forall i :: 0 <= i < |values| ==> values[i] == RowSum(t, i, m)
    ensures Combined(values) == ByRows(t, |values|, m)
  {
    hide Plus, RowSum;
    if values != [] {
      CombinedIsByRows(values[..|values| - 1], t, m);
    }
  }

  /** The parties' words of one row, combined. */
  lemma {:induction false} RowCombines(prg: Prg, ps: Params, s: Secrets, cw: seq<seq<Word>>, shares: seq<KeyShare>, gamma: nat, row: nat, k: nat, values: seq<Word>)
    requires Grid(ps, s, gamma) && row < ps.Nu() && |values| == |shares| == ps.partyCount
    requires forall i :: 0 <= i < |shares| ==> ShareOf(ps, s, cw, shares[i], i)
    requires forall i :: 0 <= i < |values| ==> row < |shares[i].sigma| && values[i] == HeldSum(prg, shares[i].sigma[row], cw, k, ps.SeedsPerRow())
    ensures Combined(values) == if row == gamma then SeedSum(prg, s.seeds[row], cw, k, ps.SeedsPerRow(), false) else 0
  {
    hide *;
    GridRowFacts(ps, s, gamma, row);
    forall i | 0 <= i < |values|
      ensures values[i] == RowSum(Term(prg, s.columns[row], s.seeds[row], cw, k), i, ps.SeedsPerRow())
    {
      ShareTerm(prg, ps, s, cw, shares[i], i, row, k);
    }
    CombinedIsByRows(values, Term(prg, s.columns[row], s.seeds[row], cw, k), ps.SeedsPerRow());
    Exchange(Term(prg, s.columns[row], s.seeds[row], cw, k), ps.partyCount, ps.SeedsPerRow());
    ColumnsGive(prg, s.columns[row], s.seeds[row], cw, k, ps.partyCount, row == gamma, ps.SeedsPerRow());
  }

  lemma {:induction false} GridRowFacts(ps: Params, s: Secrets, gamma: nat, row: nat)
    requires Grid(ps, s, gamma) && row < ps.Nu()
    ensures ps.Valid() && row < |s.columns| == |s.seeds| && |s.columns[row]| == |s.seeds[row]| == ps.SeedsPerRow()
    ensures forall j :: 0 <= j < |s.columns[row]| ==>
      s.columns[row][j] < Pow2(ps.partyCount) && HasParity(s.columns[row][j], row == gamma)
  {
    ParityArrayFacts(s.columns[row], ps.partyCount, row == gamma);
  }

  lemma {:induction false} ShareTerm(prg: Prg, ps: Params, s: Secrets, cw: seq<seq<Word>>, share: KeyShare, party: nat, row: nat, k: nat)
    requires ShareOf(ps, s, cw, share, party) && row < ps.Nu() && row < |share.sigma| && row < |s.columns| && row < |s.seeds|
    ensures HeldSum(prg, share.sigma[row], cw, k, ps.SeedsPerRow())
         == RowSum(Term(prg, s.columns[row], s.seeds[row], cw, k), party, ps.SeedsPerRow())
  {
    assert HoldsSeeds(s, share.sigma, party, row);
    hide RowHeld, HeldSum, RowSum, Term;
    HeldIsRowSum(prg, s, share.sigma, cw, party, row, k, ps.SeedsPerRow());
  }

  /** All parties' output shares at a point. */
  ghost function OutputShares(prg: Prg, shares: seq<KeyShare>, x: nat): (r: seq<Word>)
    requires forall i :: 0 <= i < |shares| ==> shares[i].WellFormed() && x < shares[i].ps.DomainSize()
    ensures |r| == |shares| && forall i :: 0 <= i < |r| ==> r[i] == OutputShare(prg, shares[i], x)
  {
    seq(|shares|, i requires 0 <= i < |shares| => OutputShare(prg, shares[i], x))
  }

  /** The point function. */
  function PointValue(alpha: nat, beta: Word, x: nat): Word {
    if x == alpha then beta else 0
  }

  lemma {:induction false} SharesUsable(prg: Prg, ps: Params, alpha: nat, beta: Word, s: Secrets, cw: seq<seq<Word>>, shares: seq<KeyShare>, x: nat)
    requires Shares(prg, ps, alpha, beta, s, cw, shares) && x < ps.DomainSize()
    ensures forall i :: 0 <= i < |shares| ==> shares[i].WellFormed() && x < shares[i].ps.DomainSize()
  {
    hide HoldsSeeds, Corrected, Grid;
  }

  /**
   * What the parties' shares xor to, for every generator, permutation and seed: the point
   * function, disturbed exactly by the contributions of the special row's zero seeds -- and
   * by nothing at all once no seed is zero.
   */
  lemma {:induction false} SharesCombine(prg: Prg, ps: Params, alpha: nat, beta: Word, s: Secrets, cw: seq<seq<Word>>, shares: seq<KeyShare>, x: nat)
    requires Shares(prg, ps, alpha, beta, s, cw, shares) && x < ps.DomainSize()
    requires forall i :: 0 <= i < |shares| ==> shares[i].WellFormed() && x < shares[i].ps.DomainSize()
    ensures var (gamma, delta) := ps.Cell(x).value;
      gamma < |s.seeds| && Combined(OutputShares(prg, shares, x))
      == Plus(PointValue(alpha, beta, x),
              if gamma == ps.Cell(alpha).value.0 then SeedSum(prg, s.seeds[gamma], cw, delta, ps.SeedsPerRow(), true) else 0)
  {
    var (gamma, delta) := ps.Cell(x).value;
    var (special, at) := ps.Cell(alpha).value;
    GridCovers(ps, x);
    var values := OutputShares(prg, shares, x);
    forall i | 0 <= i < |values|
      ensures gamma < |shares[i].sigma| && values[i] == HeldSum(prg, shares[i].sigma[gamma], cw, delta, ps.SeedsPerRow())
    {
      assert ShareOf(ps, s, cw, shares[i], i);
    }
    RowCombines(prg, ps, s, cw, shares, special, gamma, delta, values);
    SpecialRow(prg, ps, alpha, beta, s, cw, x);
    Cancel(0, 0);
  }

  /** The nonzero seeds of the special row give the target, disturbed by the zero ones. */
  lemma {:induction false} SpecialRow(prg: Prg, ps: Params, alpha: nat, beta: Word, s: Secrets, cw: seq<seq<Word>>, x: nat)
    requires ps.Valid() && alpha < ps.DomainSize() && x < ps.DomainSize()
    requires Grid(ps, s, ps.Cell(alpha).value.0) && ps.Cell(alpha).value.0 < ps.Nu()
    requires Corrected(prg, s.seeds[ps.Cell(alpha).value.0], cw, Target(ps.Mu(), ps.Cell(alpha).value.1, beta))
    ensures var (gamma, delta) := ps.Cell(x).value;
      gamma < |s.seeds| &&
      (gamma == ps.Cell(alpha).value.0 ==>
         SeedSum(prg, s.seeds[gamma], cw, delta, ps.SeedsPerRow(), false)
         == Plus(PointValue(alpha, beta, x), SeedSum(prg, s.seeds[gamma], cw, delta, ps.SeedsPerRow(), true)))
    ensures ps.Cell(x).value.0 != ps.Cell(alpha).value.0 ==> PointValue(alpha, beta, x) == 0
  {
    GridCovers(ps, x);
    CellInjective(ps, x, alpha);
    var (gamma, delta) := ps.Cell(x).value;
    if gamma == ps.Cell(alpha).value.0 {
      var seeds, n := s.seeds[gamma], ps.SeedsPerRow();
      SeedSumsSplit(prg, seeds, cw, delta, n);
      var live, dead := SeedSum(prg, seeds, cw, delta, n, false), SeedSum(prg, seeds, cw, delta, n, true);
      assert ContributionSum(prg, seeds, cw, delta, n) == Target(ps.Mu(), ps.Cell(alpha).value.1, beta)[delta];
      assert Plus(live, dead) == PointValue(alpha, beta, x);
      hide *;
      Cancel(live, dead);
    }
  }

  /** What the sampler guarantees by redrawing. */
  ghost predicate NonzeroSeeds(s: Secrets) {
    forall row, j | 0 <= row < |s.seeds| && 0 <= j < |s.seeds[row]| :: s.seeds[row][j] != 0
  }

  /** With nonzero seeds the shares xor to the point function at every domain point. */
  lemma {:induction false} PointFunction(prg: Prg, ps: Params, alpha: nat, beta: Word, s: Secrets, cw: seq<seq<Word>>, shares: seq<KeyShare>, x: nat)
    requires Shares(prg, ps, alpha, beta, s, cw, shares) && x < ps.DomainSize() && NonzeroSeeds(s)
    requires forall i :: 0 <= i < |shares| ==> shares[i].WellFormed() && x < shares[i].ps.DomainSize()
    ensures Combined(OutputShares(prg, shares, x)) == PointValue(alpha, beta, x)
  {
    SharesCombine(prg, ps, alpha, beta, s, cw, shares, x);
    var (gamma, delta) := ps.Cell(x).value;
    hide Combined, SeedSum, Plus, Corrected, ShareOf;
    if gamma == ps.Cell(alpha).value.0 {
      NoZeroSeeds(prg, s.seeds[gamma], cw, delta, ps.SeedsPerRow());
    }
    Cancel(PointValue(alpha, beta, x), 0);
  }

  /** A zero seed that disturbs the special row makes the shares miss the point function: redrawing is necessary. */
  lemma {:induction false} ZeroSeedsMatter(prg: Prg, ps: Params, alpha: nat, beta: Word, s: Secrets, cw: seq<seq<Word>>, shares: seq<KeyShare>, x: nat)
    requires Shares(prg, ps, alpha, beta, s, cw, shares) && x < ps.DomainSize()
    requires forall i :: 0 <= i < |shares| ==> shares[i].WellFormed() && x < shares[i].ps.DomainSize()
    ensures var (gamma, delta) := ps.Cell(x).value;
      gamma < |s.seeds| &&
      (Combined(OutputShares(prg, shares, x)) == PointValue(alpha, beta, x) <==>
       gamma != ps.Cell(alpha).value.0 || SeedSum(prg, s.seeds[gamma], cw, delta, ps.SeedsPerRow(), true) == 0)
  {
    SharesCombine(prg, ps, alpha, beta, s, cw, shares, x);
    var (gamma, delta) := ps.Cell(x).value;
    var value, extra := PointValue(alpha, beta, x), SeedSum(prg, s.seeds[gamma], cw, delta, ps.SeedsPerRow(), true);
    hide Combined, SeedSum, Plus, Corrected, ShareOf;
    Cancel(value, 0);
    Cancel(extra, value);
    Cancel(value, value);
    Commute(value, extra);
  }
}
