// The one-time federation-wide frontier check: owners' occupancy vectors, the
// circuit's single opened value, and what a zero verdict buys.
module BoundCheck {
  import opened Wrappers
  import opened Bits
  import opened PageConfig
  import opened Sorting
  import opened OwnerEdges
  import opened PageLayout
  import opened GraphAnswer
  import opened PagedEvaluation
  import opened PagedCircuit
  import opened DirectoryReads
  import opened PrimeField
  import opened OverflowPolynomial
  import opened Sharing

  // --- Occupancy vectors ---------------------------------------------------------

  /** The key of a dense directory row. */
  function KeyOfRow(c: Config, row: nat): Key
    requires c.RelationCount() > 0
  {
    Key(Quotient(row, c.RelationCount()), Remainder(row, c.RelationCount()) + 1)
  }

  lemma {:induction false} RowOfKey(c: Config, row: nat)
    requires c.RelationCount() > 0
    ensures 1 <= KeyOfRow(c, row).relation <= c.RelationCount() && c.DenseIndex(KeyOfRow(c, row)) == row
  {
    DivMod(row, c.RelationCount());
  }

  lemma {:induction false} KeyOfDenseIndex(c: Config, key: Key)
    requires 1 <= key.relation <= c.RelationCount()
    ensures KeyOfRow(c, c.DenseIndex(key)) == key
  {
    DivModUnique(c.DenseIndex(key), c.RelationCount(), key.source, key.relation - 1);
  }

  /** The owner's edge count of every dense row. */
  ghost predicate Occupancy(c: Config, rs: seq<Resolved>, occupancy: seq<nat>) {
    && c.RelationCount() > 0 && |occupancy| == c.DenseRows()
    && forall row :: 0 <= row < |occupancy| ==> occupancy[row] == |RecordsAt(rs, KeyOfRow(c, row))|
  }

  /** Rows of the first `n` keys have been filled in. */
  ghost predicate FilledIn(c: Config, rs: seq<Resolved>, keys: seq<Key>, n: nat, occupancy: seq<nat>) {
    && c.RelationCount() > 0 && |occupancy| == c.DenseRows() && n <= |keys|
    && forall row :: 0 <= row < |occupancy| ==>
      occupancy[row] == if KeyOfRow(c, row) in keys[..n] then |RecordsAt(rs, KeyOfRow(c, row))| else 0
  }

  lemma {:induction false} FillRow(c: Config, rs: seq<Resolved>, keys: seq<Key>, n: nat, occupancy: seq<nat>)
    requires FilledIn(c, rs, keys, n, occupancy) && n < |keys| && c.InRange(keys[n])
    ensures c.DenseIndex(keys[n]) < |occupancy|
    ensures FilledIn(c, rs, keys, n + 1, occupancy[c.DenseIndex(keys[n]) := |RecordsAt(rs, keys[n])|])
  {
    DenseIndexInRange(c, keys[n]);
    KeyOfDenseIndex(c, keys[n]);
    var at := c.DenseIndex(keys[n]);
    assert keys[..n + 1] == keys[..n] + [keys[n]];
    forall row | 0 <= row < |occupancy| && row != at
      ensures KeyOfRow(c, row) in keys[..n + 1] <==> KeyOfRow(c, row) in keys[..n]
    {
      RowOfKey(c, row);
    }
    hide KeyOfRow, RecordsAt;
  }

  lemma {:induction false} AllFilledIn(c: Config, rs: seq<Resolved>, occupancy: seq<nat>)
    requires FilledIn(c, rs, KeysOf(rs), |KeysOf(rs)|, occupancy)
    ensures Occupancy(c, rs, occupancy)
  {
    assert KeysOf(rs)[..|KeysOf(rs)|] == KeysOf(rs);
    forall row | 0 <= row < |occupancy|
      ensures occupancy[row] == |RecordsAt(rs, KeyOfRow(c, row))|
    {
      KeysOfMembers(rs, KeyOfRow(c, row));
    }
  }

  lemma {:induction false} GroupedKeyInRange(c: Config, edges: seq<RawEdge>, i: nat)
    requires c.Valid() && AllAcceptable(c, edges) && i < |KeysOf(ResolveAll(c, edges))|
    ensures c.InRange(KeysOf(ResolveAll(c, edges))[i])
  {
    var rs := ResolveAll(c, edges);
    KeysInUse(rs, KeysOf(rs)[i]);
    var j :| 0 <= j < |rs| && rs[j].key == KeysOf(rs)[i];
    ResolvedFacts(c, edges, j);
  }

  /** `owner_occupancy_vector`. */
  method OwnerOccupancy(c: Config, edges: seq<RawEdge>) returns (r: Result<seq<nat>>)
    requires c.Valid()
    ensures r.Ok? <==> AllAcceptable(c, edges)
    ensures r.Ok? ==> Occupancy(c, ResolveAll(c, edges), r.value)
  {
    var grouped := GroupEdges(c, edges);
    if grouped.Err? {
      return Err(grouped.error);
    }
    var g := grouped.value;
    ghost var rs := ResolveAll(c, edges);
    var occupancy := new nat[c.DenseRows()](_ => 0);
    assert FilledIn(c, rs, g.order, 0, occupancy[..]);
    hide FilledIn;
    for i := 0 to |g.order|
      invariant FilledIn(c, rs, g.order, i, occupancy[..])
    {
      var key := g.order[i];
      GroupedKeyInRange(c, edges, i);
      FillRow(c, rs, g.order, i, occupancy[..]);
      occupancy[c.DenseIndex(key)] := |g.records[key]|;
    }
    AllFilledIn(c, rs, occupancy[..]);
    r := Ok(occupancy[..]);
  }

  // --- Federation-wide degrees ------------------------------------------------------------

  /** Edges under a key, over the first `n` owners' vectors. */
  function Total(vectors: seq<seq<nat>>, row: nat, n: nat): nat
    requires n <= |vectors| && forall o :: 0 <= o < |vectors| ==> row < |vectors[o]|
  {
    if n == 0 then 0 else Total(vectors, row, n - 1) + vectors[n - 1][row]
  }

  /** Every owner's vector is its own occupancy. */
  ghost predicate Occupancies(c: Config, owners: seq<seq<RawEdge>>, vectors: seq<seq<nat>>) {
    && OwnersAcceptable(c, owners) && |vectors| == |owners|
    && forall o :: 0 <= o < |vectors| ==> Occupancy(c, ResolveOwners(c, owners)[o], vectors[o])
  }

  lemma {:induction false} SortedCount(rs: seq<Resolved>, key: Key)
    ensures |SortedAt(rs, key)| == |RecordsAt(rs, key)|
  {
    OrdersAreTotal();
    SortBySorted(RecordsAt(rs, key), RecordAtMost);
    assert |multiset(SortedAt(rs, key))| == |SortedAt(rs, key)|;
    assert |multiset(RecordsAt(rs, key))| == |RecordsAt(rs, key)|;
  }

  lemma {:induction false} OwnerCount(c: Config, owners: seq<seq<RawEdge>>, vectors: seq<seq<nat>>, row: nat, o: nat)
    requires Occupancies(c, owners, vectors) && row < c.DenseRows() && o < |owners| && c.RelationCount() > 0
    ensures AllAcceptable(c, owners[o]) && o < |vectors| && row < |vectors[o]|
    ensures vectors[o][row] == |HitsOf(SortedAt(ResolveAll(c, owners[o]), KeyOfRow(c, row)))|
  {
    assert Occupancy(c, ResolveOwners(c, owners)[o], vectors[o]);
    SortedCount(ResolveAll(c, owners[o]), KeyOfRow(c, row));
    hide SortedAt, RecordsAt;
  }

  /** A row's total is the federation's number of matches of its key. */
  lemma {:induction false} TotalIsDegree(c: Config, owners: seq<seq<RawEdge>>, vectors: seq<seq<nat>>, row: nat, n: nat)
    requires Occupancies(c, owners, vectors) && row < c.DenseRows() && n <= |owners| && c.RelationCount() > 0
    requires forall o :: 0 <= o < |vectors| ==> row < |vectors[o]|
    ensures Total(vectors, row, n) == |KeyHits(ResolveOwners(c, owners)[..n], KeyOfRow(c, row))|
  {
    if n == 0 {
      NoDegree(c, owners, KeyOfRow(c, row));
    } else {
      hide Occupancies, KeyHits, ResolveOwners, SortedAt, OwnersAcceptable, KeyOfRow, HitsOf, ResolveAll;
      OwnerCount(c, owners, vectors, row, n - 1);
      KeyHitsStep(c, owners, KeyOfRow(c, row), n - 1);
      TotalIsDegree(c, owners, vectors, row, n - 1);
    }
  }

  lemma {:induction false} NoDegree(c: Config, owners: seq<seq<RawEdge>>, key: Key)
    requires OwnersAcceptable(c, owners)
    ensures KeyHits(ResolveOwners(c, owners)[..0], key) == []
  {
  }

  // --- The circuit's opened value --------------------------------------------------------------

  /** Rows whose total exceeds the bound. */
  function CountAbove(totals: seq<nat>, bound: nat): (n: nat)
    ensures n <= |totals|
  {
    if totals == [] then 0 else CountAbove(totals[..|totals| - 1], bound) + Indicator(totals[|totals| - 1] > bound)
  }

  lemma {:induction false} CountZero(totals: seq<nat>, bound: nat)
    ensures CountAbove(totals, bound) == 0 <==> forall row :: 0 <= row < |totals| ==> totals[row] <= bound
  {
    if totals != [] {
      CountZero(totals[..|totals| - 1], bound);
    }
  }

  /** The rows of all owners' vectors, as reconstructed from their shares. */
  ghost predicate Reconstructed(vectors: seq<seq<nat>>, p: nat, counts: seq<nat>) {
    && p > 0 && (forall o :: 0 <= o < |vectors| ==> |vectors[o]| == |counts|)
    && forall row :: 0 <= row < |counts| ==> counts[row] == Mod(Total(vectors, row, |vectors|), p)
  }

  /** Overflow flags summed in the field. */
  method SumFlags(overflow: seq<nat>, ghost totals: seq<nat>, ghost bound: nat, p: nat) returns (violations: nat)
    requires p > 0 && |overflow| == |totals|
    requires forall row :: 0 <= row < |totals| ==> overflow[row] == Indicator(totals[row] > bound)
    ensures violations == Mod(CountAbove(totals, bound), p)
  {
    violations := 0;
    ModSmall(0, p);
    for row := 0 to |overflow|
      invariant violations == Mod(CountAbove(totals[..row], bound), p)
    {
      assert totals[..row + 1][..row] == totals[..row];
      hide Mod, Indicator;
      ModAdd(CountAbove(totals[..row], bound), overflow[row], p);
      violations := Mod(violations + overflow[row], p);
    }
    assert totals[..|totals|] == totals;
  }

  /** The rendered program: interpolate, evaluate by Horner on all rows at once, open the sum. */
  method BoundCircuit(bound: int, maximum: int, p: nat, counts: seq<nat>, ghost totals: seq<nat>) returns (violations: Result<nat>)
    requires Prime(p) && |counts| == |totals|
    requires forall row :: 0 <= row < |totals| ==> totals[row] <= maximum && counts[row] == Mod(totals[row], p)
    ensures violations.Ok? <==> 0 <= bound < maximum < p
    ensures violations.Ok? ==> violations.value == Mod(CountAbove(totals, bound), p)
  {
    var coefficients := OverflowCoefficients(bound, maximum, p);
    if coefficients.Err? {
      return Err(coefficients.error);
    }
    InterpolationLength(coefficients.value, bound, maximum + 1, maximum, p);
    var overflow := HornerPass(coefficients.value, counts, p);
    forall row | 0 <= row < |totals|
      ensures overflow[row] == Indicator(totals[row] > bound)
    {
      ModSmall(totals[row], p);
      assert Mod(Eval(coefficients.value, totals[row]), p) == Indicator(bound < totals[row] < maximum + 1);
    }
    hide Mod, Eval, Interpolates, Prime;
    var count := SumFlags(overflow, totals, bound, p);
    violations := Ok(count);
  }

  // --- The verdict --------------------------------------------------------------------------------

  /** The federation's totals, row by row. */
  ghost function Totals(c: Config, vectors: seq<seq<nat>>): (r: seq<nat>)
    requires forall o :: 0 <= o < |vectors| ==> |vectors[o]| == c.DenseRows()
    ensures |r| == c.DenseRows() && forall row :: 0 <= row < |r| ==> r[row] == Total(vectors, row, |vectors|)
  {
    seq(c.DenseRows(), row requires 0 <= row < c.DenseRows() => Total(vectors, row, |vectors|))
  }

  /** No key of the federation exceeds the bound. */
  ghost predicate FrontierRespected(c: Config, owners: seq<seq<RawEdge>>, bound: nat)
    requires OwnersAcceptable(c, owners)
  {
    forall key: Key :: c.InRange(key) ==> |KeyHits(ResolveOwners(c, owners), key)| <= bound
  }

  lemma {:induction false} TotalsAreDegrees(c: Config, owners: seq<seq<RawEdge>>, vectors: seq<seq<nat>>, row: nat)
    requires c.Valid() && Occupancies(c, owners, vectors) && row < c.DenseRows()
    requires forall o :: 0 <= o < |vectors| ==> |vectors[o]| == c.DenseRows()
    ensures Totals(c, vectors)[row] == |KeyHits(ResolveOwners(c, owners), KeyOfRow(c, row))|
  {
    TotalIsDegree(c, owners, vectors, row, |owners|);
    assert ResolveOwners(c, owners)[..|owners|] == ResolveOwners(c, owners);
  }

  /** The opened count is zero exactly when every key respects the bound. */
  lemma {:induction false} CountIsVerdict(c: Config, owners: seq<seq<RawEdge>>, vectors: seq<seq<nat>>, bound: nat)
    requires c.Valid() && Occupancies(c, owners, vectors)
    requires forall o :: 0 <= o < |vectors| ==> |vectors[o]| == c.DenseRows()
    ensures CountAbove(Totals(c, vectors), bound) == 0 <==> FrontierRespected(c, owners, bound)
  {
    var totals := Totals(c, vectors);
    CountZero(totals, bound);
    if CountAbove(totals, bound) == 0 {
      forall key: Key | c.InRange(key)
        ensures |KeyHits(ResolveOwners(c, owners), key)| <= bound
      {
        DenseIndexInRange(c, key);
        KeyOfDenseIndex(c, key);
        TotalsAreDegrees(c, owners, vectors, c.DenseIndex(key));
      }
    }
    if FrontierRespected(c, owners, bound) {
      forall row: nat | row < |totals|
        ensures totals[row] <= bound
      {
        TotalsAreDegrees(c, owners, vectors, row);
        RowOfKey(c, row);
        RowDegree(c, owners, row, bound);
      }
    }
  }

  lemma {:induction false} RowDegree(c: Config, owners: seq<seq<RawEdge>>, row: nat, bound: nat)
    requires c.Valid() && OwnersAcceptable(c, owners) && FrontierRespected(c, owners, bound)
    ensures |KeyHits(ResolveOwners(c, owners), KeyOfRow(c, row))| <= bound
  {
    var key := KeyOfRow(c, row);
    if !c.InRange(key) {
      OutOfRangeHits(c, owners, key, |owners|);
      assert ResolveOwners(c, owners)[..|owners|] == ResolveOwners(c, owners);
    }
  }

  /** An owner with a built layout never has more edges under a key than the layout has slots. */
  lemma {:induction false} DegreeBound(c: Config, owners: seq<seq<RawEdge>>, layouts: seq<Layout>, key: Key, n: nat)
    requires Federation(c, owners, layouts) && n <= |owners|
    ensures OwnersAcceptable(c, owners) && |KeyHits(ResolveOwners(c, owners)[..n], key)| <= Times(n, c.SlotsPerKey())
  {
    hide *;
    FederationFacts(c, owners, layouts);
    if n == 0 {
      NoDegree(c, owners, key);
      TimesFacts(0, c.SlotsPerKey());
    } else {
      DegreeBound(c, owners, layouts, key, n - 1);
      KeyHitsStep(c, owners, key, n - 1);
      OwnerDegree(c, owners, layouts, key, n - 1);
      TimesFacts(n, c.SlotsPerKey());
    }
  }

  lemma {:induction false} OwnerDegree(c: Config, owners: seq<seq<RawEdge>>, layouts: seq<Layout>, key: Key, o: nat)
    requires Federation(c, owners, layouts) && o < |owners|
    ensures AllAcceptable(c, owners[o]) && |SortedAt(ResolveAll(c, owners[o]), key)| <= c.SlotsPerKey()
  {
    if c.InRange(key) {
      assert Lossless(c, ResolveOwners(c, owners)[o], layouts[o]);
      assert ReadsBack(c, ResolveAll(c, owners[o]), layouts[o], key);
    } else {
      NoEdges(c, owners[o], key);
    }
  }

  lemma {:induction false} NoEdges(c: Config, edges: seq<RawEdge>, key: Key)
    requires c.Valid() && AllAcceptable(c, edges) && !c.InRange(key)
    ensures SortedAt(ResolveAll(c, edges), key) == []
  {
    OutOfRangeHits(c, [edges], key, 1);
    assert ResolveOwners(c, [edges])[..1] == ResolveOwners(c, [edges]);
    KeyHitsStep(c, [edges], key, 0);
    assert KeyHits(ResolveOwners(c, [edges])[..1], key) == [] + HitsOf(SortedAt(ResolveAll(c, edges), key)) by {
      assert ResolveOwners(c, [edges])[..0] == [];
    }
  }

  /** The dense rows whose federation-wide degree exceeds the bound. */
  ghost function CrowdedRows(c: Config, owners: seq<seq<RawEdge>>, bound: nat): set<nat>
    requires c.Valid() && OwnersAcceptable(c, owners)
  {
    set row: nat | row < c.DenseRows() && |KeyHits(ResolveOwners(c, owners), KeyOfRow(c, row))| > bound
  }

  function RowsAbove(totals: seq<nat>, bound: nat): set<nat> {
    set row: nat | row < |totals| && totals[row] > bound
  }

  lemma {:induction false} CountIsRows(totals: seq<nat>, bound: nat)
    ensures CountAbove(totals, bound) == |RowsAbove(totals, bound)|
  {
    if totals != [] {
      var n: nat := |totals| - 1;
      CountIsRows(totals[..n], bound);
      var before := RowsAbove(totals[..n], bound);
      assert RowsAbove(totals, bound) == if totals[n] > bound then before + {n} else before;
    }
  }

  /** The count over the totals is the number of crowded rows. */
  lemma {:induction false} CountIsCrowded(c: Config, owners: seq<seq<RawEdge>>, vectors: seq<seq<nat>>, bound: nat)
    requires c.Valid() && Occupancies(c, owners, vectors)
    requires forall o :: 0 <= o < |vectors| ==> |vectors[o]| == c.DenseRows()
    ensures CountAbove(Totals(c, vectors), bound) == |CrowdedRows(c, owners, bound)|
  {
    var totals := Totals(c, vectors);
    CountIsRows(totals, bound);
    forall row: nat | row < c.DenseRows()
      ensures totals[row] == |KeyHits(ResolveOwners(c, owners), KeyOfRow(c, row))|
    {
      TotalsAreDegrees(c, owners, vectors, row);
    }
    hide Totals, KeyHits, ResolveOwners, KeyOfRow, Occupancies, Occupancy;
    assert RowsAbove(totals, bound) == CrowdedRows(c, owners, bound);
  }

  /** What the verdict rests on: totals within the maximum, and their count. */
  lemma {:induction false} TotalsReady(c: Config, owners: seq<seq<RawEdge>>, layouts: seq<Layout>, vectors: seq<seq<nat>>, bound: nat)
    requires Federation(c, owners, layouts) && Occupancies(c, owners, vectors) && c.Valid()
    ensures forall o :: 0 <= o < |vectors| ==> |vectors[o]| == c.DenseRows()
    ensures forall row :: 0 <= row < c.DenseRows() ==> RowWithin(c, vectors, row)
    ensures CountAbove(Totals(c, vectors), bound) == |CrowdedRows(c, owners, bound)| <= c.DenseRows()
    ensures CountAbove(Totals(c, vectors), bound) == 0 <==> FrontierRespected(c, owners, bound)
  {
    OccupancyHeights(c, owners, vectors);
    CountIsVerdict(c, owners, vectors, bound);
    CountIsCrowded(c, owners, vectors, bound);
    CrowdedFits(c, owners, bound);
    hide *;
    forall row: nat | row < c.DenseRows()
      ensures RowWithin(c, vectors, row)
    {
      RowReady(c, owners, layouts, vectors, row);
    }
  }

  /** A row's total, and every owner's part of it, stay within what the layout holds. */
  ghost predicate RowWithin(c: Config, vectors: seq<seq<nat>>, row: nat) {
    && row < c.DenseRows() && (forall o :: 0 <= o < |vectors| ==> |vectors[o]| == c.DenseRows())
    && Totals(c, vectors)[row] <= Times(c.owners, c.SlotsPerKey())
    && forall o :: 0 <= o < |vectors| ==> vectors[o][row] <= Times(c.owners, c.SlotsPerKey())
  }

  lemma {:induction false} CrowdedFits(c: Config, owners: seq<seq<RawEdge>>, bound: nat)
    requires c.Valid() && OwnersAcceptable(c, owners)
    ensures |CrowdedRows(c, owners, bound)| <= c.DenseRows()
  {
    RowsBelow(CrowdedRows(c, owners, bound), c.DenseRows());
  }

  lemma {:induction false} RowsBelow(rows: set<nat>, n: nat)
    requires forall row :: row in rows ==> row < n
    ensures |rows| <= n
  {
    if n == 0 {
      assert rows == {};
    } else {
      var last: nat := n - 1;
      RowsBelow(rows - {last}, n - 1);
      assert rows <= (rows - {last}) + {last};
      if last in rows {
        assert |rows| == |rows - {last}| + 1;
      } else {
        assert rows - {last} == rows;
      }
    }
  }

  lemma {:induction false} WithinParts(c: Config, vectors: seq<seq<nat>>)
    requires forall o :: 0 <= o < |vectors| ==> |vectors[o]| == c.DenseRows()
    requires forall row :: 0 <= row < c.DenseRows() ==> RowWithin(c, vectors, row)
    ensures forall row :: 0 <= row < |Totals(c, vectors)| ==> Totals(c, vectors)[row] <= Times(c.owners, c.SlotsPerKey())
    ensures forall o, row :: 0 <= o < |vectors| && 0 <= row < c.DenseRows() ==> vectors[o][row] <= Times(c.owners, c.SlotsPerKey())
  {
    forall row | 0 <= row < |Totals(c, vectors)|
      ensures Totals(c, vectors)[row] <= Times(c.owners, c.SlotsPerKey())
    {
      assert RowWithin(c, vectors, row);
    }
    forall o, row | 0 <= o < |vectors| && 0 <= row < c.DenseRows()
      ensures vectors[o][row] <= Times(c.owners, c.SlotsPerKey())
    {
      assert RowWithin(c, vectors, row);
    }
  }

  lemma {:induction false} PartsOfTotal(vectors: seq<seq<nat>>, row: nat, n: nat)
    requires n <= |vectors| && forall o :: 0 <= o < |vectors| ==> row < |vectors[o]|
    ensures forall o :: 0 <= o < n ==> vectors[o][row] <= Total(vectors, row, n)
  {
    if n > 0 {
      PartsOfTotal(vectors, row, n - 1);
    }
  }

  lemma {:induction false} RowReady(c: Config, owners: seq<seq<RawEdge>>, layouts: seq<Layout>, vectors: seq<seq<nat>>, row: nat)
    requires Federation(c, owners, layouts) && Occupancies(c, owners, vectors) && c.Valid() && row < c.DenseRows()
    requires forall o :: 0 <= o < |vectors| ==> |vectors[o]| == c.DenseRows()
    ensures RowWithin(c, vectors, row)
  {
    TotalsAreDegrees(c, owners, vectors, row);
    PoolCount(c, owners, layouts);
    assert ResolveOwners(c, owners)[..|owners|] == ResolveOwners(c, owners);
    hide Times, KeyHits, KeyOfRow, ResolveOwners, Occupancies, Occupancy, Federation;
    DegreeBound(c, owners, layouts, KeyOfRow(c, row), |owners|);
    PartsOfTotal(vectors, row, |vectors|);
  }

  /**
   * The whole check, from the owners' edges through their shares to the one opened value:
   * whenever the declared bound is below what the layout could hold, the value is the number of
   * overflowing rows, and it is zero exactly when no key of the federation exceeds the bound.
   */
  method CheckFederation(c: Config, owners: seq<seq<RawEdge>>, ghost layouts: seq<Layout>, p: nat, draws: seq<seq<(nat, nat)>>)
    returns (violations: Result<nat>)
    requires Federation(c, owners, layouts) && c.globalFrontier.Some? && Prime(p) && c.DenseRows() < p
    requires |draws| == |owners| && forall o :: 0 <= o < |draws| ==> |draws[o]| == c.DenseRows() && Draws(draws[o], p)
    ensures OwnersAcceptable(c, owners) && c.Valid()
    ensures violations.Ok? <==> c.globalFrontier.value < Times(c.owners, c.SlotsPerKey()) < p
    ensures violations.Ok? ==> violations.value == |CrowdedRows(c, owners, c.globalFrontier.value)|
    ensures violations.Ok? ==> (violations.value == 0 <==> FrontierRespected(c, owners, c.globalFrontier.value))
  {
    FederationFacts(c, owners, layouts);
    var bound, maximum := c.globalFrontier.value, Times(c.owners, c.SlotsPerKey());
    var counts;
    ghost var vectors;
    PrimePositive(p);
    counts, vectors := CollectCounts(c, owners, p, draws);
    TotalsReady(c, owners, layouts, vectors, bound);
    WithinParts(c, vectors);
    hide *;
    if counts.Err? {
      return Err(counts.error);
    }
    ghost var totals := Totals(c, vectors);
    CountsAre(c, vectors, p, counts.value);
    violations := BoundCircuit(bound, maximum, p, counts.value, totals);
    if violations.Ok? {
      ModSmall(CountAbove(totals, bound), p);
    }
  }

  lemma {:induction false} PrimePositive(p: nat)
    requires Prime(p)
    ensures p > 0
  {
  }

  lemma {:induction false} CountsAre(c: Config, vectors: seq<seq<nat>>, p: nat, counts: seq<nat>)
    requires Reconstructed(vectors, p, counts) && |counts| == c.DenseRows()
    ensures forall o :: 0 <= o < |vectors| ==> |vectors[o]| == c.DenseRows()
    ensures forall row :: 0 <= row < |counts| ==> counts[row] == Mod(Totals(c, vectors)[row], p)
  {
    hide Mod;
  }

  // --- The counts, through the shares ------------------------------------------------------------

  /** The owners' vectors so far, and the three servers' shards of them. */
  ghost predicate Shared(c: Config, owners: seq<seq<RawEdge>>, n: nat, p: nat, vectors: seq<seq<nat>>, a: seq<seq<nat>>, b: seq<seq<nat>>, s: seq<seq<nat>>) {
    && OwnersAcceptable(c, owners) && n <= |owners| && |vectors| == n
    && (forall i :: 0 <= i < n ==> Occupancy(c, ResolveOwners(c, owners)[i], vectors[i]))
    && OwnersSplit(vectors, a, b, s, c.DenseRows(), p)
  }

  lemma {:induction false} SharedStep(c: Config, owners: seq<seq<RawEdge>>, n: nat, p: nat, vectors: seq<seq<nat>>,
                                      a: seq<seq<nat>>, b: seq<seq<nat>>, s: seq<seq<nat>>, v: seq<nat>, x: seq<nat>, y: seq<nat>, z: seq<nat>)
    requires Shared(c, owners, n, p, vectors, a, b, s) && n < |owners|
    requires Occupancy(c, ResolveOwners(c, owners)[n], v) && SplitVector(v, x, y, z, p)
    ensures Shared(c, owners, n + 1, p, vectors + [v], a + [x], b + [y], s + [z])
  {
    OccupancyHeight(c, ResolveOwners(c, owners)[n], v);
    hide Occupancy, SplitVector, OwnersAcceptable;
  }

  lemma {:induction false} Summing(vectors: seq<seq<nat>>, n: nat, m: nat, row: nat)
    requires m <= |vectors| && row < n && forall o :: 0 <= o < |vectors| ==> |vectors[o]| == n
    ensures Summed(vectors[..m], n)[row] == Total(vectors, row, m)
  {
    if m > 0 {
      Summing(vectors, n, m - 1, row);
      assert vectors[..m][..m - 1] == vectors[..m - 1];
    }
  }

  /** Every owner's occupancy vector, shared, accumulated per server, and summed in the field. */
  method CollectCounts(c: Config, owners: seq<seq<RawEdge>>, p: nat, draws: seq<seq<(nat, nat)>>)
    returns (counts: Result<seq<nat>>, ghost vectors: seq<seq<nat>>)
    requires c.Valid() && OwnersAcceptable(c, owners) && p > 0
    requires |draws| == |owners| && forall o :: 0 <= o < |draws| ==> |draws[o]| == c.DenseRows() && Draws(draws[o], p)
    ensures Occupancies(c, owners, vectors) && forall o :: 0 <= o < |vectors| ==> |vectors[o]| == c.DenseRows()
    ensures counts.Err? ==> exists o, row :: 0 <= o < |vectors| && 0 <= row < c.DenseRows() && vectors[o][row] >= p
    ensures counts.Ok? ==> Reconstructed(vectors, p, counts.value) && |counts.value| == c.DenseRows()
  {
    var all := CountEdges(c, owners);
    vectors := all;
    OccupancyHeights(c, owners, all);
    var a: seq<seq<nat>>, b: seq<seq<nat>>, s: seq<seq<nat>> := [], [], [];
    NothingShared(c, owners, p);
    hide *;
    assert all[..0] == [];
    for o := 0 to |owners|
      invariant Shared(c, owners, o, p, all[..o], a, b, s)
    {
      var pieces := ShareVector(all[o], p, draws[o]);
      if pieces.Err? {
        return Err(pieces.error), vectors;
      }
      OccupancyOf(c, owners, all, o);
      SharedStep(c, owners, o, p, all[..o], a, b, s, all[o], pieces.value.0, pieces.value.1, pieces.value.2);
      assert all[..o + 1] == all[..o] + [all[o]];
      a, b, s := a + [pieces.value.0], b + [pieces.value.1], s + [pieces.value.2];
    }
    assert all[..|owners|] == all;
    var sums := SumShares(c, owners, p, all, a, b, s);
    counts := Ok(sums);
  }

  lemma {:induction false} NothingShared(c: Config, owners: seq<seq<RawEdge>>, p: nat)
    requires OwnersAcceptable(c, owners)
    ensures Shared(c, owners, 0, p, [], [], [], [])
  {
  }

  lemma {:induction false} OccupancyOf(c: Config, owners: seq<seq<RawEdge>>, vectors: seq<seq<nat>>, o: nat)
    requires Occupancies(c, owners, vectors) && o < |owners|
    ensures o < |vectors| && OwnersAcceptable(c, owners) && Occupancy(c, ResolveOwners(c, owners)[o], vectors[o])
  {
  }

  lemma {:induction false} OccupancyHeights(c: Config, owners: seq<seq<RawEdge>>, vectors: seq<seq<nat>>)
    requires Occupancies(c, owners, vectors)
    ensures |vectors| == |owners| && forall o :: 0 <= o < |vectors| ==> |vectors[o]| == c.DenseRows()
  {
    forall o | 0 <= o < |vectors|
      ensures |vectors[o]| == c.DenseRows()
    {
      OccupancyHeight(c, ResolveOwners(c, owners)[o], vectors[o]);
    }
  }

  /** The servers' totals, added up as the circuit adds its private inputs. */
  method SumShares(c: Config, ghost owners: seq<seq<RawEdge>>, p: nat, ghost vectors: seq<seq<nat>>, a: seq<seq<nat>>, b: seq<seq<nat>>, s: seq<seq<nat>>)
    returns (counts: seq<nat>)
    requires p > 0 && Shared(c, owners, |owners|, p, vectors, a, b, s)
    requires forall o :: 0 <= o < |vectors| ==> |vectors[o]| == c.DenseRows()
    ensures Reconstructed(vectors, p, counts) && |counts| == c.DenseRows()
  {
    var n := c.DenseRows();
    ShardHeights(c, owners, p, vectors, a, b, s);
    AccumulationSplits(vectors, a, b, s, n, p);
    hide Shared, OwnersSplit, Occupancy;
    var x := Accumulate(a, n, p);
    var y := Accumulate(b, n, p);
    var z := Accumulate(s, n, p);
    counts := [];
    hide Accumulated, Summed, Total, Mod;
    assert vectors[..|vectors|] == vectors;
    for row := 0 to n
      invariant |counts| == row
      invariant forall i :: 0 <= i < row ==> counts[i] == Mod(Total(vectors, i, |vectors|), p)
    {
      Summing(vectors, n, |vectors|, row);
      hide Total, Mod;
      counts := counts + [Mod(x[row] + y[row] + z[row], p)];
    }
  }

  lemma {:induction false} ShardHeights(c: Config, owners: seq<seq<RawEdge>>, p: nat, vectors: seq<seq<nat>>, a: seq<seq<nat>>, b: seq<seq<nat>>, s: seq<seq<nat>>)
    requires Shared(c, owners, |owners|, p, vectors, a, b, s)
    ensures OwnersSplit(vectors, a, b, s, c.DenseRows(), p)
    ensures |a| == |b| == |s| == |vectors|
    ensures forall o :: 0 <= o < |vectors| ==> |a[o]| == |b[o]| == |s[o]| == c.DenseRows()
  {
    OwnersLengths(vectors, a, b, s, c.DenseRows(), p);
  }

  /** Every owner's occupancy vector. */
  method CountEdges(c: Config, owners: seq<seq<RawEdge>>) returns (vectors: seq<seq<nat>>)
    requires c.Valid() && OwnersAcceptable(c, owners)
    ensures Occupancies(c, owners, vectors)
  {
    vectors := [];
    hide AllAcceptable, Occupancy;
    for o := 0 to |owners|
      invariant |vectors| == o
      invariant forall i :: 0 <= i < o ==> Occupancy(c, ResolveOwners(c, owners)[i], vectors[i])
    {
      assert AllAcceptable(c, owners[o]);
      var occupancy := OwnerOccupancy(c, owners[o]);
      vectors := vectors + [occupancy.value];
    }
  }

  lemma {:induction false} OccupancyHeight(c: Config, rs: seq<Resolved>, occupancy: seq<nat>)
    requires Occupancy(c, rs, occupancy)
    ensures |occupancy| == c.DenseRows()
  {
  }

  /** A zero verdict makes the circuit's federation-wide compaction lossless for every query. */
  lemma {:induction false} ZeroIsLossless(c: Config, owners: seq<seq<RawEdge>>, q: SecretQuery)
    requires c.Valid() && OwnersAcceptable(c, owners) && c.globalFrontier.Some?
    requires FrontierRespected(c, owners, c.globalFrontier.value)
    ensures CircuitPaths(c, owners, q) == QueryPaths(ResolveOwners(c, owners), q.source, q.relation1, q.relation2)
  {
    var key := Key(q.source, q.relation1);
    if !c.InRange(key) {
      OutOfRangeHits(c, owners, key, |owners|);
      assert ResolveOwners(c, owners)[..|owners|] == ResolveOwners(c, owners);
    }
    FrontierCost(c, owners, q);
  }

  // --- The plaintext check, by names ----------------------------------------------------------------

  /** Edges carrying these names. */
  function NameCount(edges: seq<RawEdge>, source: string, relation: string): nat {
    if edges == [] then 0
    else
      var e := edges[|edges| - 1];
      NameCount(edges[..|edges| - 1], source, relation) + Indicator(e.source == source && e.relation == relation)
  }

  function NameDegree(owners: seq<seq<RawEdge>>, source: string, relation: string): nat {
    if owners == [] then 0
    else NameDegree(owners[..|owners| - 1], source, relation) + NameCount(owners[|owners| - 1], source, relation)
  }

  /** The counter after some owners and some edges of the next. */
  ghost predicate Counted(totals: map<(string, string), nat>, owners: seq<seq<RawEdge>>, edges: seq<RawEdge>) {
    forall s, r :: (if (s, r) in totals then totals[(s, r)] else 0) == NameDegree(owners, s, r) + NameCount(edges, s, r)
  }

  lemma {:induction false} CountEdge(totals: map<(string, string), nat>, owners: seq<seq<RawEdge>>, edges: seq<RawEdge>, e: RawEdge)
    requires Counted(totals, owners, edges)
    ensures var name := (e.source, e.relation);
      Counted(totals[name := (if name in totals then totals[name] else 0) + 1], owners, edges + [e])
  {
    var name := (e.source, e.relation);
    var next := totals[name := (if name in totals then totals[name] else 0) + 1];
    hide NameCount, NameDegree, Indicator;
    forall s, r
      ensures (if (s, r) in next then next[(s, r)] else 0) == NameDegree(owners, s, r) + NameCount(edges + [e], s, r)
    {
      assert (if (s, r) in totals then totals[(s, r)] else 0) == NameDegree(owners, s, r) + NameCount(edges, s, r);
      NameCountSnoc(edges, e, s, r);
    }
  }

  lemma {:induction false} NameCountSnoc(edges: seq<RawEdge>, e: RawEdge, s: string, r: string)
    ensures NameCount(edges + [e], s, r) == NameCount(edges, s, r) + if (e.source, e.relation) == (s, r) then 1 else 0
  {
    assert (edges + [e])[..|edges|] == edges;
  }

  /** No named key has more edges, over all owners, than the bound. */
  ghost predicate NamesRespected(owners: seq<seq<RawEdge>>, bound: nat) {
    forall s, t :: NameDegree(owners, s, t) <= bound
  }

  /** `check_global_frontier`: accepts exactly when no named key exceeds the bound. */
  method CheckGlobalFrontier(bound: Option<nat>, owners: seq<seq<RawEdge>>) returns (r: Result<nat>)
    ensures r.Ok? <==> bound.Some? && NamesRespected(owners, bound.value)
  {
    if bound.None? {
      return Err(Malformed);
    }
    var totals: map<(string, string), nat> := map[];
    for o := 0 to |owners|
      invariant Counted(totals, owners[..o], [])
    {
      var edges := owners[o];
      for i := 0 to |edges|
        invariant Counted(totals, owners[..o], edges[..i])
      {
        CountEdge(totals, owners[..o], edges[..i], edges[i]);
        assert edges[..i + 1] == edges[..i] + [edges[i]];
        hide Counted;
        var name := (edges[i].source, edges[i].relation);
        totals := totals[name := (if name in totals then totals[name] else 0) + 1];
      }
      assert edges[..|edges|] == edges;
      assert owners[..o + 1][..o] == owners[..o];
    }
    assert owners[..|owners|] == owners;
    var worst: nat := 0;
    var pending := totals.Keys;
    while pending != {}
      invariant pending <= totals.Keys
      invariant forall name :: name in totals && name !in pending ==> totals[name] <= bound.value
      decreases pending
    {
      var name :| name in pending;
      if totals[name] > bound.value {
        assert NameDegree(owners, name.0, name.1) > bound.value;
        return Err(FrontierExceeded);
      }
      worst := if totals[name] > worst then totals[name] else worst;
      pending := pending - {name};
    }
    forall s, t
      ensures NameDegree(owners, s, t) <= bound.value
    {
      assert (if (s, t) in totals then totals[(s, t)] else 0) == NameDegree(owners, s, t) + NameCount([], s, t);
    }
    r := Ok(worst);
  }

  lemma {:induction false} NamesAreKeys(c: Config, edges: seq<RawEdge>, s: string, r: string)
    requires AllAcceptable(c, edges) && c.DistinctIds() && s in c.entities && r in c.relations
    ensures NameCount(edges, s, r) == |RecordsAt(ResolveAll(c, edges), Key(c.entities[s], c.relations[r]))|
  {
    if edges != [] {
      var n := |edges| - 1;
      assert Acceptable(c, edges[n]);
      hide Acceptable;
      NamesAreKeys(c, edges[..n], s, r);
      assert ResolveAll(c, edges)[..n] == ResolveAll(c, edges[..n]);
    }
  }

  lemma {:induction false} UnknownNames(c: Config, edges: seq<RawEdge>, s: string, r: string)
    requires AllAcceptable(c, edges) && !(s in c.entities && r in c.relations)
    ensures NameCount(edges, s, r) == 0
  {
    if edges != [] {
      UnknownNames(c, edges[..|edges| - 1], s, r);
      assert Acceptable(c, edges[|edges| - 1]);
    }
  }

  lemma {:induction false} OwnerNameCount(c: Config, owners: seq<seq<RawEdge>>, s: string, r: string, o: nat)
    requires OwnersAcceptable(c, owners) && c.DistinctIds() && o < |owners|
    ensures AllAcceptable(c, owners[o])
    ensures NameCount(owners[o], s, r)
         == if s in c.entities && r in c.relations
            then |HitsOf(SortedAt(ResolveAll(c, owners[o]), Key(c.entities[s], c.relations[r])))| else 0
  {
    assert AllAcceptable(c, owners[o]);
    if s in c.entities && r in c.relations {
      NamesAreKeys(c, owners[o], s, r);
      SortedCount(ResolveAll(c, owners[o]), Key(c.entities[s], c.relations[r]));
    } else {
      UnknownNames(c, owners[o], s, r);
    }
  }

  lemma {:induction false} NameDegreeStep(owners: seq<seq<RawEdge>>, s: string, r: string, n: nat)
    requires n < |owners|
    ensures NameDegree(owners[..n + 1], s, r) == NameDegree(owners[..n], s, r) + NameCount(owners[n], s, r)
  {
    assert owners[..n + 1][..n] == owners[..n];
  }

  lemma {:induction false} NameDegreeIsKeyDegree(c: Config, owners: seq<seq<RawEdge>>, s: string, r: string, n: nat)
    requires OwnersAcceptable(c, owners) && c.DistinctIds() && n <= |owners|
    ensures NameDegree(owners[..n], s, r)
         == if s in c.entities && r in c.relations then |KeyHits(ResolveOwners(c, owners)[..n], Key(c.entities[s], c.relations[r]))| else 0
  {
    if n > 0 {
      NameDegreeStep(owners, s, r, n - 1);
      OwnerNameCount(c, owners, s, r, n - 1);
      if s in c.entities && r in c.relations {
        KeyHitsStep(c, owners, Key(c.entities[s], c.relations[r]), n - 1);
      }
      hide *;
      NameDegreeIsKeyDegree(c, owners, s, r, n - 1);
    }
  }

  /** A key with edges is named. */
  lemma {:induction false} KeyHasNames(c: Config, owners: seq<seq<RawEdge>>, key: Key, n: nat) returns (s: string, r: string)
    requires OwnersAcceptable(c, owners) && n <= |owners| && |KeyHits(ResolveOwners(c, owners)[..n], key)| > 0
    ensures s in c.entities && r in c.relations && key == Key(c.entities[s], c.relations[r])
  {
    KeyHitsStep(c, owners, key, n - 1);
    var rs := ResolveAll(c, owners[n - 1]);
    if |SortedAt(rs, key)| > 0 {
      SortedCount(rs, key);
      RecordsAtMembers(rs, key, RecordsAt(rs, key)[0]);
      var i :| 0 <= i < |rs| && rs[i] == Resolved(key, RecordsAt(rs, key)[0]);
      assert Acceptable(c, owners[n - 1][i]);
      s, r := owners[n - 1][i].source, owners[n - 1][i].relation;
    } else {
      s, r := KeyHasNames(c, owners, key, n - 1);
    }
  }

  lemma {:induction false} NameWithin(c: Config, owners: seq<seq<RawEdge>>, bound: nat, s: string, t: string)
    requires c.Valid() && OwnersAcceptable(c, owners) && FrontierRespected(c, owners, bound)
    ensures NameDegree(owners, s, t) <= bound
  {
    assert owners[..|owners|] == owners && ResolveOwners(c, owners)[..|owners|] == ResolveOwners(c, owners);
    NameDegreeIsKeyDegree(c, owners, s, t, |owners|);
    if s in c.entities && t in c.relations {
      assert c.InRange(Key(c.entities[s], c.relations[t]));
    }
  }

  lemma {:induction false} KeyWithin(c: Config, owners: seq<seq<RawEdge>>, bound: nat, key: Key)
    requires c.Valid() && OwnersAcceptable(c, owners)
    requires NamesRespected(owners, bound)
    ensures |KeyHits(ResolveOwners(c, owners), key)| <= bound
  {
    assert owners[..|owners|] == owners && ResolveOwners(c, owners)[..|owners|] == ResolveOwners(c, owners);
    if |KeyHits(ResolveOwners(c, owners), key)| > 0 {
      var s, r := KeyHasNames(c, owners, key, |owners|);
      NameDegreeIsKeyDegree(c, owners, s, r, |owners|);
    }
  }

  /** The plaintext check by names and the federation's degrees by keys agree. */
  lemma {:induction false} NamesAgree(c: Config, owners: seq<seq<RawEdge>>, bound: nat)
    requires c.Valid() && OwnersAcceptable(c, owners)
    ensures NamesRespected(owners, bound) <==> FrontierRespected(c, owners, bound)
  {
    if FrontierRespected(c, owners, bound) {
      forall s, t
        ensures NameDegree(owners, s, t) <= bound
      {
        NameWithin(c, owners, bound, s, t);
      }
    }
    if NamesRespected(owners, bound) {
      KeysWithin(c, owners, bound);
    }
  }

  lemma {:induction false} KeysWithin(c: Config, owners: seq<seq<RawEdge>>, bound: nat)
    requires c.Valid() && OwnersAcceptable(c, owners)
    requires NamesRespected(owners, bound)
    ensures FrontierRespected(c, owners, bound)
  {
    forall key: Key | c.InRange(key)
      ensures |KeyHits(ResolveOwners(c, owners), key)| <= bound
    {
      KeyWithin(c, owners, bound, key);
    }
  }
}
