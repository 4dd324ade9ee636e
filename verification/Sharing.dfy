// Three-server additive secret sharing over a prime field, and its linearity.
module Sharing {
  import opened Wrappers
  import opened Bits
  import opened PrimeField

  /** `share`, with its two uniform draws as inputs. */
  function Share(value: int, p: nat, first: nat, second: nat): Result<(nat, nat, nat)>
    requires first < p && second < p
  {
    if !(0 <= value < p) then Err(OutOfRange) else Ok((first, second, Mod(value - first - second, p)))
  }

  /** `reconstruct`. */
  function Reconstruct(pieces: seq<int>, p: nat): Result<nat>
    requires p > 0
  {
    if |pieces| != 3 then Err(Malformed)
    else if !(0 <= pieces[0] < p && 0 <= pieces[1] < p && 0 <= pieces[2] < p) then Err(OutOfRange)
    else Ok(Mod(pieces[0] + pieces[1] + pieces[2], p))
  }

  /** The three values are canonical and add up to the value modulo `p`. */
  ghost predicate Splits(value: int, a: nat, b: nat, c: nat, p: nat) {
    a < p && b < p && c < p && Mod(a + b + c, p) == Mod(value, p)
  }

  /** Whatever the draws, the shares split the value. */
  lemma {:induction false} ShareSplits(value: nat, p: nat, first: nat, second: nat)
    requires first < p && second < p && value < p
    ensures var s := Share(value, p, first, second);
      s.Ok? && Splits(value, s.value.0, s.value.1, s.value.2, p)
  {
    hide Mod;
    var third := Mod(value - first - second, p);
    ModAdd(value - first - second, first + second, p);
    assert value - first - second + (first + second) == value;
    assert third + (first + second) == first + second + third;
  }

  /** The pieces a value and two draws give, and the draws that give them. */
  ghost predicate Gives(value: nat, p: nat, first: nat, second: nat, a: nat, b: nat, c: nat) {
    first < p && second < p && Share(value, p, first, second) == Ok((a, b, c))
  }

  /**
   * Any two pieces say nothing about the value: for every value, each pair of field elements
   * is the first and second piece for exactly one pair of draws; and likewise the first and
   * third, and the second and third.
   */
  lemma {:induction false} TwoPiecesAreUniform(value: nat, p: nat, x: nat, y: nat) returns (z: nat)
    requires value < p && x < p && y < p
    ensures z == Mod(value - x - y, p)
    ensures forall first: nat, second: nat, c: nat :: Gives(value, p, first, second, x, y, c) <==> first == x && second == y && c == z
    ensures forall first: nat, second: nat, b: nat :: Gives(value, p, first, second, x, b, y) <==> first == x && second == z && b == z
    ensures forall first: nat, second: nat, a: nat :: Gives(value, p, first, second, a, x, y) <==> first == z && second == x && a == z
  {
    z := Mod(value - x - y, p);
    forall first: nat, second: nat, b: nat
      ensures Gives(value, p, first, second, x, b, y) <==> first == x && second == z && b == z
    {
      if first == x && second < p {
        ThirdDetermines(value, x, second, y, p);
      }
    }
    forall first: nat, second: nat, a: nat
      ensures Gives(value, p, first, second, a, x, y) <==> first == z && second == x && a == z
    {
      if second == x && first < p {
        ThirdDetermines(value, x, first, y, p);
        assert value - x - first == value - first - x;
      }
    }
    hide Mod;
  }

  /** The third piece determines a draw once the other one is known. */
  lemma {:induction false} ThirdDetermines(value: nat, x: nat, s: nat, y: nat, p: nat)
    requires value < p && x < p && s < p && y < p
    ensures Mod(value - x - s, p) == y <==> s == Mod(value - x - y, p)
  {
    ModRange(value - x - s, p);
    ModRange(value - x - y, p);
    hide Mod;
  }

  /** A difference of field elements wraps at most twice. */
  lemma {:induction false} ModRange(t: int, p: nat)
    requires p > 0 && -(2 * p) <= t < p
    ensures Mod(t, p) == if t >= 0 then t else if t + p >= 0 then t + p else t + 2 * p
  {
    hide Mod;
    if t >= 0 {
      ModUnique(t, p, 0, t);
    } else if t + p >= 0 {
      ModUnique(t, p, -1, t + p);
    } else {
      ModUnique(t, p, -2, t + 2 * p);
    }
  }

  /** Reconstruction returns a field element exactly when the shares split it. */
  lemma {:induction false} ReconstructIff(value: nat, a: nat, b: nat, c: nat, p: nat)
    requires value < p
    ensures Reconstruct([a, b, c], p) == Ok(value) <==> Splits(value, a, b, c, p)
  {
    ModSmall(value, p);
  }

  /** Adding shares, server by server, splits the sum. */
  lemma {:induction false} SplitsAdd(v: int, a: nat, b: nat, c: nat, w: int, x: nat, y: nat, z: nat, p: nat)
    requires p > 0 && Splits(v, a, b, c, p) && Splits(w, x, y, z, p)
    ensures Splits(v + w, Mod(a + x, p), Mod(b + y, p), Mod(c + z, p), p)
  {
    hide Mod;
    ModAdd(a + x, Mod(b + y, p) + Mod(c + z, p), p);
    ModAdd(b + y, a + x + Mod(c + z, p), p);
    ModAdd(c + z, a + x + (b + y), p);
    ModAdd(a + b + c, x + y + z, p);
    ModAdd(x + y + z, Mod(a + b + c, p), p);
    ModAdd(v, w, p);
    ModAdd(w, Mod(v, p), p);
  }

  /** Scaling shares by a public constant splits the scaled value. */
  lemma {:induction false} SplitsScale(v: int, a: nat, b: nat, c: nat, k: nat, p: nat)
    requires p > 0 && Splits(v, a, b, c, p)
    ensures Splits(v * k, Mod(a * k, p), Mod(b * k, p), Mod(c * k, p), p)
  {
    hide Mod;
    ModAdd(a * k, Mod(b * k, p) + Mod(c * k, p), p);
    ModAdd(b * k, a * k + Mod(c * k, p), p);
    ModAdd(c * k, a * k + b * k, p);
    ModMul(a + b + c, k, p);
    ModMul(v, k, p);
    assert (a + b + c) * k == c * k + (a * k + b * k);
  }

  /** Shifting shares left splits the shifted value. */
  lemma {:induction false} SplitsShift(v: nat, a: nat, b: nat, c: nat, bits: nat, p: nat)
    requires p > 0 && Splits(v, a, b, c, p)
    ensures Splits(ShiftLeft(v, bits), Mod(ShiftLeft(a, bits), p), Mod(ShiftLeft(b, bits), p), Mod(ShiftLeft(c, bits), p), p)
  {
    SplitsScale(v, a, b, c, Pow2(bits), p);
    hide Mod, Splits, Pow2;
  }

  /** The zero every accumulator starts from. */
  lemma {:induction false} SplitsZero(p: nat)
    requires p > 0
    ensures Splits(0, 0, 0, 0, p)
  {
  }

  // --- Vectors -------------------------------------------------------------------------------

  /** Three vectors that split a vector, position by position. */
  ghost predicate SplitVector(values: seq<int>, a: seq<nat>, b: seq<nat>, c: seq<nat>, p: nat) {
    && |values| == |a| == |b| == |c|
    && forall i :: 0 <= i < |values| ==> Splits(values[i], a[i], b[i], c[i], p)
  }

  /** Uniform draws, two for every value shared. */
  predicate Draws(draws: seq<(nat, nat)>, p: nat) {
    forall i :: 0 <= i < |draws| ==> draws[i].0 < p && draws[i].1 < p
  }

  /** `share_vector`: refuses exactly when a value is outside the field. */
  method ShareVector(values: seq<int>, p: nat, draws: seq<(nat, nat)>) returns (r: Result<(seq<nat>, seq<nat>, seq<nat>)>)
    requires p > 0 && |draws| == |values| && Draws(draws, p)
    ensures r.Ok? <==> forall i :: 0 <= i < |values| ==> 0 <= values[i] < p
    ensures r.Ok? ==> SplitVector(values, r.value.0, r.value.1, r.value.2, p)
    ensures r.Ok? ==> forall i :: 0 <= i < |values| ==>
      r.value.0[i] == draws[i].0 && r.value.1[i] == draws[i].1 && r.value.2[i] == Mod(values[i] - draws[i].0 - draws[i].1, p)
  {
    var a: seq<nat>, b: seq<nat>, c: seq<nat> := [], [], [];
    for i := 0 to |values|
      invariant forall j :: 0 <= j < i ==> 0 <= values[j] < p
      invariant SplitVector(values[..i], a, b, c, p)
      invariant forall j :: 0 <= j < i ==>
        a[j] == draws[j].0 && b[j] == draws[j].1 && c[j] == Mod(values[j] - draws[j].0 - draws[j].1, p)
    {
      var pieces := Share(values[i], p, draws[i].0, draws[i].1);
      if pieces.Err? {
        return Err(pieces.error);
      }
      ShareSplits(values[i], p, draws[i].0, draws[i].1);
      assert pieces.value == (draws[i].0, draws[i].1, Mod(values[i] - draws[i].0 - draws[i].1, p));
      hide Share, Splits, Mod;
      a, b, c := a + [pieces.value.0], b + [pieces.value.1], c + [pieces.value.2];
    }
    assert values[..|values|] == values;
    r := Ok((a, b, c));
  }

  /** A shared vector comes back position by position: the page pools' case. */
  lemma {:induction false} VectorReconstructs(values: seq<int>, a: seq<nat>, b: seq<nat>, c: seq<nat>, p: nat, i: nat)
    requires p > 0 && SplitVector(values, a, b, c, p) && i < |values| && 0 <= values[i] < p
    ensures Reconstruct([a[i], b[i], c[i]], p) == Ok(values[i])
  {
    ReconstructIff(values[i], a[i], b[i], c[i], p);
  }

  /** Position-wise sum of one server's vectors, reduced at every step. */
  function AddVectors(a: seq<nat>, b: seq<nat>, p: nat): (r: seq<nat>)
    requires p > 0 && |a| == |b|
    ensures |r| == |a| && forall i :: 0 <= i < |r| ==> r[i] == Mod(a[i] + b[i], p)
  {
    seq(|a|, i requires 0 <= i < |a| => Mod(a[i] + b[i], p))
  }

  function SumVectors(a: seq<int>, b: seq<int>): (r: seq<int>)
    requires |a| == |b|
    ensures |r| == |a| && forall i :: 0 <= i < |r| ==> r[i] == a[i] + b[i]
  {
    seq(|a|, i requires 0 <= i < |a| => a[i] + b[i])
  }

  /** One server's running total of the owners' vectors. */
  function Accumulated(shards: seq<seq<nat>>, n: nat, p: nat): (r: seq<nat>)
    requires p > 0 && forall o :: 0 <= o < |shards| ==> |shards[o]| == n
    ensures |r| == n
  {
    if shards == [] then seq(n, _ => 0)
    else AddVectors(Accumulated(shards[..|shards| - 1], n, p), shards[|shards| - 1], p)
  }

  /** The owners' values added up, position by position. */
  function Summed(values: seq<seq<int>>, n: nat): (r: seq<int>)
    requires forall o :: 0 <= o < |values| ==> |values[o]| == n
    ensures |r| == n
  {
    if values == [] then seq(n, _ => 0)
    else SumVectors(Summed(values[..|values| - 1], n), values[|values| - 1])
  }

  /** Each owner's vector is split over the three servers. */
  ghost predicate OwnersSplit(values: seq<seq<int>>, a: seq<seq<nat>>, b: seq<seq<nat>>, c: seq<seq<nat>>, n: nat, p: nat) {
    && |values| == |a| == |b| == |c|
    && forall o :: 0 <= o < |values| ==> SplitVector(values[o], a[o], b[o], c[o], p) && |values[o]| == n
  }

  lemma {:induction false} OwnersLengths(values: seq<seq<int>>, a: seq<seq<nat>>, b: seq<seq<nat>>, c: seq<seq<nat>>, n: nat, p: nat)
    requires OwnersSplit(values, a, b, c, n, p)
    ensures forall o :: 0 <= o < |values| ==> |values[o]| == |a[o]| == |b[o]| == |c[o]| == n
  {
    hide Splits;
  }

  lemma {:induction false} VectorsAdd(v: seq<int>, a: seq<nat>, b: seq<nat>, c: seq<nat>, w: seq<int>, x: seq<nat>, y: seq<nat>, z: seq<nat>, p: nat)
    requires p > 0 && SplitVector(v, a, b, c, p) && SplitVector(w, x, y, z, p) && |v| == |w|
    ensures SplitVector(SumVectors(v, w), AddVectors(a, x, p), AddVectors(b, y, p), AddVectors(c, z, p), p)
  {
    forall i | 0 <= i < |v|
      ensures Splits(v[i] + w[i], Mod(a[i] + x[i], p), Mod(b[i] + y[i], p), Mod(c[i] + z[i], p), p)
    {
      SplitsAdd(v[i], a[i], b[i], c[i], w[i], x[i], y[i], z[i], p);
    }
    hide Splits, Mod;
  }

  /** Each server adding its own shards owner by owner splits the owners' summed values. */
  lemma {:induction false} AccumulationSplits(values: seq<seq<int>>, a: seq<seq<nat>>, b: seq<seq<nat>>, c: seq<seq<nat>>, n: nat, p: nat)
    requires p > 0 && OwnersSplit(values, a, b, c, n, p)
    ensures forall o :: 0 <= o < |values| ==> |values[o]| == |a[o]| == |b[o]| == |c[o]| == n
    ensures SplitVector(Summed(values, n), Accumulated(a, n, p), Accumulated(b, n, p), Accumulated(c, n, p), p)
  {
    OwnersLengths(values, a, b, c, n, p);
    if values == [] {
      SplitsZero(p);
    } else {
      var m := |values| - 1;
      AccumulationSplits(values[..m], a[..m], b[..m], c[..m], n, p);
      hide Splits, Mod;
      VectorsAdd(Summed(values[..m], n), Accumulated(a[..m], n, p), Accumulated(b[..m], n, p), Accumulated(c[..m], n, p),
                 values[m], a[m], b[m], c[m], p);
    }
  }

  /** A server's accumulation loop over the owners' shards. */
  method Accumulate(shards: seq<seq<nat>>, n: nat, p: nat) returns (totals: seq<nat>)
    requires p > 0 && forall o :: 0 <= o < |shards| ==> |shards[o]| == n
    ensures totals == Accumulated(shards, n, p)
  {
    totals := seq(n, _ => 0);
    for o := 0 to |shards|
      invariant totals == Accumulated(shards[..o], n, p)
    {
      assert shards[..o + 1][..o] == shards[..o];
      totals := AddVectors(totals, shards[o], p);
    }
    assert shards[..|shards|] == shards;
  }

  /** The three totals reconstruct to the owners' summed values, whenever those fit the field. */
  lemma {:induction false} TotalsReconstruct(values: seq<seq<int>>, a: seq<seq<nat>>, b: seq<seq<nat>>, c: seq<seq<nat>>, n: nat, p: nat, i: nat)
    requires p > 0 && OwnersSplit(values, a, b, c, n, p) && i < n
    ensures forall o :: 0 <= o < |values| ==> |values[o]| == |a[o]| == |b[o]| == |c[o]| == n
    ensures 0 <= Summed(values, n)[i] < p <==>
      Reconstruct([Accumulated(a, n, p)[i], Accumulated(b, n, p)[i], Accumulated(c, n, p)[i]], p) == Ok(Summed(values, n)[i])
  {
    AccumulationSplits(values, a, b, c, n, p);
    var v := Summed(values, n)[i];
    var x, y, z := Accumulated(a, n, p)[i], Accumulated(b, n, p)[i], Accumulated(c, n, p)[i];
    hide Accumulated, Summed, Mod;
    assert Splits(v, x, y, z, p);
    if 0 <= v < p {
      ReconstructIff(v, x, y, z, p);
    }
  }

  // --- Through the shares and back -------------------------------------------------------------

  /** What an owner shares. */
  datatype Part = Affine | Hashed | Paged

  /** The two uniform draws of a shared value, by table, owner, row and column. */
  type Draw = (Part, nat, nat, nat) -> (nat, nat)

  ghost predicate InField(draw: Draw, p: nat) {
    forall table, owner, row, column :: draw(table, owner, row, column).0 < p && draw(table, owner, row, column).1 < p
  }

  lemma {:induction false} FieldNotEmpty(draw: Draw, p: nat)
    requires InField(draw, p)
    ensures p > 0
  {
    assert draw(Affine, 0, 0, 0).0 < p;
  }

  /** The draws for one row of one table. */
  function RowDraws(draw: Draw, table: Part, owner: nat, row: nat, n: nat): (r: seq<(nat, nat)>)
    ensures |r| == n && forall i :: 0 <= i < n ==> r[i] == draw(table, owner, row, i)
  {
    seq(n, i requires 0 <= i => draw(table, owner, row, i))
  }

  /** The sum of the three servers' vectors, position by position. */
  method ReconstructVector(ghost values: seq<nat>, a: seq<nat>, b: seq<nat>, c: seq<nat>, p: nat) returns (r: seq<nat>)
    requires p > 0 && SplitVector(values, a, b, c, p) && forall i :: 0 <= i < |values| ==> values[i] < p
    ensures r == values
  {
    r := [];
    hide Splits, Reconstruct;
    for i := 0 to |a|
      invariant r == values[..i]
    {
      VectorReconstructs(values, a, b, c, p, i);
      var value := Reconstruct([a[i], b[i], c[i]], p);
      r := r + [value.value];
    }
  }

  /** A row shared by one owner and revealed again. */
  method RevealRow(values: seq<nat>, p: nat, draws: seq<(nat, nat)>) returns (r: seq<nat>)
    requires p > 0 && |draws| == |values| && Draws(draws, p) && forall i :: 0 <= i < |values| ==> values[i] < p
    ensures r == values
  {
    hide SplitVector;
    var pieces := ShareVector(values, p, draws);
    r := ReconstructVector(values, pieces.value.0, pieces.value.1, pieces.value.2, p);
  }

  /** No owner's value exceeds the owners' sum. */
  lemma {:induction false} SummedCovers(rows: seq<seq<nat>>, n: nat, o: nat, i: nat)
    requires forall k :: 0 <= k < |rows| ==> |rows[k]| == n
    requires i < n
    ensures 0 <= Summed(rows, n)[i] && (o < |rows| ==> rows[o][i] <= Summed(rows, n)[i])
  {
    if rows != [] {
      SummedCovers(rows[..|rows| - 1], n, o, i);
    }
  }

  /** The first two servers hold the owner's own draws for this row. */
  ghost predicate DrawnFrom(a: seq<nat>, b: seq<nat>, draw: Draw, table: Part, owner: nat, row: nat, n: nat) {
    |a| == |b| == n && forall i :: 0 <= i < n ==> a[i] == draw(table, owner, row, i).0 && b[i] == draw(table, owner, row, i).1
  }

  /** Every owner's row shared on its own. */
  method ShareRows(rows: seq<seq<nat>>, n: nat, p: nat, draw: Draw, table: Part, row: nat)
    returns (a: seq<seq<nat>>, b: seq<seq<nat>>, c: seq<seq<nat>>)
    requires p > 0 && InField(draw, p) && forall o :: 0 <= o < |rows| ==> |rows[o]| == n
    requires forall o, i :: 0 <= o < |rows| && 0 <= i < n ==> rows[o][i] < p
    ensures OwnersSplit(rows, a, b, c, n, p)
    ensures forall o :: 0 <= o < |rows| ==> DrawnFrom(a[o], b[o], draw, table, o, row, n)
  {
    a, b, c := [], [], [];
    for o := 0 to |rows|
      invariant OwnersSplit(rows[..o], a, b, c, n, p)
      invariant forall i :: 0 <= i < o ==> DrawnFrom(a[i], b[i], draw, table, i, row, n)
    {
      hide SplitVector;
      var pieces := ShareVector(rows[o], p, RowDraws(draw, table, o, row, n));
      a, b, c := a + [pieces.value.0], b + [pieces.value.1], c + [pieces.value.2];
    }
    assert rows[..|rows|] == rows;
  }

  /**
   * One row of a table the servers add up: every owner shares its own row, each server adds
   * its shares, and the three totals reveal the owners' sum.
   */
  method SumThroughShares(rows: seq<seq<nat>>, n: nat, p: nat, draw: Draw, table: Part, row: nat) returns (r: seq<nat>)
    requires p > 0 && InField(draw, p) && forall o :: 0 <= o < |rows| ==> |rows[o]| == n
    requires forall i :: 0 <= i < n ==> Summed(rows, n)[i] < p
    ensures r == Summed(rows, n)
  {
    forall o, i | 0 <= o < |rows| && 0 <= i < n
      ensures rows[o][i] < p
    {
      SummedCovers(rows, n, o, i);
    }
    forall i | 0 <= i < n
      ensures 0 <= Summed(rows, n)[i]
    {
      SummedCovers(rows, n, 0, i);
    }
    hide InField, Summed, OwnersSplit, SplitVector;
    var a, b, c := ShareRows(rows, n, p, draw, table, row);
    AccumulationSplits(rows, a, b, c, n, p);
    SameCount(rows, a, b, c, n, p);
    var x := Accumulate(a, n, p);
    var y := Accumulate(b, n, p);
    var z := Accumulate(c, n, p);
    r := ReconstructVector(Summed(rows, n), x, y, z, p);
  }

  lemma {:induction false} SameCount(values: seq<seq<int>>, a: seq<seq<nat>>, b: seq<seq<nat>>, c: seq<seq<nat>>, n: nat, p: nat)
    requires OwnersSplit(values, a, b, c, n, p)
    ensures |values| == |a| == |b| == |c|
  {
  }
}
