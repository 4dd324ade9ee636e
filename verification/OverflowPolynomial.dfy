// Lagrange interpolation of `1[x > bound]` over a prime field, and its Horner
// evaluation.
module OverflowPolynomial {
  import opened Wrappers
  import opened PrimeField

  // --- Polynomials over the integers --------------------------------------------

  /** The value of a coefficient list, lowest degree first. */
  function Eval(c: seq<int>, x: int): int {
    if c == [] then 0 else c[0] + x * Eval(c[1..], x)
  }

  /** Every coefficient reduced. */
  function Reduced(c: seq<int>, p: nat): (r: seq<int>)
    requires p > 0
    ensures |r| == |c| && forall i :: 0 <= i < |r| ==> r[i] == Mod(c[i], p)
  {
    seq(|c|, i requires 0 <= i < |c| => Mod(c[i], p))
  }

  /** Reducing coefficients does not change the value modulo `p`. */
  lemma {:induction false} EvalReduced(c: seq<int>, x: int, p: nat)
    requires p > 0
    ensures Mod(Eval(Reduced(c, p), x), p) == Mod(Eval(c, x), p)
  {
    if c != [] {
      EvalReduced(c[1..], x, p);
      assert Reduced(c, p)[1..] == Reduced(c[1..], p);
      var rest, rest' := Eval(c[1..], x), Eval(Reduced(c[1..], p), x);
      hide *;
      ReduceStep(c[0], x, rest, rest', p);
      EvalStep(c, x);
      EvalStep(Reduced(c, p), x);
    }
  }

  lemma {:induction false} EvalStep(c: seq<int>, x: int)
    requires c != []
    ensures Eval(c, x) == c[0] + x * Eval(c[1..], x)
  {
  }

  lemma {:induction false} ReduceStep(first: int, x: int, rest: int, rest': int, p: nat)
    requires p > 0 && Mod(rest', p) == Mod(rest, p)
    ensures Mod(Mod(first, p) + x * rest', p) == Mod(first + x * rest, p)
  {
    hide Mod;
    ModAdd(first, x * rest', p);
    ModMul(rest, x, p);
    ModMul(rest', x, p);
    assert rest' * x == x * rest' && rest * x == x * rest;
    ModAdd(x * rest', first, p);
    ModAdd(x * rest, first, p);
  }

  // --- Multiplying by a linear factor --------------------------------------------------

  /** `carry + (X - other) * basis`, coefficient by coefficient. */
  function TimesLinear(basis: seq<int>, other: int, carry: int): (r: seq<int>)
    ensures |r| == |basis| + 1
  {
    if basis == [] then [carry]
    else [carry - other * basis[0]] + TimesLinear(basis[1..], other, basis[0])
  }

  lemma {:induction false} TimesLinearValue(basis: seq<int>, other: int, carry: int, x: int)
    ensures Eval(TimesLinear(basis, other, carry), x) == carry + (x - other) * Eval(basis, x)
  {
    if basis == [] {
      assert Eval([carry], x) == carry + x * Eval([carry][1..], x);
    } else {
      TimesLinearValue(basis[1..], other, basis[0], x);
      var r, e := TimesLinear(basis, other, carry), Eval(basis[1..], x);
      assert r[1..] == TimesLinear(basis[1..], other, basis[0]);
      LinearStep(carry, other, basis[0], x, e);
    }
  }

  lemma {:induction false} LinearStep(carry: int, other: int, b: int, x: int, e: int)
    ensures (carry - other * b) + x * (b + (x - other) * e) == carry + (x - other) * (b + x * e)
  {
    assert x * (b + (x - other) * e) == x * b + x * ((x - other) * e);
    assert x * ((x - other) * e) == (x - other) * (x * e);
    assert (x - other) * (b + x * e) == x * b - other * b + (x - other) * (x * e);
  }

  /** The elements of the product. */
  lemma {:induction false} TimesLinearAt(basis: seq<int>, other: int, carry: int, d: nat)
    requires d <= |basis|
    ensures TimesLinear(basis, other, carry)[d]
         == (if d == 0 then carry else basis[d - 1]) - if d < |basis| then other * basis[d] else 0
  {
    if basis != [] && d > 0 {
      TimesLinearAt(basis[1..], other, basis[0], d - 1);
      assert TimesLinear(basis, other, carry)[d] == TimesLinear(basis[1..], other, basis[0])[d - 1];
    }
  }

  /** `product[degree] - other * coefficient`. */
  function Spent(below: int, other: int, coefficient: int, p: nat): nat
    requires p > 0
  {
    Mod(below - other * coefficient, p)
  }

  function Below(basis: seq<int>, d: nat): int
    requires d <= |basis|
  {
    if d == 0 then 0 else basis[d - 1]
  }

  /** The accumulators once the coefficients below `n` have been spread. */
  ghost predicate Spread(product: seq<int>, basis: seq<int>, other: int, p: nat, n: nat) {
    && p > 0 && n <= |basis| && |product| == |basis| + 1
    && (forall d :: 0 <= d < n ==> product[d] == Spent(Below(basis, d), other, basis[d], p))
    && product[n] == Below(basis, n)
    && forall d :: n < d <= |basis| ==> product[d] == 0
  }

  lemma {:induction false} SpreadStep(product: seq<int>, basis: seq<int>, other: int, p: nat, n: nat)
    requires Spread(product, basis, other, p, n) && n < |basis| && 0 <= basis[n] < p
    ensures |product| == |basis| + 1 && Mod(product[n + 1] + basis[n], p) == basis[n]
    ensures Spread(product[n := Spent(product[n], other, basis[n], p)][n + 1 := basis[n]], basis, other, p, n + 1)
  {
    ModSmall(basis[n], p);
    hide Mod, Spent;
    assert product[n + 1] + basis[n] == basis[n];
    var next := product[n := Spent(product[n], other, basis[n], p)][n + 1 := basis[n]];
    forall d | 0 <= d < n + 1
      ensures next[d] == Spent(Below(basis, d), other, basis[d], p)
    {
      if d < n {
        assert next[d] == product[d];
      }
    }
  }

  lemma {:induction false} SpreadAll(product: seq<int>, basis: seq<int>, other: int, p: nat)
    requires Spread(product, basis, other, p, |basis|) && forall i :: 0 <= i < |basis| ==> 0 <= basis[i] < p
    ensures product == Reduced(TimesLinear(basis, other, 0), p)
  {
    ModSmall(Below(basis, |basis|), p);
    hide Mod;
    forall d | 0 <= d <= |basis|
      ensures product[d] == Reduced(TimesLinear(basis, other, 0), p)[d]
    {
      TimesLinearAt(basis, other, 0, d);
    }
  }

  lemma {:induction false} SpreadNothing(basis: seq<int>, other: int, p: nat)
    requires p > 0
    ensures Spread(ZeroCoefficients(|basis| + 1), basis, other, p, 0)
  {
  }

  /** The in-place product of the source: each coefficient is subtracted here and added one up. */
  method MultiplyLinear(basis: seq<int>, other: int, p: nat) returns (product: seq<int>)
    requires p > 0 && forall i :: 0 <= i < |basis| ==> 0 <= basis[i] < p
    ensures product == Reduced(TimesLinear(basis, other, 0), p)
  {
    product := ZeroCoefficients(|basis| + 1);
    SpreadNothing(basis, other, p);
    hide *;
    for degree := 0 to |basis|
      invariant Spread(product, basis, other, p, degree)
    {
      SpreadStep(product, basis, other, p, degree);
      product := product[degree := Spent(product[degree], other, basis[degree], p)];
      product := product[degree + 1 := Mod(product[degree + 1] + basis[degree], p)];
    }
    SpreadAll(product, basis, other, p);
  }

  // --- One basis polynomial ------------------------------------------------------------

  /** The product of `x - other` over the points below `n` other than `point`. */
  function Product(x: int, point: nat, n: nat): int {
    if n == 0 then 1
    else if n - 1 == point then Product(x, point, n - 1)
    else Product(x, point, n - 1) * (x - (n - 1))
  }

  /** A root kills the product. */
  lemma {:induction false} ProductRoot(x: nat, point: nat, n: nat)
    requires x < n && x != point
    ensures Product(x, point, n) == 0
  {
    if x < n - 1 {
      ProductRoot(x, point, n - 1);
    } else {
      assert Product(x, point, n - 1) * (x - x) == 0;
    }
  }

  /** The accumulated basis and denominator. */
  ghost predicate BasisFor(basis: seq<int>, denominator: nat, point: nat, n: nat, p: nat) {
    && p > 0 && (forall i :: 0 <= i < |basis| ==> 0 <= basis[i] < p)
    && |basis| == (if n > point then n else n + 1)
    && (forall x: int :: Mod(Eval(basis, x), p) == Mod(Product(x, point, n), p))
    && denominator == Mod(Product(point, point, n), p)
  }

  lemma {:induction false} BasisStep(basis: seq<int>, denominator: nat, point: nat, n: nat, p: nat, product: seq<int>)
    requires BasisFor(basis, denominator, point, n, p) && n != point
    requires product == Reduced(TimesLinear(basis, n, 0), p)
    ensures BasisFor(product, Mod(denominator * (point - n), p), point, n + 1, p)
  {
    forall x: int
      ensures Mod(Eval(product, x), p) == Mod(Product(x, point, n + 1), p)
    {
      EvalReduced(TimesLinear(basis, n, 0), x, p);
      TimesLinearValue(basis, n, 0, x);
      hide *;
      ModMul(Eval(basis, x), x - n, p);
      ModMul(Product(x, point, n), x - n, p);
      assert (x - n) * Eval(basis, x) == Eval(basis, x) * (x - n);
      ProductStep(x, point, n);
      BasisValue(basis, denominator, point, n, p, x);
    }
    ModMul(Product(point, point, n), point - n, p);
    hide Eval, Mod, TimesLinear;
  }

  lemma {:induction false} ProductStep(x: int, point: nat, n: nat)
    requires n != point
    ensures Product(x, point, n + 1) == Product(x, point, n) * (x - n)
  {
  }

  lemma {:induction false} BasisValue(basis: seq<int>, denominator: nat, point: nat, n: nat, p: nat, x: int)
    requires BasisFor(basis, denominator, point, n, p)
    ensures p > 0 && Mod(Eval(basis, x), p) == Mod(Product(x, point, n), p)
  {
  }

  lemma {:induction false} BasisSkips(basis: seq<int>, denominator: nat, point: nat, p: nat)
    requires BasisFor(basis, denominator, point, point, p)
    ensures BasisFor(basis, denominator, point, point + 1, p)
  {
    hide Eval, Mod;
  }

  /** The points of the domain are distinct residues, so the denominator is invertible. */
  lemma {:induction false} DenominatorNonzero(point: nat, n: nat, p: nat)
    requires Prime(p) && point < p && n <= p
    ensures Mod(Product(point, point, n), p) != 0
  {
    if n == 0 {
      ModSmall(1, p);
    } else {
      DenominatorNonzero(point, n - 1, p);
      if n - 1 != point {
        var a, d := Product(point, point, n - 1), point - (n - 1);
        DifferenceNonzero(point, n - 1, p);
        hide Product, Mod;
        NoZeroDivisors(a, d, p);
      }
    }
  }

  lemma {:induction false} DifferenceNonzero(a: nat, b: nat, p: nat)
    requires a < p && b < p && a != b
    ensures Mod(a - b, p) != 0
  {
    if a > b {
      ModSmall(a - b, p);
    } else {
      ModUnique(a - b, p, -1, a - b + p);
    }
  }

  /** All factors of one basis polynomial. */
  method BuildBasis(point: nat, maximum: nat, p: nat) returns (basis: seq<int>, denominator: nat)
    requires p > 1 && point <= maximum
    ensures BasisFor(basis, denominator, point, maximum + 1, p)
  {
    basis, denominator := [1], 1;
    StartBasis(point, p);
    hide *;
    for other := 0 to maximum + 1
      invariant BasisFor(basis, denominator, point, other, p)
    {
      if other == point {
        BasisSkips(basis, denominator, point, p);
      } else {
        BasisRange(basis, denominator, point, other, p);
        var product := MultiplyLinear(basis, other, p);
        BasisStep(basis, denominator, point, other, p, product);
        basis, denominator := product, Mod(denominator * (point - other), p);
      }
    }
  }

  lemma {:induction false} StartBasis(point: nat, p: nat)
    requires p > 1
    ensures BasisFor([1], 1, point, 0, p)
  {
    forall x: int
      ensures Eval([1], x) == 1
    {
      assert [1][1..] == [];
    }
    ModSmall(1, p);
    hide Eval;
  }

  lemma {:induction false} BasisRange(basis: seq<int>, denominator: nat, point: nat, n: nat, p: nat)
    requires BasisFor(basis, denominator, point, n, p)
    ensures forall i :: 0 <= i < |basis| ==> 0 <= basis[i] < p
    ensures |basis| == if n > point then n else n + 1
  {
  }

  // --- The indicator --------------------------------------------------------------------

  function Indicator(b: bool): nat {
    if b then 1 else 0
  }

  /** `result + scale * basis`, reduced. */
  function AddMultiple(result: seq<int>, basis: seq<int>, scale: int, p: nat): (r: seq<int>)
    requires |result| == |basis| && p > 0
    ensures |r| == |result| && forall d :: 0 <= d < |r| ==> r[d] == Mod(result[d] + basis[d] * scale, p)
  {
    seq(|result|, d requires 0 <= d < |result| => Mod(result[d] + basis[d] * scale, p))
  }

  function SumOf(result: seq<int>, basis: seq<int>, scale: int): (r: seq<int>)
    requires |result| == |basis|
    ensures |r| == |result| && forall d :: 0 <= d < |r| ==> r[d] == result[d] + basis[d] * scale
  {
    seq(|result|, d requires 0 <= d < |result| => result[d] + basis[d] * scale)
  }

  lemma {:induction false} SumValue(result: seq<int>, basis: seq<int>, scale: int, x: int)
    requires |result| == |basis|
    ensures Eval(SumOf(result, basis, scale), x) == Eval(result, x) + scale * Eval(basis, x)
  {
    if result != [] {
      SumValue(result[1..], basis[1..], scale, x);
      assert SumOf(result, basis, scale)[1..] == SumOf(result[1..], basis[1..], scale);
      SumStep(result[0], basis[0], scale, x, Eval(result[1..], x), Eval(basis[1..], x));
    }
  }

  lemma {:induction false} SumStep(a: int, b: int, scale: int, x: int, e: int, f: int)
    ensures (a + b * scale) + x * (e + scale * f) == (a + x * e) + scale * (b + x * f)
  {
    assert x * (scale * f) == scale * (x * f);
    assert x * (e + scale * f) == x * e + x * (scale * f);
    assert scale * (b + x * f) == scale * b + scale * (x * f);
  }

  /** The coefficients give 1 on the points in `(bound, upTo)` of the domain and 0 on its others. */
  ghost predicate Interpolates(result: seq<int>, bound: nat, upTo: nat, maximum: nat, p: nat) {
    && p > 0 && |result| == maximum + 1 && (forall i :: 0 <= i < |result| ==> 0 <= result[i] < p)
    && forall x: nat :: x <= maximum ==> Mod(Eval(result, x), p) == Indicator(bound < x < upTo)
  }

  lemma {:induction false} AddPoint(result: seq<int>, basis: seq<int>, denominator: nat, scale: nat, bound: nat, point: nat, maximum: nat, p: nat)
    requires Interpolates(result, bound, point, maximum, p) && BasisFor(basis, denominator, point, maximum + 1, p)
    requires bound < point <= maximum < p && p > 1 && Mod(denominator * scale, p) == 1 && |basis| == |result|
    ensures Interpolates(AddMultiple(result, basis, scale, p), bound, point + 1, maximum, p)
  {
    forall x: nat | x <= maximum
      ensures Mod(Eval(AddMultiple(result, basis, scale, p), x), p) == Indicator(bound < x < point + 1)
    {
      AddPointAt(result, basis, denominator, scale, bound, point, maximum, p, x);
    }
  }

  /** Scaled, a basis polynomial is 1 at its own point and 0 at the others. */
  lemma {:induction false} BasisAt(basis: seq<int>, denominator: nat, scale: nat, point: nat, maximum: nat, p: nat, x: nat)
    requires BasisFor(basis, denominator, point, maximum + 1, p) && point <= maximum && x <= maximum
    requires p > 1 && Mod(denominator * scale, p) == 1
    ensures Mod(scale * Eval(basis, x), p) == Indicator(x == point)
  {
    BasisValue(basis, denominator, point, maximum + 1, p, x);
    BasisDenominator(basis, denominator, point, maximum + 1, p);
    if x != point {
      ProductRoot(x, point, maximum + 1);
    }
    hide *;
    var e, v := Eval(basis, x), Product(x, point, maximum + 1);
    ModMul(e, scale, p);
    ModMul(v, scale, p);
    assert scale * e == e * scale;
    if x == point {
      assert Indicator(x == point) == 1 by { OneAndZero(); }
    } else {
      assert v * scale == 0;
      ModSmall(0, p);
      assert Indicator(x == point) == 0 by { OneAndZero(); }
    }
  }

  lemma {:induction false} OneAndZero()
    ensures Indicator(true) == 1 && Indicator(false) == 0
  {
  }

  lemma {:induction false} BasisDenominator(basis: seq<int>, denominator: nat, point: nat, n: nat, p: nat)
    requires BasisFor(basis, denominator, point, n, p)
    ensures p > 0 && denominator == Mod(Product(point, point, n), p)
  {
  }

  lemma {:induction false} AddPointAt(result: seq<int>, basis: seq<int>, denominator: nat, scale: nat, bound: nat, point: nat, maximum: nat, p: nat, x: nat)
    requires Interpolates(result, bound, point, maximum, p) && BasisFor(basis, denominator, point, maximum + 1, p)
    requires bound < point <= maximum < p && p > 1 && Mod(denominator * scale, p) == 1 && |basis| == |result| && x <= maximum
    ensures Mod(Eval(AddMultiple(result, basis, scale, p), x), p) == Indicator(bound < x < point + 1)
  {
    assert AddMultiple(result, basis, scale, p) == Reduced(SumOf(result, basis, scale), p);
    EvalReduced(SumOf(result, basis, scale), x, p);
    SumValue(result, basis, scale, x);
    BasisAt(basis, denominator, scale, point, maximum, p, x);
    assert Mod(Eval(result, x), p) == Indicator(bound < x < point);
    hide Eval, BasisFor, Interpolates, AddMultiple, SumOf, Mod;
    var a, b := Eval(result, x), scale * Eval(basis, x);
    ModAdd(a, b, p);
    ModAdd(b, Mod(a, p), p);
    ModSmall(Indicator(bound < x < point) + Indicator(x == point), p);
  }

  function ZeroCoefficients(n: nat): (r: seq<int>)
    ensures |r| == n && forall i :: 0 <= i < n ==> r[i] == 0
  {
    seq(n, _ => 0)
  }

  lemma {:induction false} ZeroPolynomial(n: nat, x: int)
    ensures Eval(ZeroCoefficients(n), x) == 0
  {
    if n > 0 {
      ZeroPolynomial(n - 1, x);
      assert ZeroCoefficients(n)[1..] == ZeroCoefficients(n - 1);
    }
  }

  lemma {:induction false} StartInterpolation(bound: nat, maximum: nat, p: nat)
    requires p > 0
    ensures Interpolates(ZeroCoefficients(maximum + 1), bound, bound + 1, maximum, p)
  {
    ModSmall(0, p);
    var zeros := ZeroCoefficients(maximum + 1);
    forall x: nat | x <= maximum
      ensures Mod(Eval(zeros, x), p) == Indicator(bound < x < bound + 1)
    {
      ZeroPolynomial(maximum + 1, x);
    }
    hide Eval;
  }

  /** `overflow_polynomial`: exact on the whole promised domain, for any prime field that contains it. */
  method OverflowCoefficients(bound: int, maximum: int, p: nat) returns (r: Result<seq<int>>)
    requires Prime(p)
    ensures r.Ok? <==> 0 <= bound < maximum < p
    ensures r.Ok? ==> Interpolates(r.value, bound, maximum + 1, maximum, p)
  {
    if !(0 <= bound < maximum < p) {
      return Err(OutOfRange);
    }
    var result: seq<int> := ZeroCoefficients(maximum + 1);
    StartInterpolation(bound, maximum, p);
    hide Interpolates, BasisFor, Product, Eval, Mod;
    for point := bound + 1 to maximum + 1
      invariant Interpolates(result, bound, point, maximum, p)
    {
      var basis, denominator := BuildBasis(point, maximum, p);
      DenominatorNonzero(point, maximum + 1, p);
      BasisDenominator(basis, denominator, point, maximum + 1, p);
      ModSmall(denominator, p);
      var scale := Inverse(denominator, p);
      BasisRange(basis, denominator, point, maximum + 1, p);
      InterpolationLength(result, bound, point, maximum, p);
      AddPoint(result, basis, denominator, scale, bound, point, maximum, p);
      result := AddMultiple(result, basis, scale, p);
    }
    r := Ok(result);
  }

  lemma {:induction false} InterpolationLength(result: seq<int>, bound: nat, upTo: nat, maximum: nat, p: nat)
    requires Interpolates(result, bound, upTo, maximum, p)
    ensures |result| == maximum + 1
  {
  }

  // --- Horner evaluation ---------------------------------------------------------------------

  /** One SIMD step over all rows: `overflow * counts + coefficient`. */
  function HornerStep(overflow: seq<nat>, counts: seq<nat>, coefficient: int, p: nat): (r: seq<nat>)
    requires |overflow| == |counts| && p > 0
    ensures |r| == |counts| && forall i :: 0 <= i < |r| ==> r[i] == Mod(overflow[i] * counts[i] + coefficient, p)
  {
    seq(|counts|, i requires 0 <= i < |counts| => Mod(overflow[i] * counts[i] + coefficient, p))
  }

  /** The rendered pass, from the highest coefficient down. */
  method HornerPass(coefficients: seq<int>, counts: seq<nat>, p: nat) returns (overflow: seq<nat>)
    requires p > 0 && coefficients != []
    ensures |overflow| == |counts|
    ensures forall i :: 0 <= i < |counts| ==> overflow[i] == Mod(Eval(coefficients, counts[i]), p)
  {
    var n := |coefficients| - 1;
    overflow := seq(|counts|, _ => Mod(coefficients[n], p));
    forall i | 0 <= i < |counts|
      ensures Eval(coefficients[n..], counts[i]) == coefficients[n]
    {
      assert coefficients[n..][1..] == [];
    }
    for k := n downto 0
      invariant |overflow| == |counts|
      invariant forall i :: 0 <= i < |counts| ==> overflow[i] == Mod(Eval(coefficients[k..], counts[i]), p)
    {
      ghost var was := overflow;
      hide Mod, Eval;
      overflow := HornerStep(overflow, counts, coefficients[k], p);
      forall i | 0 <= i < |counts|
        ensures overflow[i] == Mod(Eval(coefficients[k..], counts[i]), p)
      {
        HornerRow(coefficients, k, counts[i], was[i], p);
      }
    }
    assert coefficients[0..] == coefficients;
  }

  lemma {:induction false} HornerRow(coefficients: seq<int>, k: nat, x: nat, above: nat, p: nat)
    requires k + 1 <= |coefficients| && p > 0 && above == Mod(Eval(coefficients[k + 1..], x), p)
    ensures Mod(above * x + coefficients[k], p) == Mod(Eval(coefficients[k..], x), p)
  {
    EvalStep(coefficients[k..], x);
    assert coefficients[k..][1..] == coefficients[k + 1..];
    hide *;
    var e := Eval(coefficients[k + 1..], x);
    ModMul(e, x, p);
    ModAdd(above * x, coefficients[k], p);
    ModAdd(e * x, coefficients[k], p);
    assert e * x == x * e;
  }
}
