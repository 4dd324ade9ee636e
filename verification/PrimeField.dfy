// Residues modulo a prime, and inverses by the extended Euclidean algorithm.
module PrimeField {

  /** Python's `a % p` for a positive modulus. */
  function Mod(a: int, p: nat): (r: nat)
    requires p > 0
    ensures r < p
  {
    a % p
  }

  lemma {:induction false} ModIs(a: int, p: nat)
    requires p > 0
    ensures a == (a / p) * p + Mod(a, p)
  {
  }

  /** A residue is determined by congruence. */
  lemma {:induction false} ModUnique(a: int, p: nat, k: int, r: nat)
    requires p > 0 && r < p && a == k * p + r
    ensures Mod(a, p) == r
  {
    ModIs(a, p);
    var e := a / p - k;
    assert e * p == r - Mod(a, p) by {
      assert (a / p - k) * p == (a / p) * p - k * p;
    }
    MultipleInRange(e, p, r - Mod(a, p));
  }

  /** A multiple of `p` strictly between `-p` and `p` is zero. */
  lemma {:induction false} MultipleInRange(e: int, p: nat, d: int)
    requires p > 0 && e * p == d && d < p && -d < p
    ensures d == 0
  {
    assert e >= 1 ==> (e - 1) * p >= 0;
    assert e <= -1 ==> (-e - 1) * p >= 0;
    assert (e - 1) * p == e * p - p && (-e - 1) * p == -(e * p) - p;
  }

  /** Shifting by a multiple of the modulus. */
  lemma {:induction false} ModShift(a: int, p: nat, k: int)
    requires p > 0
    ensures Mod(a + k * p, p) == Mod(a, p)
  {
    ModIs(a, p);
    hide Mod;
    assert a + k * p == (a / p + k) * p + Mod(a, p);
    ModUnique(a + k * p, p, a / p + k, Mod(a, p));
  }

  lemma {:induction false} ModSmall(a: nat, p: nat)
    requires a < p
    ensures Mod(a, p) == a
  {
    ModUnique(a, p, 0, a);
  }

  /** Reducing an addend does not change the sum. */
  lemma {:induction false} ModAdd(a: int, b: int, p: nat)
    requires p > 0
    ensures Mod(Mod(a, p) + b, p) == Mod(a + b, p)
  {
    ModIs(a, p);
    hide Mod;
    ModShift(Mod(a, p) + b, p, a / p);
  }

  /** Reducing a factor does not change the product. */
  lemma {:induction false} ModMul(a: int, b: int, p: nat)
    requires p > 0
    ensures Mod(Mod(a, p) * b, p) == Mod(a * b, p)
  {
    ModIs(a, p);
    hide Mod;
    var q, r := a / p, Mod(a, p);
    assert a * b == r * b + (q * b) * p by {
      assert (q * p + r) * b == (q * p) * b + r * b;
      assert (q * p) * b == (q * b) * p;
    }
    ModShift(r * b, p, q * b);
  }

  // --- Inverses -----------------------------------------------------------------

  ghost predicate Prime(p: nat) {
    p >= 2 && forall d: nat :: 2 <= d < p ==> Mod(p, d) != 0
  }

  /** Extended Euclid: the greatest common divisor and its Bezout coefficients. */
  function ExtendedGcd(a: nat, b: nat): (r: (nat, int, int))
    requires b > 0
    ensures var (g, x, y) := r; g > 0 && a * x + b * y == g && Mod(a, g) == 0 && Mod(b, g) == 0
    decreases b
  {
    if Mod(a, b) == 0 then
      ModUnique(b, b, 1, 0);
      (b, 0, 1)
    else
      var (g, x, y) := ExtendedGcd(b, Mod(a, b));
      GcdStep(a, b, x, y, g);
      (g, y, x - (a / b) * y)
  }

  lemma {:induction false} GcdStep(a: nat, b: nat, x: int, y: int, g: nat)
    requires b > 0 && g > 0 && b * x + Mod(a, b) * y == g && Mod(b, g) == 0 && Mod(Mod(a, b), g) == 0
    ensures a * y + b * (x - (a / b) * y) == g && Mod(a, g) == 0
  {
    ModIs(a, b);
    hide Mod;
    Bezout(a, b, a / b, Mod(a, b), x, y, g);
    DivisorOfSum(a, b, a / b, Mod(a, b), g);
  }

  lemma {:induction false} Bezout(a: int, b: int, q: int, r: int, x: int, y: int, g: int)
    requires a == q * b + r && b * x + r * y == g
    ensures a * y + b * (x - q * y) == g
  {
    assert (q * b + r) * y == q * b * y + r * y;
    assert b * (x - q * y) == b * x - b * (q * y);
    assert b * (q * y) == q * b * y;
  }

  lemma {:induction false} DivisorOfSum(a: nat, b: nat, q: int, r: nat, g: nat)
    requires g > 0 && a == q * b + r && Mod(b, g) == 0 && Mod(r, g) == 0
    ensures Mod(a, g) == 0
  {
    ModIs(b, g);
    ModIs(r, g);
    hide Mod;
    var s, t := b / g, r / g;
    assert a == (q * s + t) * g + 0 by {
      assert q * (s * g) == (q * s) * g;
      assert (q * s) * g + t * g == (q * s + t) * g;
    }
    ModUnique(a, g, q * s + t, 0);
  }

  /** `pow(a, -1, p)`: for a prime modulus every nonzero residue has an inverse. */
  function Inverse(a: int, p: nat): (inverse: nat)
    requires Prime(p) && Mod(a, p) != 0
    ensures inverse < p && Mod(a * inverse, p) == 1
  {
    var r := Mod(a, p);
    var (g, x, y) := ExtendedGcd(p, r);
    DivisorOfPrime(p, r, g);
    IsInverse(a, p, r, x, y, Mod(y, p));
    Mod(y, p)
  }

  /** The only divisor of a prime that also divides a smaller number is one. */
  lemma {:induction false} DivisorOfPrime(p: nat, r: nat, g: nat)
    requires Prime(p) && 0 < r < p && g > 0 && Mod(p, g) == 0 && Mod(r, g) == 0
    ensures g == 1
  {
    if g > r {
      ModSmall(r, g);
    }
  }

  lemma {:induction false} IsInverse(a: int, p: nat, r: nat, x: int, y: int, inverse: nat)
    requires p >= 2 && r == Mod(a, p) && p * x + r * y == 1 && inverse == Mod(y, p)
    ensures Mod(a * inverse, p) == 1
  {
    ModMul(y, r, p);
    ModMul(a, inverse, p);
    hide Mod;
    assert r * y == 1 + (-x) * p;
    ModShift(1, p, -x);
    ModSmall(1, p);
    assert inverse * r == r * inverse && y * r == r * y;
  }

  /** A product of nonzero residues is nonzero. */
  lemma {:induction false} NoZeroDivisors(a: int, d: int, p: nat)
    requires Prime(p) && Mod(a, p) != 0 && Mod(d, p) != 0
    ensures Mod(a * d, p) != 0
  {
    var i := Inverse(d, p);
    hide Mod, Inverse;
    ModMul(a * d, i, p);
    ModMul(d * i, a, p);
    assert (a * d) * i == (d * i) * a;
    if Mod(a * d, p) == 0 {
      assert Mod(0 * i, p) == Mod(1 * a, p);
      ModSmall(0, p);
    }
  }
}
