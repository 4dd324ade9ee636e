// Powers of two, bit lengths, and the bitwise integer operations the packing
// code uses, related to division and remainder.
module Bits {

  function Pow2(n: nat): (r: nat)
    ensures r > 0
  {
    if n == 0 then 1 else 2 * Pow2(n - 1)
  }

  /** The number of binary digits of `n`. */
  function BitLength(n: nat): (r: nat)
    ensures n < Pow2(r)
    ensures n > 0 ==> r > 0 && Pow2(r - 1) <= n
  {
    if n == 0 then 0 else BitLength(n / 2) + 1
  }

  /** `max(1, (rows - 1).bit_length())`: the width of an index into `rows` rows. */
  function IndexBits(rows: nat): (r: nat)
    requires rows > 0
    ensures r > 0 && rows <= Pow2(r)
  {
    if BitLength(rows - 1) == 0 then 1 else BitLength(rows - 1)
  }

  /** A power of two has as many rows as its index selects, unless it is one. */
  lemma {:induction false} FullIndex(k: nat)
    ensures IndexBits(Pow2(k)) == if k == 0 then 1 else k
    ensures Pow2(k) == Pow2(IndexBits(Pow2(k))) <==> k >= 1
    ensures Pow2(k) >= 2 <==> k >= 1
  {
    var r := BitLength(Pow2(k) - 1);
    if r < k {
      Pow2Monotone(r + 1, k);
    } else if r > k {
      Pow2Monotone(k, r - 1);
    }
    hide BitLength;
  }

  lemma {:induction false} Pow2Add(a: nat, b: nat)
    ensures Pow2(a + b) == Pow2(a) * Pow2(b)
  {
    if a > 0 {
      Pow2Add(a - 1, b);
    }
  }

  lemma {:induction false} Pow2Monotone(a: nat, b: nat)
    requires a <= b
    ensures Pow2(a) <= Pow2(b)
  {
    if a < b {
      Pow2Monotone(a, b - 1);
    }
  }

  // --- Division facts ------------------------------------------------------

  lemma {:induction false} ProductOrder(a: int, b: int, d: nat)
    requires a <= b
    ensures a * d <= b * d
  {
  }

  lemma {:induction false} ProductIsNat(a: nat, b: nat)
    ensures a * b >= 0
  {
  }

  function Times(a: nat, b: nat): (r: nat) {
    ProductIsNat(a, b);
    a * b
  }

  lemma {:induction false} TimesFacts(a: nat, b: nat)
    ensures a == 0 ==> Times(a, b) == 0
    ensures a > 0 ==> Times(a, b) == Times(a - 1, b) + b
    ensures Times(a + 1, b) == Times(a, b) + b
  {
  }

  lemma {:induction false} TimesMonotone(a: nat, b: nat, d: nat)
    requires a <= b
    ensures Times(a, d) <= Times(b, d)
  {
    ProductOrder(a, b, d);
  }

  /** Python's `v // d` on non-negative operands. */
  function Quotient(v: nat, d: nat): (q: nat)
    requires d > 0
  {
    QuotientIsNat(v, d);
    v / d
  }

  /** Python's `v % d` on non-negative operands. */
  function Remainder(v: nat, d: nat): (r: nat)
    requires d > 0
    ensures r < d
  {
    v % d
  }

  lemma {:induction false} QuotientIsNat(v: nat, d: nat)
    requires d > 0
    ensures v / d >= 0
  {
    assert v == (v / d) * d + v % d;
    if v / d <= -1 {
      ProductOrder(v / d, -1, d);
    }
  }

  lemma {:induction false} DivMod(v: nat, d: nat)
    requires d > 0
    ensures v == Quotient(v, d) * d + Remainder(v, d)
  {
    assert v == (v / d) * d + v % d;
  }

  /** Quotient and remainder are determined by their defining equation. */
  lemma {:induction false} DivModUnique(v: nat, d: nat, q: nat, r: nat)
    requires r < d && v == q * d + r
    ensures Quotient(v, d) == q && Remainder(v, d) == r
  {
    DivMod(v, d);
    hide *;
    var e := Quotient(v, d) - q;
    assert e * d == r - Remainder(v, d) by {
      assert (Quotient(v, d) - q) * d == Quotient(v, d) * d - q * d;
    }
    if e >= 1 {
      ProductOrder(1, e, d);
    } else if e <= -1 {
      ProductOrder(e, -1, d);
    }
  }

  lemma {:induction false} SmallQuotient(v: nat, d: nat)
    requires v < d
    ensures Quotient(v, d) == 0 && Remainder(v, d) == v
  {
    DivModUnique(v, d, 0, v);
  }

  /** Dividing twice. */
  lemma {:induction false} DivDiv(v: nat, a: nat, b: nat)
    requires a > 0 && b > 0
    ensures a * b > 0
    ensures Quotient(Quotient(v, a), b) == Quotient(v, a * b)
    ensures Remainder(v, a * b) == Remainder(v, a) + a * Remainder(Quotient(v, a), b)
  {
    hide *;
    var q, r := Quotient(v, a), Remainder(v, a);
    var q', r' := Quotient(q, b), Remainder(q, b);
    DivMod(v, a);
    DivMod(q, b);
    assert v == q' * (a * b) + (r + a * r') by {
      assert (q' * b + r') * a == q' * (a * b) + a * r';
    }
    assert r + a * r' < a * b by {
      ProductOrder(r', b - 1, a);
      assert (b - 1) * a == a * b - a;
      assert r' * a == a * r';
    }
    ProductIsNat(a, r');
    DivModUnique(v, a * b, q', r + a * r');
  }

  lemma {:induction false} QuotientBound(v: nat, d: nat, b: nat)
    requires d > 0 && v < d * b
    ensures Quotient(v, d) < b
  {
    DivMod(v, d);
    hide *;
    if Quotient(v, d) >= b {
      ProductOrder(b, Quotient(v, d), d);
    }
  }

  lemma {:induction false} Halves(v: nat)
    ensures Quotient(v, 2) == v / 2 && Remainder(v, 2) == v % 2
  {
  }

  // --- Bitwise operations on non-negative integers --------------------------

  /** Python's `a | b`. */
  function Or(a: nat, b: nat): nat {
    if a == 0 then b
    else if b == 0 then a
    else (if a % 2 == 1 || b % 2 == 1 then 1 else 0) + 2 * Or(a / 2, b / 2)
  }

  /** Python's `a & b`. */
  function And(a: nat, b: nat): nat {
    if a == 0 || b == 0 then 0
    else (if a % 2 == 1 && b % 2 == 1 then 1 else 0) + 2 * And(a / 2, b / 2)
  }

  function ShiftLeft(v: nat, n: nat): (r: nat) {
    ProductIsNat(v, Pow2(n));
    v * Pow2(n)
  }

  function ShiftRight(v: nat, n: nat): nat {
    Quotient(v, Pow2(n))
  }

  /** A value that fits below the shift is joined to the shifted one without carries. */
  lemma {:induction false} OrDisjoint(a: nat, v: nat, n: nat)
    requires a < Pow2(n)
    ensures Or(a, ShiftLeft(v, n)) == a + ShiftLeft(v, n)
  {
    if a != 0 && v != 0 {
      var b := ShiftLeft(v, n);
      HalfShift(v, n);
      OrDisjoint(a / 2, v, n - 1);
    } else if v == 0 {
      assert 0 * Pow2(n) == 0;
    }
  }

  lemma {:induction false} HalfShift(v: nat, n: nat)
    requires n > 0
    ensures ShiftLeft(v, n) == 2 * ShiftLeft(v, n - 1)
  {
    assert v * (2 * Pow2(n - 1)) == 2 * (v * Pow2(n - 1));
  }

  /** Division by a power of two, one bit at a time. */
  lemma {:induction false} HalfDivide(v: nat, n: nat)
    requires n > 0
    ensures Quotient(v, Pow2(n)) == Quotient(v / 2, Pow2(n - 1))
    ensures Remainder(v, Pow2(n)) == v % 2 + 2 * Remainder(v / 2, Pow2(n - 1))
  {
    Halves(v);
    DivDiv(v, 2, Pow2(n - 1));
  }

  /** Masking with `2^n - 1` keeps the remainder. */
  lemma {:induction false} AndMask(v: nat, n: nat)
    ensures And(v, Pow2(n) - 1) == Remainder(v, Pow2(n))
  {
    if n == 0 {
      DivModUnique(v, 1, v, 0);
    } else if v == 0 {
      SmallQuotient(0, Pow2(n));
    } else {
      HalfDivide(v, n);
      AndMask(v / 2, n - 1);
      hide Quotient, Remainder;
      assert (Pow2(n) - 1) / 2 == Pow2(n - 1) - 1;
    }
  }

  // --- Bit decomposition -----------------------------------------------------

  /** The circuit's `bit_decompose(n)`, least significant bit first. */
  function Decompose(v: nat, n: nat): (bits: seq<int>)
    ensures |bits| == n
  {
    if n == 0 then [] else [v % 2] + Decompose(v / 2, n - 1)
  }

  /** The circuit's `bit_compose`. */
  function Compose(bits: seq<int>): int {
    if bits == [] then 0 else bits[0] + 2 * Compose(bits[1..])
  }

  /** The bits `[lo, hi)` of `v`, as a number. */
  function Field(v: nat, lo: nat, hi: nat): (r: nat)
    requires lo <= hi
    ensures r < Pow2(hi - lo)
  {
    Remainder(Quotient(v, Pow2(lo)), Pow2(hi - lo))
  }

  /** Recomposing a slice of the bits extracts that bit field. */
  lemma {:induction false} ComposeSlice(v: nat, n: nat, lo: nat, hi: nat)
    requires lo <= hi <= n
    ensures Compose(Decompose(v, n)[lo..hi]) == Field(v, lo, hi)
  {
    var bits := Decompose(v, n);
    if lo > 0 {
      ComposeSlice(v / 2, n - 1, lo - 1, hi - 1);
      HalfDivide(v, lo);
      hide Quotient, Remainder;
      assert bits[lo..hi] == Decompose(v / 2, n - 1)[lo - 1..hi - 1];
    } else {
      DivModUnique(v, 1, v, 0);
      if hi > 0 {
        ComposeSlice(v / 2, n - 1, 0, hi - 1);
        DivModUnique(v / 2, 1, v / 2, 0);
        HalfDivide(v, hi);
        hide Quotient, Remainder;
        assert bits[0..hi][1..] == Decompose(v / 2, n - 1)[0..hi - 1];
      } else {
        assert bits[0..0] == [];
      }
    }
  }

  /** A single bit of the decomposition. */
  lemma {:induction false} DecomposeBit(v: nat, n: nat, i: nat)
    requires i < n
    ensures Decompose(v, n)[i] == Field(v, i, i + 1)
  {
    ComposeSlice(v, n, i, i + 1);
    assert Decompose(v, n)[i..i + 1] == [Decompose(v, n)[i]];
  }
}
