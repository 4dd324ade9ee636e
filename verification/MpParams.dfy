// The parameter set of the multi-party point function: grid dimensions and the
// cell of a domain point.
module MpParams {
  import opened Wrappers
  import opened Bits

  const MIN_PARTIES := 3
  const MAX_PARTIES := 10
  const MIN_DOMAIN_BITS := 1
  const MAX_DOMAIN_BITS := 30

  /** `n * n`, as the sum of the first `n` odd numbers. */
  function Square(n: nat): nat {
    if n == 0 then 0 else Square(n - 1) + 2 * n - 1
  }

  lemma {:induction false} SquareIs(n: nat)
    ensures Square(n) == n * n
  {
    if n > 0 {
      SquareIs(n - 1);
      assert n * n == (n - 1) * (n - 1) + 2 * n - 1;
    }
  }

  /** The integer square root, rounded down. */
  function Isqrt(v: nat): nat {
    SquareGrows(v);
    IsqrtUpTo(v, v)
  }

  lemma {:induction false} SquareGrows(v: nat)
    ensures v < Square(v + 1)
  {
    if v > 0 {
      SquareGrows(v - 1);
    }
  }

  /** The largest root not above `limit`. */
  function IsqrtUpTo(v: nat, limit: nat): nat
    requires v < Square(limit + 1)
  {
    if Square(limit) <= v then limit else IsqrtUpTo(v, limit - 1)
  }

  lemma {:induction false} IsqrtIs(v: nat, limit: nat)
    requires v < Square(limit + 1)
    ensures Square(IsqrtUpTo(v, limit)) <= v < Square(IsqrtUpTo(v, limit) + 1)
  {
    if Square(limit) > v {
      IsqrtIs(v, limit - 1);
    }
  }

  /** `_ceil_sqrt`. */
  function CeilSqrt(v: nat): (r: nat)
    ensures v > 0 ==> r > 0
  {
    var root := Isqrt(v);
    RootPositive(v);
    if Square(root) == v then root else root + 1
  }

  lemma {:induction false} RootPositive(v: nat)
    ensures v > 0 && Square(Isqrt(v)) == v ==> Isqrt(v) > 0
  {
    hide Isqrt;
  }

  /** It is the smallest root whose square reaches `v`. */
  lemma {:induction false} CeilSqrtIs(v: nat)
    ensures v <= Square(CeilSqrt(v)) && forall s: nat :: v <= Square(s) ==> CeilSqrt(v) <= s
    ensures var r := CeilSqrt(v); v <= r * r && (r > 0 ==> (r - 1) * (r - 1) < v)
  {
    var root := Isqrt(v);
    SquareGrows(v);
    IsqrtIs(v, v);
    SquaresGrow(root);
    hide Square, IsqrtUpTo;
    var r := CeilSqrt(v);
    assert v <= Square(r);
    SquareIs(r);
    if r > 0 {
      SquareIs(r - 1);
    }
  }

  lemma {:induction false} SquaresGrow(root: nat)
    ensures forall s: nat :: s < root ==> Square(s) < Square(root)
    ensures forall s: nat :: s <= root ==> Square(s) <= Square(root)
  {
    if root > 0 {
      SquaresGrow(root - 1);
    }
  }

  /** `-(-n // d)`: how many blocks of `d` cover `n`. */
  function Ceiling(n: nat, d: nat): nat
    requires d > 0
  {
    if n == 0 then 0 else if n <= d then 1 else Ceiling(n - d, d) + 1
  }

  lemma {:induction false} CeilingIs(n: nat, d: nat)
    requires d > 0
    ensures Ceiling(n, d) == Quotient(n + d - 1, d)
  {
    if n == 0 {
      SmallQuotient(d - 1, d);
    } else if n <= d {
      DivModUnique(n + d - 1, d, 1, n - 1);
    } else {
      CeilingIs(n - d, d);
      DivMod(n - 1, d);
      hide Quotient, Remainder;
      DivModUnique(n + d - 1, d, Quotient(n - 1, d) + 1, Remainder(n - 1, d));
    }
  }

  datatype Params = Params(domainBits: nat, partyCount: nat, threshold: nat) {
    predicate Valid() {
      && MIN_DOMAIN_BITS <= domainBits <= MAX_DOMAIN_BITS
      && MIN_PARTIES <= partyCount <= MAX_PARTIES
      && 1 <= threshold <= partyCount - 1
    }

    function DomainSize(): nat {
      Pow2(domainBits)
    }

    /** `2^(p - 1)`. */
    function SeedsPerRow(): nat
      requires Valid()
    {
      Pow2(partyCount - 1)
    }

    function Mu(): (r: nat)
      requires Valid()
      ensures r > 0
    {
      CeilSqrt(Pow2(domainBits + partyCount - 1))
    }

    /** `ceil(2^n / mu)`. */
    function Nu(): nat
      requires Valid()
    {
      Ceiling(DomainSize(), Mu())
    }

    /** `divmod(x, mu)`. */
    function Cell(x: int): (r: Result<(nat, nat)>)
      requires Valid()
      ensures r.Ok? <==> 0 <= x < DomainSize()
    {
      if 0 <= x < DomainSize() then Ok((Quotient(x, Mu()), Remainder(x, Mu()))) else Err(OutOfRange)
    }
  }

  /** `MpDpfParams.create`; the default threshold is the honest-majority one. */
  method Create(domainBits: int, partyCount: int, threshold: Option<int>) returns (r: Result<Params>)
    ensures r.Ok? <==> 1 <= domainBits <= 30 && 3 <= partyCount <= 10
                       && (threshold.Some? ==> 1 <= threshold.value <= partyCount - 1)
    ensures r.Ok? ==> r.value.Valid() && r.value.domainBits == domainBits && r.value.partyCount == partyCount
    ensures r.Ok? && threshold.Some? ==> r.value.threshold == threshold.value
    ensures r.Ok? && threshold.None? ==> 2 * r.value.threshold < partyCount <= 2 * r.value.threshold + 2
  {
    var bound := if threshold.Some? then threshold.value else (partyCount - 1) / 2;
    if !(MIN_DOMAIN_BITS <= domainBits <= MAX_DOMAIN_BITS) || !(MIN_PARTIES <= partyCount <= MAX_PARTIES) || !(1 <= bound <= partyCount - 1) {
      return Err(BadValue);
    }
    r := Ok(Params(domainBits, partyCount, bound));
  }

  /** Every point has a cell of the grid, no two points share one, and no row is useless. */
  lemma {:induction false} GridCovers(ps: Params, x: nat)
    requires ps.Valid() && x < ps.DomainSize()
    ensures var (gamma, delta) := ps.Cell(x).value;
      gamma < ps.Nu() && delta < ps.Mu() && x == Times(gamma, ps.Mu()) + delta
    ensures ps.Nu() > 0 && Times(ps.Nu() - 1, ps.Mu()) < ps.DomainSize() <= Times(ps.Nu(), ps.Mu())
  {
    var size, mu := ps.DomainSize(), ps.Mu();
    DivMod(x, mu);
    DivMod(size + mu - 1, mu);
    CeilingIs(size, mu);
    hide *;
    var nu := Quotient(size + mu - 1, mu);
    assert ps.DomainSize() == size;
    RowsCover(size, mu, nu, Remainder(size + mu - 1, mu), x, Quotient(x, mu), Remainder(x, mu));
    GridIs(ps, x);
  }

  lemma {:induction false} GridIs(ps: Params, x: nat)
    requires ps.Valid() && x < ps.DomainSize()
    ensures ps.Nu() == Ceiling(ps.DomainSize(), ps.Mu())
    ensures ps.Cell(x) == Ok((Quotient(x, ps.Mu()), Remainder(x, ps.Mu())))
  {
    hide Ceiling, CeilSqrt, Quotient, Remainder;
  }

  lemma {:induction false} RowsCover(size: nat, mu: nat, nu: nat, left: nat, x: nat, gamma: nat, delta: nat)
    requires mu > 0 && left < mu && size + mu - 1 == nu * mu + left && x < size && x == gamma * mu + delta && delta < mu
    ensures gamma < nu && nu > 0 && x == Times(gamma, mu) + delta
    ensures Times(nu - 1, mu) < size <= Times(nu, mu)
  {
    assert nu * mu >= size;
    if gamma >= nu {
      ProductOrder(nu, gamma, mu);
    }
    assert (nu - 1) * mu == nu * mu - mu;
  }

  /** A row is the least whose square reaches the domain times the seeds of a row. */
  lemma {:induction false} RowWidth(ps: Params)
    requires ps.Valid()
    ensures var mu, target := ps.Mu(), Pow2(ps.domainBits + ps.partyCount - 1);
      mu >= 1 && (mu - 1) * (mu - 1) < target <= mu * mu
  {
    CeilSqrtIs(Pow2(ps.domainBits + ps.partyCount - 1));
    hide CeilSqrt, Pow2;
  }

  lemma {:induction false} CellInjective(ps: Params, x: nat, y: nat)
    requires ps.Valid() && x < ps.DomainSize() && y < ps.DomainSize()
    ensures ps.Cell(x) == ps.Cell(y) <==> x == y
  {
    DivMod(x, ps.Mu());
    DivMod(y, ps.Mu());
    hide Quotient, Remainder;
  }

  /** `domain_bits_for_universe`: the fewest bits that rank every point, within the supported range. */
  method DomainBitsForUniverse(size: int) returns (r: Result<nat>)
    ensures r.Ok? ==> 1 <= size <= Pow2(r.value) && 1 <= r.value <= 30
    ensures r.Ok? ==> r.value == 1 || Pow2(r.value - 1) < size
    ensures r.Err? <==> size < 1 || size > Pow2(30)
  {
    if size < 1 {
      return Err(BadValue);
    }
    var bits := BitLength(if size - 1 > 1 then size - 1 else 1);
    if bits > MAX_DOMAIN_BITS {
      Pow2Monotone(MAX_DOMAIN_BITS, bits - 1);
      return Err(OutOfRange);
    }
    Pow2Monotone(bits, MAX_DOMAIN_BITS);
    assert Pow2(0) == 1 && Pow2(1) == 2;
    r := Ok(bits);
  }
}
