// The meaning of the few MP-SPDZ operations the rendered circuits are built from.
// A secret integer is an integer; every comparison yields the integer 0 or 1.
module Gates {

  predicate IsBit(b: int) {
    b == 0 || b == 1
  }

  /** `b.if_else(x, y)` is evaluated arithmetically. */
  function IfElse(b: int, x: int, y: int): (r: int)
    ensures b == 1 ==> r == x
    ensures b == 0 ==> r == y
  {
    b * (x - y) + y
  }

  function Equal(x: int, y: int): (b: int)
    ensures IsBit(b)
  {
    if x == y then 1 else 0
  }

  function Greater(x: int, y: int): (b: int)
    ensures IsBit(b)
  {
    if x > y then 1 else 0
  }

  function Less(x: int, y: int): (b: int)
    ensures IsBit(b)
  {
    if x < y then 1 else 0
  }

  /** `b * n`: a number let through by a bit. */
  function BitTimes(b: int, n: nat): (r: nat)
    requires IsBit(b)
    ensures r == if b == 1 then n else 0
  {
    assert b * n == if b == 1 then n else 0;
    b * n
  }

  function Not(b: int): int {
    1 - b
  }

  lemma {:induction false} BitProduct(a: int, b: int)
    requires IsBit(a) && IsBit(b)
    ensures IsBit(a * b)
    ensures a * b == 1 <==> a == 1 && b == 1
  {
  }
}
