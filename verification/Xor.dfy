// 64-bit words under bitwise exclusive or, and double sums of them.
module Xor {

  type Word = bv64

  function Plus(a: Word, b: Word): Word {
    a ^ b
  }

  /** Every word is its own inverse, and zero is neutral. */
  lemma {:induction false} Cancel(a: Word, b: Word)
    ensures Plus(a, a) == 0 && Plus(a, 0) == a && Plus(0, a) == a && Plus(Plus(a, b), b) == a && Plus(a, b) == Plus(b, a)
  {
  }

  lemma {:induction false} Associate(a: Word, b: Word, c: Word)
    ensures Plus(Plus(a, b), c) == Plus(a, Plus(b, c))
  {
    assert Plus(a, b) == a ^ b && Plus(b, c) == b ^ c;
    assert Plus(a ^ b, c) == Plus(a, b ^ c);
  }

  lemma {:induction false} Commute(a: Word, b: Word)
    ensures Plus(a, b) == Plus(b, a)
  {
  }

  lemma {:induction false} Swap4(a: Word, b: Word, c: Word, d: Word)
    ensures Plus(Plus(a, b), Plus(c, d)) == Plus(Plus(a, c), Plus(b, d))
  {
    hide Plus;
    Associate(a, b, Plus(c, d));
    Associate(b, c, d);
    Commute(b, c);
    Associate(c, b, d);
    Associate(a, c, Plus(b, d));
  }

  /** `t(i, 0) ^ ... ^ t(i, m - 1)`. */
  ghost function RowSum(t: (nat, nat) -> Word, i: nat, m: nat): Word {
    if m == 0 then 0 else Plus(RowSum(t, i, m - 1), t(i, m - 1))
  }

  /** `t(0, j) ^ ... ^ t(n - 1, j)`. */
  ghost function ColumnSum(t: (nat, nat) -> Word, j: nat, n: nat): Word {
    if n == 0 then 0 else Plus(ColumnSum(t, j, n - 1), t(n - 1, j))
  }

  ghost function ByRows(t: (nat, nat) -> Word, n: nat, m: nat): Word {
    if n == 0 then 0 else Plus(ByRows(t, n - 1, m), RowSum(t, n - 1, m))
  }

  ghost function ByColumns(t: (nat, nat) -> Word, n: nat, m: nat): Word {
    if m == 0 then 0 else Plus(ByColumns(t, n, m - 1), ColumnSum(t, m - 1, n))
  }

  lemma {:induction false} OneMoreRow(t: (nat, nat) -> Word, n: nat, m: nat)
    ensures ByColumns(t, n + 1, m) == Plus(ByColumns(t, n, m), RowSum(t, n, m))
  {
    hide Plus;
    if m == 0 {
      Cancel(0, 0);
    } else {
      OneMoreRow(t, n, m - 1);
      Swap4(ByColumns(t, n, m - 1), RowSum(t, n, m - 1), ColumnSum(t, m - 1, n), t(n, m - 1));
    }
  }

  lemma {:induction false} NoRows(t: (nat, nat) -> Word, m: nat)
    ensures ByColumns(t, 0, m) == 0
  {
    hide Plus;
    if m > 0 {
      NoRows(t, m - 1);
      Cancel(0, 0);
    }
  }

  /** The order of a double sum does not matter. */
  lemma {:induction false} Exchange(t: (nat, nat) -> Word, n: nat, m: nat)
    ensures ByRows(t, n, m) == ByColumns(t, n, m)
  {
    hide Plus;
    if n == 0 {
      NoRows(t, m);
    } else {
      Exchange(t, n - 1, m);
      OneMoreRow(t, n - 1, m);
    }
  }

  // --- Vectors ---------------------------------------------------------------------

  function ZeroWords(n: nat): (r: seq<Word>)
    ensures |r| == n && forall k :: 0 <= k < n ==> r[k] == 0
  {
    seq(n, _ => 0)
  }

  /** Element-wise `a ^= b`. */
  function XorWords(a: seq<Word>, b: seq<Word>): (r: seq<Word>)
    requires |a| == |b|
    ensures |r| == |a| && forall k :: 0 <= k < |r| ==> r[k] == Plus(a[k], b[k])
  {
    seq(|a|, k requires 0 <= k < |a| => Plus(a[k], b[k]))
  }
}
