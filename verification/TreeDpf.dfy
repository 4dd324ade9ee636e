// The two-party tree point function (Boyle, Gilboa, Ishai, CCS 2016, figure 1):
// the path invariant, the shares' sum, and the pruned level-order sweep.
module TreeDpf {
  import opened Wrappers
  import opened Bits

  type Seed = bv128

  const MODULUS := 0x1_0000_0000_0000_0000

  /** A seed's expansion: two child seeds and two control bits. */
  datatype Node = Node(left: Seed, leftBit: bool, right: Seed, rightBit: bool)

  /** The seed-expansion function and the leaf conversion; nothing is assumed of either. */
  datatype Generator = Generator(expand: Seed -> Node, convert: Seed -> nat)

  datatype State = State(seed: Seed, bit: bool)

  /** A level's public correction word. */
  datatype Correction = Correction(seed: Seed, left: bool, right: bool)

  datatype Key = Key(party: nat, domainBits: nat, seed: Seed, corrections: seq<Correction>, output: nat) {
    predicate Valid() {
      party < 2 && |corrections| == domainBits
    }

    function Root(): State {
      State(seed, party == 1)
    }
  }

  function XorSeed(a: Seed, b: Seed): Seed {
    a ^ b
  }

  /** Bits are added modulo two. */
  function XorBit(a: bool, b: bool): bool {
    a != b
  }

  /** The child a party moves to, corrected when its control bit is set. */
  function Child(g: Generator, cw: Correction, st: State, right: bool): State {
    var node := g.expand(st.seed);
    var seed, bit := if right then node.right else node.left, if right then node.rightBit else node.leftBit;
    if st.bit then State(XorSeed(seed, cw.seed), XorBit(bit, if right then cw.right else cw.left)) else State(seed, bit)
  }

  /** The state at node `index` of a level: follow the index's bits from the root. */
  function StateAt(g: Generator, cws: seq<Correction>, root: State, index: nat, level: nat): State
    requires level <= |cws|
  {
    if level == 0 then root
    else Child(g, cws[level - 1], StateAt(g, cws, root, index / 2, level - 1), index % 2 == 1)
  }

  /** The first `level` corrections are all that matter. */
  lemma {:induction false} StatePrefix(g: Generator, cws: seq<Correction>, cw: Correction, root: State, index: nat, level: nat)
    requires level <= |cws|
    ensures StateAt(g, cws + [cw], root, index, level) == StateAt(g, cws, root, index, level)
  {
    if level > 0 {
      StatePrefix(g, cws, cw, root, index / 2, level - 1);
    }
  }

  /** The correction word of a level, from both parties' states on alpha's path. */
  function CorrectionFor(g: Generator, a: State, b: State, right: bool): Correction {
    var x, y := g.expand(a.seed), g.expand(b.seed);
    Correction(XorSeed(if right then x.left else x.right, if right then y.left else y.right),
               XorBit(XorBit(XorBit(x.leftBit, y.leftBit), right), true),
               XorBit(XorBit(x.rightBit, y.rightBit), right))
  }

  /** Every level is corrected for the path to alpha. */
  ghost predicate CorrectedFor(g: Generator, cws: seq<Correction>, a: State, b: State, alpha: nat, n: nat) {
    |cws| <= n && forall level :: 0 <= level < |cws| ==> CorrectedAt(g, cws, a, b, alpha, n, level)
  }

  /** The correction of a level is the one for the two parties' states on the path. */
  ghost predicate CorrectedAt(g: Generator, cws: seq<Correction>, a: State, b: State, alpha: nat, n: nat, level: nat) {
    && level < |cws| <= n
    && cws[level] == CorrectionFor(g, StateAt(g, cws, a, Ancestor(alpha, n, level), level),
                                   StateAt(g, cws, b, Ancestor(alpha, n, level), level), PathBit(alpha, n, level))
  }

  /** The node of a level above a leaf. */
  function Ancestor(x: nat, n: nat, level: nat): nat
    requires level <= n
  {
    Quotient(x, Pow2(n - level))
  }

  /** `(x >> (n - 1 - level)) & 1`. */
  function PathBit(x: nat, n: nat, level: nat): bool
    requires level < n
  {
    Remainder(Quotient(x, Pow2(n - 1 - level)), 2) == 1
  }

  lemma {:induction false} AncestorStep(x: nat, n: nat, level: nat)
    requires level < n
    ensures Ancestor(x, n, level + 1) / 2 == Ancestor(x, n, level)
    ensures PathBit(x, n, level) <==> Ancestor(x, n, level + 1) % 2 == 1
  {
    DivDiv(x, Pow2(n - 1 - level), 2);
    Halves(Quotient(x, Pow2(n - 1 - level)));
    assert Pow2(n - 1 - level) * 2 == Pow2(n - level);
  }

  lemma {:induction false} AncestorEnds(x: nat, n: nat)
    requires x < Pow2(n)
    ensures Ancestor(x, n, 0) == 0 && Ancestor(x, n, n) == x
  {
    SmallQuotient(x, Pow2(n));
    DivModUnique(x, 1, x, 0);
  }

  // --- The path invariant ---------------------------------------------------------

  lemma {:induction false} SeedXorFacts(a: Seed, b: Seed)
    ensures XorSeed(a, XorSeed(a, b)) == b && XorSeed(b, XorSeed(a, b)) == a
  {
  }

  /** The two parties on the path (bits differ) and off it (states equal). */
  ghost predicate Related(a: State, b: State, onPath: bool) {
    if onPath then a.bit != b.bit else a == b
  }

  /** One level keeps the relation: the correction word repairs exactly the child off alpha's path. */
  lemma {:induction false} ChildrenRelated(g: Generator, a: State, b: State, onPath: bool, right: bool, step: bool, cw: Correction)
    requires Related(a, b, onPath)
    requires onPath ==> cw == CorrectionFor(g, a, b, right)
    ensures Related(Child(g, cw, a, step), Child(g, cw, b, step), onPath && step == right)
  {
    var x, y := g.expand(a.seed), g.expand(b.seed);
    SeedXorFacts(x.left, y.left);
    SeedXorFacts(x.right, y.right);
    hide XorSeed;
  }

  /** At every node of every level: on alpha's path the control bits differ, off it the states agree. */
  lemma {:induction false} PathInvariant(g: Generator, cws: seq<Correction>, a: State, b: State, alpha: nat, n: nat, index: nat, level: nat)
    requires level <= |cws| <= n && CorrectedFor(g, cws, a, b, alpha, n) && a.bit != b.bit
    requires alpha < Pow2(n) && index < Pow2(level)
    ensures Related(StateAt(g, cws, a, index, level), StateAt(g, cws, b, index, level), index == Ancestor(alpha, n, level))
  {
    if level == 0 {
      AncestorEnds(alpha, n);
    } else {
      assert CorrectedAt(g, cws, a, b, alpha, n, level - 1);
      hide Child, Related, Ancestor, PathBit, CorrectionFor, CorrectedFor;
      PathInvariant(g, cws, a, b, alpha, n, index / 2, level - 1);
      AncestorStep(alpha, n, level - 1);
      var parent := index / 2;
      ChildrenRelated(g, StateAt(g, cws, a, parent, level - 1), StateAt(g, cws, b, parent, level - 1),
                      parent == Ancestor(alpha, n, level - 1), PathBit(alpha, n, level - 1), index % 2 == 1, cws[level - 1]);
      SameIndex(index, Ancestor(alpha, n, level));
    }
  }

  lemma {:induction false} SameIndex(i: nat, j: nat)
    ensures i == j <==> i / 2 == j / 2 && i % 2 == j % 2
  {
  }

  // --- Evaluation --------------------------------------------------------------------

  /** A party's output at a leaf state. */
  function Output(g: Generator, key: Key, st: State): nat {
    var value := (g.convert(st.seed) + if st.bit then key.output else 0) % MODULUS;
    if key.party == 0 then value else (-value) % MODULUS
  }

  /** A party's share at a point. */
  function ShareAt(g: Generator, key: Key, point: nat): nat
    requires key.Valid()
  {
    Output(g, key, StateAt(g, key.corrections, key.Root(), point, key.domainBits))
  }

  /** `evaluate`. */
  method Evaluate(g: Generator, key: Key, point: int) returns (r: Result<nat>)
    requires key.Valid()
    ensures r == if 0 <= point < Pow2(key.domainBits) then Ok(ShareAt(g, key, point)) else Err(OutOfRange)
  {
    var n := key.domainBits;
    if !(0 <= point < Pow2(n)) {
      return Err(OutOfRange);
    }
    var st := key.Root();
    AncestorEnds(point, n);
    for level := 0 to n
      invariant st == StateAt(g, key.corrections, key.Root(), Ancestor(point, n, level), level)
    {
      AncestorStep(point, n, level);
      hide Child, Ancestor, PathBit;
      st := Child(g, key.corrections[level], st, PathBit(point, n, level));
    }
    r := Ok(Output(g, key, st));
  }

  function Combine(share0: int, share1: int): int {
    (share0 + share1) % MODULUS
  }

  // --- Key generation -------------------------------------------------------------------

  /** The output correction solved from the two states at alpha's leaf. */
  function OutputCorrection(g: Generator, a: State, b: State, beta: nat): nat {
    var sign := if b.bit then -1 else 1;
    (sign * (beta - g.convert(a.seed) + g.convert(b.seed))) % MODULUS
  }

  /** What key generation promises. */
  ghost predicate KeysFor(g: Generator, n: nat, alpha: nat, beta: nat, k0: Key, k1: Key) {
    && alpha < Pow2(n) && k0.Valid() && k1.Valid()
    && k0.party == 0 && k1.party == 1 && k0.domainBits == k1.domainBits == n
    && k0.corrections == k1.corrections && k0.output == k1.output
    && CorrectedFor(g, k0.corrections, k0.Root(), k1.Root(), alpha, n)
    && k0.output == OutputCorrection(g, StateAt(g, k0.corrections, k0.Root(), alpha, n), StateAt(g, k0.corrections, k1.Root(), alpha, n), beta)
  }

  lemma {:induction false} CorrectNext(g: Generator, cws: seq<Correction>, a: State, b: State, alpha: nat, n: nat, cw: Correction)
    requires CorrectedFor(g, cws, a, b, alpha, n) && |cws| < n
    requires cw == CorrectionFor(g, StateAt(g, cws, a, Ancestor(alpha, n, |cws|), |cws|),
                                 StateAt(g, cws, b, Ancestor(alpha, n, |cws|), |cws|), PathBit(alpha, n, |cws|))
    ensures CorrectedFor(g, cws + [cw], a, b, alpha, n)
  {
    hide CorrectionFor, Ancestor, PathBit;
    forall level | 0 <= level <= |cws|
      ensures CorrectedAt(g, cws + [cw], a, b, alpha, n, level)
    {
      StatePrefix(g, cws, cw, a, Ancestor(alpha, n, level), level);
      StatePrefix(g, cws, cw, b, Ancestor(alpha, n, level), level);
      if level < |cws| {
        assert CorrectedAt(g, cws, a, b, alpha, n, level);
      }
      hide StateAt, CorrectedFor;
    }
    hide StateAt, CorrectedAt;
  }

  lemma {:induction false} NextState(g: Generator, cws: seq<Correction>, root: State, alpha: nat, n: nat, cw: Correction)
    requires |cws| < n
    ensures StateAt(g, cws + [cw], root, Ancestor(alpha, n, |cws| + 1), |cws| + 1)
         == Child(g, cw, StateAt(g, cws, root, Ancestor(alpha, n, |cws|), |cws|), PathBit(alpha, n, |cws|))
  {
    AncestorStep(alpha, n, |cws|);
    StatePrefix(g, cws, cw, root, Ancestor(alpha, n, |cws|), |cws|);
    hide Ancestor, PathBit, Child;
  }

  /** The loop state of key generation: both parties' states on alpha's path. */
  ghost predicate Descending(g: Generator, cws: seq<Correction>, a: State, b: State, alpha: nat, n: nat, s0: State, s1: State) {
    && |cws| <= n && CorrectedFor(g, cws, a, b, alpha, n)
    && s0 == StateAt(g, cws, a, Ancestor(alpha, n, |cws|), |cws|)
    && s1 == StateAt(g, cws, b, Ancestor(alpha, n, |cws|), |cws|)
  }

  /** One level of key generation. */
  method CorrectLevel(g: Generator, ghost cws: seq<Correction>, ghost a: State, ghost b: State, alpha: nat, n: nat, level: nat, s0: State, s1: State)
    returns (cw: Correction, s0': State, s1': State)
    requires Descending(g, cws, a, b, alpha, n, s0, s1) && level == |cws| < n
    ensures Descending(g, cws + [cw], a, b, alpha, n, s0', s1')
  {
    var right := PathBit(alpha, n, level);
    var x, y := g.expand(s0.seed), g.expand(s1.seed);
    var lose0, lose1 := if right then x.left else x.right, if right then y.left else y.right;
    cw := Correction(XorSeed(lose0, lose1), XorBit(XorBit(XorBit(x.leftBit, y.leftBit), right), true),
                     XorBit(XorBit(x.rightBit, y.rightBit), right));
    assert cw == CorrectionFor(g, s0, s1, right);
    hide *;
    s0', s1' := Child(g, cw, s0, right), Child(g, cw, s1, right);
    LevelCorrected(g, cws, a, b, alpha, n, s0, s1, cw);
  }

  lemma {:induction false} LevelCorrected(g: Generator, cws: seq<Correction>, a: State, b: State, alpha: nat, n: nat, s0: State, s1: State, cw: Correction)
    requires Descending(g, cws, a, b, alpha, n, s0, s1) && |cws| < n
    requires cw == CorrectionFor(g, s0, s1, PathBit(alpha, n, |cws|))
    ensures var right := PathBit(alpha, n, |cws|);
      Descending(g, cws + [cw], a, b, alpha, n, Child(g, cw, s0, right), Child(g, cw, s1, right))
  {
    hide CorrectionFor, PathBit, Child, StateAt, Ancestor, CorrectedFor;
    CorrectNext(g, cws, a, b, alpha, n, cw);
    NextState(g, cws, a, alpha, n, cw);
    NextState(g, cws, b, alpha, n, cw);
  }

  /** `generate`, for any two root seeds. */
  method Generate(g: Generator, n: nat, alpha: int, beta: int, seed0: Seed, seed1: Seed) returns (r: Result<(Key, Key)>)
    ensures r.Ok? <==> 1 <= n <= 30 && 0 <= alpha < Pow2(n) && 0 <= beta < 0x1_0000_0000_0000_0000
    ensures r.Ok? ==> KeysFor(g, n, alpha, beta, r.value.0, r.value.1)
    ensures r.Ok? ==> r.value.0.seed == seed0 && r.value.1.seed == seed1
  {
    if !(1 <= n <= 30) || !(0 <= alpha < Pow2(n)) || !(0 <= beta < MODULUS) {
      return Err(OutOfRange);
    }
    var a, b := State(seed0, false), State(seed1, true);
    var s0, s1 := a, b;
    var cws: seq<Correction> := [];
    AncestorEnds(alpha, n);
    hide Ancestor, CorrectionFor, PathBit, Child, Output;
    assert Descending(g, cws, a, b, alpha, n, s0, s1);
    hide Descending;
    for level := 0 to n
      invariant |cws| == level && Descending(g, cws, a, b, alpha, n, s0, s1)
    {
      var cw;
      cw, s0, s1 := CorrectLevel(g, cws, a, b, alpha, n, level, s0, s1);
      cws := cws + [cw];
    }
    var output := OutputCorrection(g, s0, s1, beta);
    r := Ok((Key(0, n, seed0, cws, output), Key(1, n, seed1, cws, output)));
    KeysAre(g, cws, alpha, n, beta, seed0, seed1, s0, s1);
  }

  lemma {:induction false} KeysAre(g: Generator, cws: seq<Correction>, alpha: nat, n: nat, beta: nat, seed0: Seed, seed1: Seed, s0: State, s1: State)
    requires Descending(g, cws, State(seed0, false), State(seed1, true), alpha, n, s0, s1) && |cws| == n && alpha < Pow2(n)
    ensures var output := OutputCorrection(g, s0, s1, beta);
      KeysFor(g, n, alpha, beta, Key(0, n, seed0, cws, output), Key(1, n, seed1, cws, output))
  {
    AncestorEnds(alpha, n);
    hide Ancestor, CorrectedFor, StateAt, OutputCorrection;
  }

  // --- The keys are determined by the two drawn seeds ----------------------------------------

  /** Corrections for the same roots and path agree level by level. */
  lemma {:induction false} CorrectionsAgree(g: Generator, x: seq<Correction>, y: seq<Correction>, a: State, b: State, alpha: nat, n: nat, m: nat)
    requires CorrectedFor(g, x, a, b, alpha, n) && CorrectedFor(g, y, a, b, alpha, n) && m <= |x| && m <= |y|
    ensures x[..m] == y[..m]
  {
    if m > 0 {
      assert CorrectedAt(g, x, a, b, alpha, n, m - 1) && CorrectedAt(g, y, a, b, alpha, n, m - 1);
      hide CorrectionFor, CorrectedFor;
      CorrectionsAgree(g, x, y, a, b, alpha, n, m - 1);
      SamePrefix(g, x, y, a, Ancestor(alpha, n, m - 1), m - 1);
      SamePrefix(g, x, y, b, Ancestor(alpha, n, m - 1), m - 1);
      assert x[..m] == x[..m - 1] + [x[m - 1]] && y[..m] == y[..m - 1] + [y[m - 1]];
    }
  }

  lemma {:induction false} SamePrefix(g: Generator, x: seq<Correction>, y: seq<Correction>, root: State, index: nat, level: nat)
    requires level <= |x| && level <= |y| && x[..level] == y[..level]
    ensures StateAt(g, x, root, index, level) == StateAt(g, y, root, index, level)
  {
    if level > 0 {
      assert x[level - 1] == x[..level][level - 1] && y[level - 1] == y[..level][level - 1];
      assert x[..level - 1] == x[..level][..level - 1] && y[..level - 1] == y[..level][..level - 1];
      SamePrefix(g, x, y, root, index / 2, level - 1);
    }
  }

  /** The generator, the point, the value and the two drawn seeds determine both keys, and so every share. */
  lemma {:induction false} KeysUnique(g: Generator, n: nat, alpha: nat, beta: nat, k0: Key, k1: Key, l0: Key, l1: Key)
    requires KeysFor(g, n, alpha, beta, k0, k1) && KeysFor(g, n, alpha, beta, l0, l1)
    requires k0.seed == l0.seed && k1.seed == l1.seed
    ensures k0 == l0 && k1 == l1
  {
    CorrectionsAgree(g, k0.corrections, l0.corrections, k0.Root(), k1.Root(), alpha, n, n);
    assert k0.corrections[..n] == k0.corrections && l0.corrections[..n] == l0.corrections;
    hide CorrectedFor, StateAt, OutputCorrection;
  }

  /** The walk to a node without any correction: the party's own seed, expanded. */
  function Unaided(g: Generator, root: State, index: nat, level: nat): State {
    if level == 0 then root
    else
      var node := g.expand(Unaided(g, root, index / 2, level - 1).seed);
      if index % 2 == 1 then State(node.right, node.rightBit) else State(node.left, node.leftBit)
  }

  /** No control bit is set on the unaided walk. */
  predicate Clear(g: Generator, root: State, index: nat, level: nat) {
    !Unaided(g, root, index, level).bit && (level > 0 ==> Clear(g, root, index / 2, level - 1))
  }

  lemma {:induction false} ClearWalk(g: Generator, cws: seq<Correction>, root: State, index: nat, level: nat)
    requires level <= |cws| && Clear(g, root, index, level)
    ensures StateAt(g, cws, root, index, level) == Unaided(g, root, index, level)
  {
    if level > 0 {
      ClearWalk(g, cws, root, index / 2, level - 1);
    }
  }

  /** While its own walk sets no control bit, a party's share depends on its own seed alone. */
  lemma {:induction false} OwnSeedAlone(g: Generator, key: Key, point: nat)
    requires key.Valid() && key.party == 0 && Clear(g, key.Root(), point, key.domainBits)
    ensures ShareAt(g, key, point) == g.convert(Unaided(g, State(key.seed, false), point, key.domainBits).seed) % MODULUS
  {
    ClearWalk(g, key.corrections, key.Root(), point, key.domainBits);
    hide StateAt, Unaided, Clear;
  }

  /** In general it does not: here party 0 draws the same seed twice, and its share follows the other party's. */
  lemma {:induction false} OtherSeedMatters(g: Generator, k0: Key, k1: Key, l0: Key, l1: Key)
    requires CopiesLeft(g) && forall s: Seed :: g.convert(s) == if s == 3 then 1 else 0
    requires KeysFor(g, 1, 0, 0, k0, k1) && k0.seed == 1 && k1.seed == 2
    requires KeysFor(g, 1, 0, 0, l0, l1) && l0.seed == 1 && l1.seed == 3
    ensures ShareAt(g, k0, 1) == 0 && ShareAt(g, l0, 1) == 1
  {
    KeysValid(g, k0, k1);
    KeysValid(g, l0, l1);
    LeafShare(g, k0, k1);
    LeafShare(g, l0, l1);
    hide KeysFor, ShareAt, CopiesLeft;
  }

  lemma {:induction false} KeysValid(g: Generator, k0: Key, k1: Key)
    requires KeysFor(g, 1, 0, 0, k0, k1)
    ensures k0.Valid()
  {
  }

  /** A generator whose left child is the seed itself and whose right child is zero, both bits set. */
  ghost predicate CopiesLeft(g: Generator) {
    forall s: Seed :: g.expand(s) == Node(s, true, 0, true)
  }

  lemma {:induction false} XorZero(s: Seed)
    ensures XorSeed(s, 0) == s && XorSeed(0, 0) == 0
  {
  }

  lemma {:induction false} LeafShare(g: Generator, k0: Key, k1: Key)
    requires CopiesLeft(g) && KeysFor(g, 1, 0, 0, k0, k1) && g.convert(0) == 0
    ensures k0.Valid() && ShareAt(g, k0, 1) == (g.convert(k1.seed) - g.convert(k0.seed)) % MODULUS
  {
    var cws := k0.corrections;
    AncestorEnds(0, 1);
    assert CorrectedAt(g, cws, k0.Root(), k1.Root(), 0, 1, 0);
    assert !PathBit(0, 1, 0) by {
      AncestorStep(0, 1, 0);
    }
    XorZero(k0.seed);
    XorZero(k1.seed);
    hide XorSeed, PathBit, Ancestor;
    assert cws[0] == Correction(0, true, false);
    assert StateAt(g, cws, k0.Root(), 0, 1) == Child(g, cws[0], k0.Root(), false) == State(k0.seed, true);
    assert StateAt(g, cws, k1.Root(), 0, 1) == Child(g, cws[0], k1.Root(), false) == State(k1.seed, false);
    assert StateAt(g, cws, k0.Root(), 1, 1) == Child(g, cws[0], k0.Root(), true) == State(0, true);
  }

  // --- Correctness ------------------------------------------------------------------------

  /** Adding a value and a negated one modulo `2^64`. */
  lemma {:induction false} ModularDifference(u: int, v: int)
    ensures ((u % MODULUS) + ((-(v % MODULUS)) % MODULUS)) % MODULUS == (u - v) % MODULUS
  {
    var m := MODULUS;
    ModShift(u - v, (u / m) - (v / m), (u % m) - (v % m));
    ModShift(-(v % m), (-(v % m)) / m, (-(v % m)) % m);
    ModShift((u % m) - (v % m), (-(v % m)) / m, (u % m) + ((-(v % m)) % m));
  }

  lemma {:induction false} ModShift(a: int, k: int, b: int)
    requires a == k * MODULUS + b
    ensures a % MODULUS == b % MODULUS
  {
  }

  lemma {:induction false} SolvedOutput(c0: int, c1: int, beta: int, second: bool)
    ensures var output := ((if second then -1 else 1) * (beta - c0 + c1)) % MODULUS;
      ((c0 + if second then 0 else output) - (c1 + if second then output else 0)) % MODULUS == beta % MODULUS
  {
    var raw := (if second then -1 else 1) * (beta - c0 + c1);
    var output := raw % MODULUS;
    if second {
      ModShift(c0 - c1 - output, raw / MODULUS, beta);
    } else {
      ModShift(c0 - c1 + output, -(raw / MODULUS), beta);
    }
  }

  /** A value added by one party and subtracted by the other. */
  lemma {:induction false} AddSubtract(u: nat, v: nat)
    ensures Combine(u % MODULUS, (-(v % MODULUS)) % MODULUS) == (u - v) % MODULUS
  {
    ModularDifference(u, v);
  }

  /** The leaf of alpha: whichever party has its bit set adds the correction. */
  lemma {:induction false} LeafSum(c0: nat, c1: nat, beta: nat, second: bool, output: nat)
    requires beta < MODULUS && output == ((if second then -1 else 1) * (beta - c0 + c1)) % MODULUS
    ensures Combine((c0 + if second then 0 else output) % MODULUS, (-((c1 + if second then output else 0) % MODULUS)) % MODULUS) == beta
  {
    SolvedOutput(c0, c1, beta, second);
    AddSubtract(c0 + if second then 0 else output, c1 + if second then output else 0);
    hide Combine;
  }

  /** The outputs of two related leaf states. */
  lemma {:induction false} OutputsSum(g: Generator, k0: Key, k1: Key, a: State, b: State, beta: nat, onPath: bool)
    requires k0.party == 0 && k1.party == 1 && k0.output == k1.output && Related(a, b, onPath) && beta < MODULUS
    requires onPath ==> k0.output == OutputCorrection(g, a, b, beta)
    ensures Combine(Output(g, k0, a), Output(g, k1, b)) == if onPath then beta else 0
  {
    hide Combine;
    if onPath {
      LeafSum(g.convert(a.seed), g.convert(b.seed), beta, b.bit, k0.output);
    } else {
      AddSubtract(g.convert(a.seed) + if a.bit then k0.output else 0, g.convert(a.seed) + if a.bit then k0.output else 0);
    }
  }

  /**
   * The two shares sum to beta at alpha and to zero everywhere else, for every
   * seed-expansion function, every pair of root seeds and every point.
   */
  lemma {:induction false} SharesSum(g: Generator, n: nat, alpha: nat, beta: nat, k0: Key, k1: Key, point: nat)
    requires KeysFor(g, n, alpha, beta, k0, k1) && point < Pow2(n) && beta < 0x1_0000_0000_0000_0000
    ensures Combine(ShareAt(g, k0, point), ShareAt(g, k1, point)) == if point == alpha then beta else 0
    ensures (ShareAt(g, k0, point) + ShareAt(g, k1, point)) % 0x1_0000_0000_0000_0000 == if point == alpha then beta else 0
  {
    PathInvariant(g, k0.corrections, k0.Root(), k1.Root(), alpha, n, point, n);
    AncestorEnds(alpha, n);
    assert Combine(ShareAt(g, k0, point), ShareAt(g, k1, point)) == (ShareAt(g, k0, point) + ShareAt(g, k1, point)) % 0x1_0000_0000_0000_0000;
    hide CorrectedFor, StateAt, Ancestor, Output, Combine, OutputCorrection, Related;
    OutputsSum(g, k0, k1, StateAt(g, k0.corrections, k0.Root(), point, n), StateAt(g, k0.corrections, k1.Root(), point, n), beta, point == alpha);
  }

  // --- The pruned sweep --------------------------------------------------------------------

  /** The nodes of a level that can still reach a rank below `universe`, and no others. */
  ghost predicate Reaches(count: nat, span: nat, universe: nat) {
    count > 0 && Times(count - 1, span) < universe <= Times(count, span)
  }

  ghost predicate LevelIs(g: Generator, key: Key, level: nat, states: seq<State>) {
    && key.Valid() && level <= key.domainBits
    && forall i :: 0 <= i < |states| ==> states[i] == StateAt(g, key.corrections, key.Root(), i, level)
  }

  /** The children of one node that are kept. */
  lemma {:induction false} KeepChildren(index: nat, count: nat, span: nat, universe: nat)
    requires Reaches(count, 2 * span, universe) && index < count && span > 0
    ensures Times(2 * index, span) == Times(index, 2 * span) < universe
    ensures Times(2 * index, span) + span < universe ==> Times(2 * index + 1, span) < universe
    ensures index < count - 1 ==> Times(2 * index, span) + span < universe
    ensures index == count - 1 && !(Times(2 * index, span) + span < universe) ==> Reaches(2 * index + 1, span, universe)
    ensures index == count - 1 && Times(2 * index, span) + span < universe ==> Reaches(2 * index + 2, span, universe)
  {
    Doubled(index, span);
    Doubled(count - 1, span);
    Doubled(count, span);
    TimesFacts(2 * index, span);
    TimesFacts(2 * index + 1, span);
    TimesMonotone(index, count - 1, 2 * span);
    if index < count - 1 {
      TimesMonotone(index + 1, count - 1, 2 * span);
      Doubled(index + 1, span);
    }
    hide Times;
  }

  lemma {:induction false} Doubled(a: nat, span: nat)
    ensures Times(2 * a, span) == Times(a, 2 * span)
  {
  }

  /** The sweep after `index` states: whole child pairs, except that the last state may keep one child only. */
  ghost predicate Swept(g: Generator, key: Key, level: nat, span: nat, universe: nat, count: nat, index: nat, next: seq<State>) {
    && LevelIs(g, key, level + 1, next) && index <= count
    && (index < count ==> |next| == 2 * index)
    && (index == count > 0 ==> Reaches(|next|, span, universe))
  }

  lemma {:induction false} LevelStarts(g: Generator, key: Key, level: nat, span: nat, universe: nat, count: nat)
    requires key.Valid() && level < key.domainBits && count > 0
    ensures Swept(g, key, level, span, universe, count, 0, [])
  {
    hide Reaches;
  }

  lemma {:induction false} LevelAppend(g: Generator, key: Key, level: nat, states: seq<State>, st: State)
    requires LevelIs(g, key, level, states) && st == StateAt(g, key.corrections, key.Root(), |states|, level)
    ensures LevelIs(g, key, level, states + [st])
  {
    hide StateAt;
  }

  /** One state's children, as far as the universe needs them. */
  method SweepState(g: Generator, key: Key, level: nat, universe: nat, span: nat, ghost count: nat, index: nat, state: State, before: seq<State>)
    returns (next: seq<State>)
    requires key.Valid() && level < key.domainBits && span > 0 && index < count && Reaches(count, 2 * span, universe)
    requires state == StateAt(g, key.corrections, key.Root(), index, level)
    requires Swept(g, key, level, span, universe, count, index, before)
    ensures Swept(g, key, level, span, universe, count, index + 1, next)
  {
    KeepChildren(index, count, span, universe);
    ChildrenAt(g, key, level, index);
    hide StateAt, Reaches, Child, Times, LevelIs;
    var left := Child(g, key.corrections[level], state, false);
    var right := Child(g, key.corrections[level], state, true);
    var base := Times(index, 2 * span);
    assert base < universe;
    LevelAppend(g, key, level + 1, before, left);
    next := before;
    if base < universe {
      next := next + [left];
    }
    if base + span < universe {
      LevelAppend(g, key, level + 1, next, right);
      next := next + [right];
    }
  }

  /** One level of the sweep, left to right, skipping subtrees beyond the universe. */
  method SweepLevel(g: Generator, key: Key, level: nat, universe: nat, states: seq<State>) returns (next: seq<State>)
    requires key.Valid() && level < key.domainBits && LevelIs(g, key, level, states)
    requires Reaches(|states|, Pow2(key.domainBits - level), universe)
    ensures LevelIs(g, key, level + 1, next) && Reaches(|next|, Pow2(key.domainBits - (level + 1)), universe)
  {
    var span := Pow2(key.domainBits - 1 - level);
    assert Pow2(key.domainBits - level) == 2 * span;
    next := [];
    LevelStarts(g, key, level, span, universe, |states|);
    hide Pow2, Child, Reaches, Swept, StateAt;
    for index := 0 to |states|
      invariant Swept(g, key, level, span, universe, |states|, index, next)
    {
      next := SweepState(g, key, level, universe, span, |states|, index, states[index], next);
    }
    LevelEnds(g, key, level, span, universe, |states|, next);
  }

  lemma {:induction false} LevelEnds(g: Generator, key: Key, level: nat, span: nat, universe: nat, count: nat, next: seq<State>)
    requires Swept(g, key, level, span, universe, count, count, next) && count > 0
    ensures LevelIs(g, key, level + 1, next) && Reaches(|next|, span, universe)
  {
  }

  lemma {:induction false} ChildrenAt(g: Generator, key: Key, level: nat, index: nat)
    requires key.Valid() && level < key.domainBits
    ensures var st := StateAt(g, key.corrections, key.Root(), index, level);
      && StateAt(g, key.corrections, key.Root(), 2 * index, level + 1) == Child(g, key.corrections[level], st, false)
      && StateAt(g, key.corrections, key.Root(), 2 * index + 1, level + 1) == Child(g, key.corrections[level], st, true)
  {
    assert (2 * index) / 2 == index && (2 * index + 1) / 2 == index && (2 * index) % 2 == 0 && (2 * index + 1) % 2 == 1;
  }

  lemma {:induction false} SweepStarts(key: Key, universe: nat)
    requires 0 < universe <= Pow2(key.domainBits)
    ensures Reaches(1, Pow2(key.domainBits), universe)
  {
    TimesFacts(0, Pow2(key.domainBits));
  }

  lemma {:induction false} SweepEnds(count: nat, universe: nat)
    requires Reaches(count, Pow2(0), universe)
    ensures count == universe
  {
  }

  /** `evaluate_full`: level by level, and the same shares as point by point. */
  method EvaluateFull(g: Generator, key: Key, universe: int) returns (r: Result<seq<nat>>)
    requires key.Valid()
    ensures r.Ok? <==> 0 < universe <= Pow2(key.domainBits)
    ensures r.Ok? ==> |r.value| == universe && forall x: nat :: x < universe ==> r.value[x] == ShareAt(g, key, x)
  {
    var n := key.domainBits;
    if !(0 < universe <= Pow2(n)) {
      return Err(OutOfRange);
    }
    var states := [key.Root()];
    SweepStarts(key, universe);
    hide Reaches, Child, Output;
    for level := 0 to n
      invariant LevelIs(g, key, level, states) && Reaches(|states|, Pow2(n - level), universe)
    {
      states := SweepLevel(g, key, level, universe, states);
    }
    SweepEnds(|states|, universe);
    var out: seq<nat> := [];
    for index := 0 to universe
      invariant |out| == index && forall x: nat :: x < index ==> out[x] == ShareAt(g, key, x)
    {
      out := out + [Output(g, key, states[index])];
    }
    r := Ok(out);
  }
}
