// The two oracles against each other: edges in file order and edges in stored
// order give the same score column, and the same rows exactly when ties are listed alike.
module ScanAgreement {
  import opened Wrappers
  import opened Bags
  import opened PackedEdges
  import opened PageConfig
  import opened Sorting
  import opened OwnerEdges
  import opened Ranking
  import opened Ties
  import opened TwoHop
  import opened GraphAnswer
  import opened PagedEvaluation
  import opened ScanBuckets
  import opened ScanOracle

  // --- The score column depends only on the bag of candidates -----------------------------------

  function Scores(cs: seq<Candidate>): (r: seq<int>)
    ensures |r| == |cs| && forall i :: 0 <= i < |r| ==> r[i] == cs[i].score
  {
    seq(|cs|, i requires 0 <= i < |cs| => cs[i].score)
  }

  /** Without deduplication a rank removes one occurrence of the best score. */
  lemma {:induction false} PlainStep(cs: seq<Candidate>)
    requires cs != []
    ensures var b := FirstBest(cs);
      && multiset(Scores(Remaining(cs, b, false))) == multiset(Scores(cs)) - multiset{cs[b].score}
      && cs[b].score in multiset(Scores(cs)) && forall s :: s in multiset(Scores(cs)) ==> s <= cs[b].score
  {
    var b := FirstBest(cs);
    var all := Scores(cs);
    assert Scores(Remaining(cs, b, false)) == Without(all, b);
    WithoutBag(all, b);
    assert all[b] in all;
    hide Remaining, Without, Scores;
    assert multiset(Without(all, b)) == multiset(all) - multiset{all[b]};
    forall s | s in multiset(all)
      ensures s <= cs[b].score
    {
      var i :| 0 <= i < |all| && all[i] == s;
    }
  }

  /** Equal score bags have the same best score, and stay equal after a rank. */
  lemma {:induction false} PlainAlike(cs: seq<Candidate>, ds: seq<Candidate>)
    requires multiset(Scores(cs)) == multiset(Scores(ds)) && cs != []
    ensures ds != [] && cs[FirstBest(cs)].score == ds[FirstBest(ds)].score
    ensures multiset(Scores(Remaining(cs, FirstBest(cs), false))) == multiset(Scores(Remaining(ds, FirstBest(ds), false)))
  {
    assert |multiset(Scores(cs))| == |cs| && |multiset(Scores(ds))| == |ds|;
    PlainStep(cs);
    PlainStep(ds);
    hide *;
  }

  lemma {:induction false} NoScores(cs: seq<Candidate>, ds: seq<Candidate>)
    requires multiset(Scores(cs)) == multiset(Scores(ds))
    ensures cs == [] <==> ds == []
    ensures cs == [] ==> forall k: nat :: Greedy(cs, k, false) == [] && Greedy(ds, k, false) == []
    ensures Greedy(cs, 0, false) == [] && Greedy(ds, 0, false) == []
  {
    assert |multiset(Scores(cs))| == |cs| && |multiset(Scores(ds))| == |ds|;
  }

  lemma {:induction false} PlainScores(cs: seq<Candidate>, ds: seq<Candidate>, k: nat)
    requires multiset(Scores(cs)) == multiset(Scores(ds))
    ensures Scores(Greedy(cs, k, false)) == Scores(Greedy(ds, k, false))
    decreases k
  {
    NoScores(cs, ds);
    hide *;
    if k > 0 && cs != [] {
      var c, d, restC, restD := PlainHead(cs, ds, k);
      PlainScores(restC, restD, k - 1);
      ScoresCons(c, Greedy(restC, k - 1, false));
      ScoresCons(d, Greedy(restD, k - 1, false));
    }
  }

  /** One rank of both lists. */
  lemma {:induction false} PlainHead(cs: seq<Candidate>, ds: seq<Candidate>, k: nat)
    returns (c: Candidate, d: Candidate, restC: seq<Candidate>, restD: seq<Candidate>)
    requires multiset(Scores(cs)) == multiset(Scores(ds)) && cs != [] && k > 0
    ensures c.score == d.score && multiset(Scores(restC)) == multiset(Scores(restD))
    ensures Greedy(cs, k, false) == [c] + Greedy(restC, k - 1, false)
    ensures Greedy(ds, k, false) == [d] + Greedy(restD, k - 1, false)
  {
    hide *;
    PlainAlike(cs, ds);
    GreedyStep(cs, k, false);
    GreedyStep(ds, k, false);
    var b, e := FirstBest(cs), FirstBest(ds);
    c, d, restC, restD := cs[b], ds[e], Remaining(cs, b, false), Remaining(ds, e, false);
  }

  lemma {:induction false} ScoresCons(c: Candidate, rest: seq<Candidate>)
    ensures Scores([c] + rest) == [c.score] + Scores(rest)
  {
  }

  /** The best score of a terminal. */
  function BestOf(cs: seq<Candidate>, t: int): Option<int> {
    if cs == [] then None
    else
      var c, before := cs[|cs| - 1], BestOf(cs[..|cs| - 1], t);
      if c.terminal == t && (before.None? || c.score > before.value) then Some(c.score) else before
  }

  ghost predicate IsBest(cs: seq<Candidate>, t: int, s: int) {
    && (exists i :: 0 <= i < |cs| && cs[i].terminal == t && cs[i].score == s)
    && forall i :: 0 <= i < |cs| && cs[i].terminal == t ==> cs[i].score <= s
  }

  lemma {:induction false} BestOfIs(cs: seq<Candidate>, t: int)
    ensures BestOf(cs, t).None? <==> forall i :: 0 <= i < |cs| ==> cs[i].terminal != t
    ensures BestOf(cs, t).Some? ==> IsBest(cs, t, BestOf(cs, t).value)
  {
    if cs != [] {
      var n := |cs| - 1;
      BestOfIs(cs[..n], t);
      assert forall i :: 0 <= i < n ==> cs[..n][i] == cs[i];
      if BestOf(cs, t).Some? {
        var s := BestOf(cs, t).value;
        if BestOf(cs[..n], t) == Some(s) {
          var i :| 0 <= i < n && cs[..n][i].terminal == t && cs[..n][i].score == s;
          assert cs[i].terminal == t && cs[i].score == s;
        } else {
          assert cs[n].terminal == t && cs[n].score == s;
        }
      }
    }
  }

  /** Only the bag of candidates matters to a terminal's best score. */
  lemma {:induction false} BestOfBag(cs: seq<Candidate>, ds: seq<Candidate>, t: int)
    requires multiset(cs) == multiset(ds)
    ensures BestOf(cs, t) == BestOf(ds, t)
  {
    BestOfIs(cs, t);
    BestOfIs(ds, t);
    SameMembers(cs, ds);
    hide BestOf;
    if BestOf(cs, t).Some? {
      BestOfMember(cs, ds, t, BestOf(cs, t).value);
    }
    if BestOf(ds, t).Some? {
      BestOfMember(ds, cs, t, BestOf(ds, t).value);
    }
  }

  lemma {:induction false} SameMembers(cs: seq<Candidate>, ds: seq<Candidate>)
    requires multiset(cs) == multiset(ds)
    ensures forall c :: c in cs <==> c in ds
  {
    forall c
      ensures c in cs <==> c in ds
    {
      assert c in cs <==> c in multiset(cs);
      assert c in ds <==> c in multiset(ds);
    }
  }

  /** A best score in one list is a best score in the other. */
  lemma {:induction false} BestOfMember(cs: seq<Candidate>, ds: seq<Candidate>, t: int, s: int)
    requires IsBest(cs, t, s) && forall c :: c in cs <==> c in ds
    ensures IsBest(ds, t, s)
  {
    var i :| 0 <= i < |cs| && cs[i].terminal == t && cs[i].score == s;
    assert cs[i] in ds;
    forall j | 0 <= j < |ds| && ds[j].terminal == t
      ensures ds[j].score <= s
    {
      assert ds[j] in cs;
    }
  }

  function Terminals(cs: seq<Candidate>): set<int> {
    set i | 0 <= i < |cs| :: cs[i].terminal
  }

  /** The terminals whose best score is `s`. */
  function TerminalsAt(cs: seq<Candidate>, s: int): set<int> {
    set t | t in Terminals(cs) && BestOf(cs, t) == Some(s)
  }

  /** Two lists with equally many terminals at every best score. */
  ghost predicate Alike(cs: seq<Candidate>, ds: seq<Candidate>) {
    forall s :: |TerminalsAt(cs, s)| == |TerminalsAt(ds, s)|
  }

  lemma {:induction false} BagsAreAlike(cs: seq<Candidate>, ds: seq<Candidate>)
    requires multiset(cs) == multiset(ds)
    ensures Alike(cs, ds)
  {
    SameMembers(cs, ds);
    forall t
      ensures t in Terminals(cs) <==> t in Terminals(ds)
    {
      if t in Terminals(cs) {
        var i :| 0 <= i < |cs| && cs[i].terminal == t;
        assert cs[i] in ds;
      }
      if t in Terminals(ds) {
        var i :| 0 <= i < |ds| && ds[i].terminal == t;
        assert ds[i] in cs;
      }
    }
    forall s
      ensures TerminalsAt(cs, s) == TerminalsAt(ds, s)
    {
      forall t
        ensures BestOf(cs, t) == BestOf(ds, t)
      {
        BestOfBag(cs, ds, t);
      }
    }
  }

  /** Removing a terminal's candidates leaves the other terminals' best scores. */
  lemma {:induction false} BestOfWithout(cs: seq<Candidate>, t: int, other: int)
    ensures BestOf(WithoutTerminal(cs, t), other) == if other == t then None else BestOf(cs, other)
  {
    if cs != [] {
      var n := |cs| - 1;
      BestOfWithout(cs[..n], t, other);
      if cs[n].terminal != t {
        var w := WithoutTerminal(cs[..n], t);
        assert (w + [cs[n]])[..|w|] == w;
      } else {
        assert WithoutTerminal(cs, t) == WithoutTerminal(cs[..n], t);
      }
    }
  }

  lemma {:induction false} MemberIffBest(cs: seq<Candidate>, t: int)
    ensures t in Terminals(cs) <==> BestOf(cs, t).Some?
  {
    BestOfIs(cs, t);
    if t in Terminals(cs) {
      var i :| 0 <= i < |cs| && cs[i].terminal == t;
    }
  }

  /** With deduplication a rank removes one terminal at the best score. */
  lemma {:induction false} DedupStep(cs: seq<Candidate>, s: int)
    requires cs != []
    ensures var b := FirstBest(cs);
      && (s > cs[b].score ==> TerminalsAt(cs, s) == {})
      && (s == cs[b].score ==> cs[b].terminal in TerminalsAt(cs, s))
      && TerminalsAt(Remaining(cs, b, true), s) == if s == cs[b].score then TerminalsAt(cs, s) - {cs[b].terminal} else TerminalsAt(cs, s)
  {
    var b := FirstBest(cs);
    var t0 := cs[b].terminal;
    BestOfIs(cs, t0);
    assert BestOf(cs, t0) == Some(cs[b].score);
    forall t
      ensures t in TerminalsAt(Remaining(cs, b, true), s) <==> t != t0 && t in TerminalsAt(cs, s)
      ensures s > cs[b].score ==> t !in TerminalsAt(cs, s)
    {
      BestOfWithout(cs, t0, t);
      MemberIffBest(cs, t);
      MemberIffBest(WithoutTerminal(cs, t0), t);
      BestOfIs(cs, t);
      hide BestOf, WithoutTerminal, FirstBest, Terminals;
    }
    MemberIffBest(cs, t0);
  }

  lemma {:induction false} NoneAlike(cs: seq<Candidate>)
    ensures cs == [] <==> forall s :: TerminalsAt(cs, s) == {}
  {
    if cs != [] {
      DedupStep(cs, cs[FirstBest(cs)].score);
    }
  }

  /** Alike lists have the same best score, and stay alike after a rank. */
  lemma {:induction false} AlikeStep(cs: seq<Candidate>, ds: seq<Candidate>)
    requires Alike(cs, ds) && cs != []
    ensures ds != []
    ensures cs[FirstBest(cs)].score == ds[FirstBest(ds)].score
    ensures Alike(Remaining(cs, FirstBest(cs), true), Remaining(ds, FirstBest(ds), true))
  {
    var best := cs[FirstBest(cs)].score;
    DedupStep(cs, best);
    assert |TerminalsAt(ds, best)| > 0;
    NoneAlike(ds);
    assert TerminalsAt(ds, best) != {};
    var other := ds[FirstBest(ds)].score;
    DedupStep(ds, best);
    DedupStep(ds, other);
    DedupStep(cs, other);
    assert |TerminalsAt(cs, other)| == |TerminalsAt(ds, other)| > 0;
    forall s
      ensures |TerminalsAt(Remaining(cs, FirstBest(cs), true), s)| == |TerminalsAt(Remaining(ds, FirstBest(ds), true), s)|
    {
      DedupStep(cs, s);
      DedupStep(ds, s);
      assert |TerminalsAt(cs, s)| == |TerminalsAt(ds, s)|;
      hide TerminalsAt, Remaining, FirstBest;
    }
  }

  lemma {:induction false} NoTerminals(cs: seq<Candidate>, ds: seq<Candidate>, k: nat)
    requires Alike(cs, ds) && (k == 0 || cs == [])
    ensures Greedy(cs, k, true) == [] && Greedy(ds, k, true) == []
  {
    NoneAlike(cs);
    NoneAlike(ds);
    if cs == [] {
      assert forall s :: |TerminalsAt(ds, s)| == |TerminalsAt(cs, s)| == 0;
    }
  }

  /** One rank of both lists, with deduplication. */
  lemma {:induction false} DedupHead(cs: seq<Candidate>, ds: seq<Candidate>, k: nat)
    returns (c: Candidate, d: Candidate, restC: seq<Candidate>, restD: seq<Candidate>)
    requires Alike(cs, ds) && cs != [] && k > 0
    ensures c.score == d.score && Alike(restC, restD)
    ensures Greedy(cs, k, true) == [c] + Greedy(restC, k - 1, true)
    ensures Greedy(ds, k, true) == [d] + Greedy(restD, k - 1, true)
  {
    hide *;
    AlikeStep(cs, ds);
    GreedyStep(cs, k, true);
    GreedyStep(ds, k, true);
    var b, e := FirstBest(cs), FirstBest(ds);
    c, d, restC, restD := cs[b], ds[e], Remaining(cs, b, true), Remaining(ds, e, true);
  }

  lemma {:induction false} DedupScores(cs: seq<Candidate>, ds: seq<Candidate>, k: nat)
    requires Alike(cs, ds)
    ensures Scores(Greedy(cs, k, true)) == Scores(Greedy(ds, k, true))
    decreases k
  {
    hide *;
    if k == 0 || cs == [] {
      NoTerminals(cs, ds, k);
    } else {
      var c, d, restC, restD := DedupHead(cs, ds, k);
      DedupScores(restC, restD, k - 1);
      ScoresCons(c, Greedy(restC, k - 1, true));
      ScoresCons(d, Greedy(restD, k - 1, true));
    }
  }

  /** The public part of a row that ties cannot change. */
  ghost predicate SameColumns(a: seq<Row>, b: seq<Row>) {
    |a| == |b| && forall i :: 0 <= i < |a| ==> a[i].valid == b[i].valid && a[i].score == b[i].score
  }

  /** The order of the candidates never reaches the validity and score columns. */
  lemma {:induction false} ColumnsDependOnBag(cs: seq<Candidate>, ds: seq<Candidate>, k: nat, dedup: bool)
    requires multiset(cs) == multiset(ds)
    ensures SameColumns(TopK(cs, k, dedup), TopK(ds, k, dedup))
  {
    if dedup {
      BagsAreAlike(cs, ds);
      DedupScores(cs, ds, k);
    } else {
      ScoresBag(cs, ds);
      PlainScores(cs, ds, k);
    }
    var g, h := Greedy(cs, k, dedup), Greedy(ds, k, dedup);
    assert Scores(g) == Scores(h) && |Scores(g)| == |g| && |Scores(h)| == |h|;
    hide Greedy, Scores;
    forall i | 0 <= i < |g|
      ensures g[i].score == h[i].score
    {
      assert Scores(g)[i] == Scores(h)[i];
    }
  }

  function ScoreOf(): Candidate -> seq<int> {
    (c: Candidate) => [c.score]
  }

  lemma {:induction false} ScoresAreBag(cs: seq<Candidate>)
    ensures multiset(Scores(cs)) == Bag(cs, ScoreOf())
  {
    if cs != [] {
      ScoresAreBag(cs[..|cs| - 1]);
      assert Scores(cs) == Scores(cs[..|cs| - 1]) + ScoreOf()(cs[|cs| - 1]);
    }
  }

  lemma {:induction false} ScoresBag(cs: seq<Candidate>, ds: seq<Candidate>)
    requires multiset(cs) == multiset(ds)
    ensures multiset(Scores(cs)) == multiset(Scores(ds))
  {
    ScoresAreBag(cs);
    ScoresAreBag(ds);
    BagPermute(cs, ds, ScoreOf());
  }

  // --- Distinct scores fix the rows ----------------------------------------------------------------

  ghost predicate AllDiffer(xs: seq<int>) {
    forall i, j :: 0 <= i < j < |xs| ==> xs[i] != xs[j]
  }

  ghost predicate Once(xs: seq<int>) {
    forall x :: multiset(xs)[x] <= 1
  }

  lemma {:induction false} DifferSnoc(xs: seq<int>, x: int)
    ensures AllDiffer(xs + [x]) <==> AllDiffer(xs) && x !in xs
  {
    var ys := xs + [x];
    assert forall i :: 0 <= i < |xs| ==> ys[i] == xs[i];
    if x in xs {
      var i :| 0 <= i < |xs| && xs[i] == x;
      assert ys[i] == ys[|xs|];
    }
  }

  lemma {:induction false} OnceSnoc(xs: seq<int>, x: int)
    ensures Once(xs + [x]) <==> Once(xs) && x !in xs
  {
    forall y
      ensures multiset(xs + [x])[y] == multiset(xs)[y] + if y == x then 1 else 0
    {
      assert multiset(xs + [x]) == multiset(xs) + multiset{x};
    }
    assert x in xs <==> multiset(xs)[x] > 0;
    if Once(xs) && x !in xs {
      forall y
        ensures multiset(xs + [x])[y] <= 1
      {
        assert multiset(xs)[y] <= 1;
      }
    }
    if Once(xs + [x]) {
      assert multiset(xs + [x])[x] <= 1;
      forall y
        ensures multiset(xs)[y] <= 1
      {
        assert multiset(xs + [x])[y] <= 1;
      }
    }
  }

  lemma {:induction false} CountDistinct(xs: seq<int>)
    ensures AllDiffer(xs) <==> Once(xs)
  {
    if xs != [] {
      var n := |xs| - 1;
      assert xs == xs[..n] + [xs[n]];
      hide AllDiffer, Once;
      CountDistinct(xs[..n]);
      DifferSnoc(xs[..n], xs[n]);
      OnceSnoc(xs[..n], xs[n]);
    }
  }

  lemma {:induction false} DistinctBag(cs: seq<Candidate>, ds: seq<Candidate>)
    requires multiset(cs) == multiset(ds) && ScoresDistinct(cs)
    ensures ScoresDistinct(ds) && Ties.SameMembers(cs, ds)
  {
    ScoresBag(cs, ds);
    CountDistinct(Scores(cs));
    CountDistinct(Scores(ds));
    assert AllDiffer(Scores(cs)) && Once(Scores(ds));
    SameMembers(cs, ds);
  }

  // --- File order and stored order hold the same candidates -------------------------------------------

  function HitMap(): Record -> seq<Hit> {
    (e: Record) => [HitOf(e)]
  }

  lemma {:induction false} HitsAreBag(records: seq<Record>)
    ensures multiset(HitsOf(records)) == Bag(records, HitMap())
  {
    if records != [] {
      HitsAreBag(records[..|records| - 1]);
      assert HitsOf(records) == HitsOf(records[..|records| - 1]) + HitMap()(records[|records| - 1]);
    }
  }

  /** Owner by owner, both orders hold the same edges. */
  lemma {:induction false} KeyHitsBag(owners: seq<seq<Resolved>>, key: Key)
    ensures multiset(ScanHits(owners, key)) == multiset(KeyHits(owners, key))
  {
    if owners != [] {
      var n := |owners| - 1;
      KeyHitsBag(owners[..n], key);
      OrdersAreTotal();
      SortBySorted(RecordsAt(owners[n], key), RecordAtMost);
      HitsAreBag(RecordsAt(owners[n], key));
      HitsAreBag(SortedAt(owners[n], key));
      BagPermute(RecordsAt(owners[n], key), SortedAt(owners[n], key), HitMap());
      hide HitsOf, RecordsAt, SortBy, Bag;
    }
  }

  /** The paths that start with a match. */
  function PathsFrom(second: int -> seq<Hit>): Hit -> seq<Candidate> {
    (h: Hit) => Extend(h, second(h.target))
  }

  lemma {:induction false} PathsAreBag(firsts: seq<Hit>, second: int -> seq<Hit>)
    ensures multiset(Paths(firsts, second)) == Bag(firsts, PathsFrom(second))
  {
    if firsts != [] {
      PathsAreBag(firsts[..|firsts| - 1], second);
    }
  }

  function PathTo(first: Hit): Hit -> seq<Candidate> {
    (h: Hit) => [PathOf(first, h)]
  }

  lemma {:induction false} ExtendIsBag(first: Hit, seconds: seq<Hit>)
    ensures multiset(Extend(first, seconds)) == Bag(seconds, PathTo(first))
  {
    if seconds != [] {
      ExtendIsBag(first, seconds[..|seconds| - 1]);
      assert Extend(first, seconds) == Extend(first, seconds[..|seconds| - 1]) + PathTo(first)(seconds[|seconds| - 1]);
    }
  }

  lemma {:induction false} ExtendBag(first: Hit, a: seq<Hit>, b: seq<Hit>)
    requires multiset(a) == multiset(b)
    ensures multiset(Extend(first, a)) == multiset(Extend(first, b))
  {
    ExtendIsBag(first, a);
    ExtendIsBag(first, b);
    BagPermute(a, b, PathTo(first));
  }

  /** The two layouts form the same bag of candidates. */
  lemma {:induction false} PathsBag(owners: seq<seq<Resolved>>, source: nat, relation1: nat, relation2: nat)
    ensures multiset(ScanPaths(owners, source, relation1, relation2)) == multiset(QueryPaths(owners, source, relation1, relation2))
  {
    var key := Key(source, relation1);
    var f, g := ScanSecond(owners, relation2), SecondHop(owners, relation2);
    KeyHitsBag(owners, key);
    PathsAreBag(ScanHits(owners, key), f);
    PathsAreBag(KeyHits(owners, key), g);
    BagPermute(ScanHits(owners, key), KeyHits(owners, key), PathsFrom(g));
    forall i | 0 <= i < |ScanHits(owners, key)|
      ensures multiset(PathsFrom(f)(ScanHits(owners, key)[i])) == multiset(PathsFrom(g)(ScanHits(owners, key)[i]))
    {
      SecondBag(owners, relation2, ScanHits(owners, key)[i]);
    }
    hide Bag, ScanHits, KeyHits, Paths;
    BagAgree(ScanHits(owners, key), PathsFrom(f), PathsFrom(g));
  }

  lemma {:induction false} SecondBag(owners: seq<seq<Resolved>>, relation: nat, h: Hit)
    ensures multiset(PathsFrom(ScanSecond(owners, relation))(h)) == multiset(PathsFrom(SecondHop(owners, relation))(h))
  {
    if h.target >= 0 {
      KeyHitsBag(owners, Key(h.target, relation));
    }
    hide ScanHits, KeyHits;
    ExtendBag(h, ScanSecond(owners, relation)(h.target), SecondHop(owners, relation)(h.target));
  }

  // --- The two oracles ------------------------------------------------------------------------------------

  /** The same paths, listed as the paged layout stores them. */
  ghost function StoredPaths(c: Config, owners: seq<seq<RawEdge>>, q: Query): seq<Candidate>
    requires QueryKnown(c, q) && OwnersAcceptable(c, owners)
  {
    QueryPaths(ResolveOwners(c, owners), c.entities[q.source], c.relations[q.relation1], c.relations[q.relation2])
  }

  ghost predicate BothAccept(c: Config, owners: seq<seq<RawEdge>>, q: Query) {
    && QueryKnown(c, q) && OwnersAcceptable(c, owners)
    && forall o :: 0 <= o < |owners| ==> AllRawOk(c, owners[o])
  }

  /** The two layouts list the tied candidates that can be chosen in the same order. */
  ghost predicate TiesListedAlike(c: Config, owners: seq<seq<RawEdge>>, q: Query)
    requires BothAccept(c, owners, q)
  {
    TiesAlike(Rankable(NamedPaths(c, owners, q), c.dedup), Rankable(StoredPaths(c, owners, q), c.dedup))
  }

  /**
   * For every input both oracles accept: the validity and score columns are the same; the
   * whole rows are the same when ties are listed alike, and so when no two candidates tie.
   */
  ghost predicate OraclesAgree(c: Config, owners: seq<seq<RawEdge>>, q: Query, scan: Result<seq<Row>>, paged: Result<seq<Row>>) {
    scan.Ok? && paged.Ok? ==>
      && SameColumns(scan.value, paged.value) && BothAccept(c, owners, q)
      && (TiesListedAlike(c, owners, q) ==> scan.value == paged.value)
      && (ScoresDistinct(NamedPaths(c, owners, q)) ==> scan.value == paged.value)
  }

  lemma {:induction false} SameResolution(c: Config, owners: seq<seq<RawEdge>>)
    requires OwnersAcceptable(c, owners) && forall o :: 0 <= o < |owners| ==> AllRawOk(c, owners[o])
    ensures ScanResolve(c, owners) == ResolveOwners(c, owners)
  {
    hide AllRawOk, AllAcceptable;
  }

  lemma {:induction false} NamedBag(c: Config, owners: seq<seq<RawEdge>>, q: Query)
    requires BothAccept(c, owners, q)
    ensures multiset(NamedPaths(c, owners, q)) == multiset(StoredPaths(c, owners, q))
  {
    SameResolution(c, owners);
    PathsBag(ResolveOwners(c, owners), c.entities[q.source], c.relations[q.relation1], c.relations[q.relation2]);
    hide ScanPaths, QueryPaths;
  }

  /**
   * Exactly when the layouts rank a query alike: their rows agree for every number of ranks
   * if and only if, score by score, they list the rows that can be chosen in the same order.
   */
  lemma {:induction false} LayoutsAgree(c: Config, owners: seq<seq<RawEdge>>, q: Query)
    requires BothAccept(c, owners, q)
    ensures TiesListedAlike(c, owners, q)
       <==> forall k: nat :: TopK(NamedPaths(c, owners, q), k, c.dedup) == TopK(StoredPaths(c, owners, q), k, c.dedup)
    ensures ScoresDistinct(NamedPaths(c, owners, q)) ==> TiesListedAlike(c, owners, q)
  {
    var cs, ds := NamedPaths(c, owners, q), StoredPaths(c, owners, q);
    RowsAgree(cs, ds, c.dedup);
    if ScoresDistinct(cs) {
      NamedBag(c, owners, q);
      DistinctBag(cs, ds);
      DistinctAgree(cs, ds, c.dedup);
    }
    hide NamedPaths, StoredPaths, TopK, TiesAlike, Rankable;
  }

  lemma {:induction false} ResultsAgree(c: Config, b: Bounds, owners: seq<seq<RawEdge>>, q: Query, scan: Result<seq<Row>>, paged: Result<seq<Row>>)
    requires ScanAnswers(c, b, owners, q, scan) && Answers(c, owners, q, true, paged)
    ensures OraclesAgree(c, owners, q, scan, paged)
  {
    if scan.Ok? && paged.Ok? {
      Accepted(c, b, owners, q, scan, paged);
      hide *;
      NamedBag(c, owners, q);
      LayoutsAgree(c, owners, q);
      ColumnsDependOnBag(NamedPaths(c, owners, q), StoredPaths(c, owners, q), c.topK, c.dedup);
      Agreement(c, owners, q, scan, paged);
    }
  }

  lemma {:induction false} Agreement(c: Config, owners: seq<seq<RawEdge>>, q: Query, scan: Result<seq<Row>>, paged: Result<seq<Row>>)
    requires scan.Ok? && paged.Ok? && BothAccept(c, owners, q) && SameColumns(scan.value, paged.value)
    requires TiesListedAlike(c, owners, q) ==> scan.value == paged.value
    requires ScoresDistinct(NamedPaths(c, owners, q)) ==> TiesListedAlike(c, owners, q)
    ensures OraclesAgree(c, owners, q, scan, paged)
  {
    hide BothAccept, SameColumns, TiesListedAlike, ScoresDistinct, NamedPaths;
  }

  /** What two successful answers are. */
  lemma {:induction false} Accepted(c: Config, b: Bounds, owners: seq<seq<RawEdge>>, q: Query, scan: Result<seq<Row>>, paged: Result<seq<Row>>)
    requires ScanAnswers(c, b, owners, q, scan) && Answers(c, owners, q, true, paged) && scan.Ok? && paged.Ok?
    ensures BothAccept(c, owners, q)
    ensures scan.value == TopK(NamedPaths(c, owners, q), c.topK, c.dedup) && paged.value == TopK(StoredPaths(c, owners, q), c.topK, c.dedup)
  {
    hide TopK, NamedPaths, WithinBounds, AllRawOk, OwnersFit, OwnersAcceptable, FrontierHolds, QueryPaths;
  }

  /** Both oracles on one input. */
  method CompareOracles(c: Config, b: Bounds, owners: seq<seq<RawEdge>>, q: Query) returns (scan: Result<seq<Row>>, paged: Result<seq<Row>>)
    requires c.Valid() && b.Valid()
    ensures ScanAnswers(c, b, owners, q, scan) && Answers(c, owners, q, true, paged)
    ensures OraclesAgree(c, owners, q, scan, paged)
  {
    hide *;
    scan := EvaluateScan(c, b, owners, q);
    paged := EvaluatePaged(c, owners, q);
    ResultsAgree(c, b, owners, q, scan, paged);
  }
}
