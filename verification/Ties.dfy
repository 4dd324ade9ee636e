// Ties: exactly when two enumerations of candidates rank the same.
module Ties {
  import opened Ranking

  /** The rows of the candidates scoring `s`, in slot order. */
  function RowsAt(cs: seq<Candidate>, s: int): seq<Row> {
    if cs == [] then []
    else
      var n := |cs| - 1;
      RowsAt(cs[..n], s) + if cs[n].score == s then [RowOf(cs[n])] else []
  }

  /** Score by score, the tied candidates' rows are listed in the same order. */
  ghost predicate TiesAlike(cs: seq<Candidate>, ds: seq<Candidate>) {
    forall s :: RowsAt(cs, s) == RowsAt(ds, s)
  }

  // --- Rows by score, rank by rank ------------------------------------------------------------

  lemma {:induction false} RowsAtConcat(a: seq<Candidate>, b: seq<Candidate>, s: int)
    ensures RowsAt(a + b, s) == RowsAt(a, s) + RowsAt(b, s)
  {
    if b == [] {
      assert a + b == a;
    } else {
      var n := |b| - 1;
      RowsAtConcat(a, b[..n], s);
      assert (a + b)[..|a| + n] == a + b[..n];
    }
  }

  lemma {:induction false} RowsAtNone(cs: seq<Candidate>, s: int)
    requires forall i :: 0 <= i < |cs| ==> cs[i].score != s
    ensures RowsAt(cs, s) == []
  {
    if cs != [] {
      RowsAtNone(cs[..|cs| - 1], s);
    }
  }

  /** A list and what surrounds its position `b`. */
  lemma {:induction false} RowsAround(cs: seq<Candidate>, b: nat, s: int)
    requires b < |cs|
    ensures RowsAt(cs, s) == RowsAt(cs[..b], s) + (if cs[b].score == s then [RowOf(cs[b])] else []) + RowsAt(cs[b + 1..], s)
    ensures RowsAt(Remaining(cs, b, false), s) == RowsAt(cs[..b], s) + RowsAt(cs[b + 1..], s)
  {
    var head := cs[..b + 1];
    assert cs == head + cs[b + 1..] && head[..b] == cs[..b];
    RowsAtConcat(head, cs[b + 1..], s);
    RowsAtConcat(cs[..b], cs[b + 1..], s);
  }

  /** A rank takes the first row at the best score and leaves every other score alone. */
  lemma {:induction false} RankRows(cs: seq<Candidate>, s: int)
    requires cs != []
    ensures var b := FirstBest(cs);
      && (s > cs[b].score ==> RowsAt(cs, s) == [])
      && RowsAt(cs, s) == (if s == cs[b].score then [RowOf(cs[b])] else []) + RowsAt(Remaining(cs, b, false), s)
  {
    var b := FirstBest(cs);
    RowsAround(cs, b, s);
    if s >= cs[b].score {
      RowsAtNone(cs[..b], s);
    }
    if s > cs[b].score {
      RowsAtNone(cs, s);
    }
    hide Remaining, RowsAt, FirstBest;
  }

  lemma {:induction false} RankBest(cs: seq<Candidate>)
    requires cs != []
    ensures var b := FirstBest(cs); RowsAt(cs, cs[b].score) != [] && RowsAt(cs, cs[b].score)[0] == RowOf(cs[b])
  {
    RankRows(cs, cs[FirstBest(cs)].score);
    hide Remaining, RowsAt, FirstBest;
  }

  // --- Alike ties rank alike ---------------------------------------------------------------------

  lemma {:induction false} BestNotAbove(cs: seq<Candidate>, ds: seq<Candidate>)
    requires TiesAlike(cs, ds) && cs != []
    ensures ds != [] && cs[FirstBest(cs)].score <= ds[FirstBest(ds)].score
  {
    var s := cs[FirstBest(cs)].score;
    RankBest(cs);
    assert RowsAt(ds, s) == RowsAt(cs, s);
    assert ds != [] by {
      RowsAtNone([], s);
    }
    RankRows(ds, s);
    hide Remaining, RowsAt, FirstBest;
  }

  /** One rank of two lists with alike ties chooses equal rows and leaves alike ties. */
  lemma {:induction false} AlikeRank(cs: seq<Candidate>, ds: seq<Candidate>)
    requires TiesAlike(cs, ds) && cs != []
    ensures ds != [] && RowOf(cs[FirstBest(cs)]) == RowOf(ds[FirstBest(ds)])
    ensures TiesAlike(Remaining(cs, FirstBest(cs), false), Remaining(ds, FirstBest(ds), false))
  {
    BestNotAbove(cs, ds);
    BestNotAbove(ds, cs);
    var b, e := FirstBest(cs), FirstBest(ds);
    RankBest(cs);
    RankBest(ds);
    assert RowsAt(cs, cs[b].score) == RowsAt(ds, cs[b].score);
    forall s
      ensures RowsAt(Remaining(cs, b, false), s) == RowsAt(Remaining(ds, e, false), s)
    {
      RankRows(cs, s);
      RankRows(ds, s);
      assert RowsAt(cs, s) == RowsAt(ds, s);
      hide Remaining, RowsAt, FirstBest, RowOf;
      SameTail(if s == cs[b].score then [RowOf(cs[b])] else [], RowsAt(Remaining(cs, b, false), s), RowsAt(Remaining(ds, e, false), s));
    }
    hide Remaining, RowsAt, FirstBest;
  }

  lemma {:induction false} SameTail(head: seq<Row>, a: seq<Row>, b: seq<Row>)
    requires head + a == head + b
    ensures a == b
  {
    assert a == (head + a)[|head|..] && b == (head + b)[|head|..];
  }

  lemma {:induction false} AlikeEmpty(ds: seq<Candidate>)
    requires TiesAlike([], ds)
    ensures ds == []
  {
    if ds != [] {
      BestNotAbove(ds, []);
    }
  }

  /** Alike ties give the same rows, whatever the number of ranks. */
  lemma {:induction false} AlikeTopK(cs: seq<Candidate>, ds: seq<Candidate>, k: nat)
    requires TiesAlike(cs, ds)
    ensures TopK(cs, k, false) == TopK(ds, k, false)
    decreases k
  {
    if k > 0 {
      TopKStep(cs, k, false);
      TopKStep(ds, k, false);
      hide *;
      if cs == [] {
        AlikeEmpty(ds);
      } else {
        AlikeRank(cs, ds);
        AlikeTopK(Remaining(cs, FirstBest(cs), false), Remaining(ds, FirstBest(ds), false), k - 1);
      }
    }
  }

  // --- Enough ranks show every tie -------------------------------------------------------------

  /** The valid output rows with score `s`. */
  function RowsIn(rows: seq<Row>, s: int): seq<Row> {
    if rows == [] then []
    else (if rows[0].valid == 1 && rows[0].score == s then [rows[0]] else []) + RowsIn(rows[1..], s)
  }

  lemma {:induction false} RowsInCons(row: Row, rows: seq<Row>, s: int)
    ensures RowsIn([row] + rows, s) == (if row.valid == 1 && row.score == s then [row] else []) + RowsIn(rows, s)
  {
    assert ([row] + rows)[1..] == rows;
  }

  /** With a rank for every candidate, the output lists each score's rows as the input does. */
  lemma {:induction false} TopKRows(cs: seq<Candidate>, k: nat, s: int)
    requires k >= |cs|
    ensures RowsIn(TopK(cs, k, false), s) == RowsAt(cs, s)
    decreases k
  {
    if k > 0 {
      TopKStep(cs, k, false);
      if cs == [] {
        TopKRows(cs, k - 1, s);
        RowsInCons(EMPTY_ROW, TopK(cs, k - 1, false), s);
      } else {
        var b := FirstBest(cs);
        var rest := Remaining(cs, b, false);
        assert |rest| == |cs| - 1;
        TopKRows(rest, k - 1, s);
        RowsInCons(RowOf(cs[b]), TopK(rest, k - 1, false), s);
        RankRows(cs, s);
        hide TopK, Remaining, FirstBest, RowsAt, RowsIn;
      }
    }
  }

  /**
   * Without deduplication two enumerations give the same rows for every number of ranks
   * exactly when they list every score's rows in the same order.
   */
  lemma {:induction false} PlainAgree(cs: seq<Candidate>, ds: seq<Candidate>)
    ensures (forall k: nat :: TopK(cs, k, false) == TopK(ds, k, false)) <==> TiesAlike(cs, ds)
  {
    if TiesAlike(cs, ds) {
      forall k: nat
        ensures TopK(cs, k, false) == TopK(ds, k, false)
      {
        AlikeTopK(cs, ds, k);
      }
    }
    var k: nat := |cs| + |ds|;
    if TopK(cs, k, false) == TopK(ds, k, false) {
      forall s
        ensures RowsAt(cs, s) == RowsAt(ds, s)
      {
        TopKRows(cs, k, s);
        TopKRows(ds, k, s);
      }
    }
    hide TopK, RowsAt;
  }

  // --- Deduplication: only each terminal's champion can be chosen -----------------------------------

  /** Each terminal's first best candidate; a later better one takes the last place. */
  function Champions(cs: seq<Candidate>): seq<Candidate> {
    if cs == [] then []
    else
      var n := |cs| - 1;
      Challenge(Champions(cs[..n]), cs[n])
  }

  /** `c` joins unless its terminal already has a candidate at least as good. */
  function Challenge(champions: seq<Candidate>, c: Candidate): seq<Candidate> {
    if Held(champions, c) then champions else WithoutTerminal(champions, c.terminal) + [c]
  }

  predicate Held(champions: seq<Candidate>, c: Candidate) {
    exists i :: 0 <= i < |champions| && champions[i].terminal == c.terminal && champions[i].score >= c.score
  }

  /** The candidates a ranking can choose from, in the order that breaks its ties. */
  function Rankable(cs: seq<Candidate>, dedup: bool): seq<Candidate> {
    if dedup then Champions(cs) else cs
  }

  ghost predicate TerminalsDistinct(cs: seq<Candidate>) {
    forall i, j :: 0 <= i < j < |cs| ==> cs[i].terminal != cs[j].terminal
  }

  lemma {:induction false} WithoutMembers(cs: seq<Candidate>, t: int)
    ensures forall c :: c in WithoutTerminal(cs, t) <==> c in cs && c.terminal != t
  {
    if cs != [] {
      var n := |cs| - 1;
      WithoutMembers(cs[..n], t);
      assert cs == cs[..n] + [cs[n]];
    }
  }

  lemma {:induction false} WithoutDistinct(cs: seq<Candidate>, t: int)
    requires TerminalsDistinct(cs)
    ensures TerminalsDistinct(WithoutTerminal(cs, t))
  {
    if cs != [] {
      var n := |cs| - 1;
      WithoutDistinct(cs[..n], t);
      WithoutMembers(cs[..n], t);
      var w := WithoutTerminal(cs[..n], t);
      forall i | 0 <= i < |w|
        ensures w[i].terminal != cs[n].terminal
      {
        assert w[i] in cs[..n];
      }
    }
  }

  lemma {:induction false} ChampionsDistinct(cs: seq<Candidate>)
    ensures TerminalsDistinct(Champions(cs))
  {
    if cs != [] {
      var n := |cs| - 1;
      var before := Champions(cs[..n]);
      ChampionsDistinct(cs[..n]);
      WithoutDistinct(before, cs[n].terminal);
      WithoutMembers(before, cs[n].terminal);
      var w := WithoutTerminal(before, cs[n].terminal);
      assert forall i :: 0 <= i < |w| ==> w[i] in w;
    }
  }

  /** Removing a terminal twice, or two terminals in either order. */
  lemma {:induction false} WithoutTwice(cs: seq<Candidate>, t: int, u: int)
    ensures WithoutTerminal(WithoutTerminal(cs, t), u) == WithoutTerminal(WithoutTerminal(cs, u), t)
    ensures WithoutTerminal(WithoutTerminal(cs, t), t) == WithoutTerminal(cs, t)
  {
    if cs != [] {
      var n := |cs| - 1;
      WithoutTwice(cs[..n], t, u);
      WithoutSnoc(WithoutTerminal(cs[..n], t), cs[n], t);
      WithoutSnoc(WithoutTerminal(cs[..n], t), cs[n], u);
      WithoutSnoc(WithoutTerminal(cs[..n], u), cs[n], t);
      WithoutLast(cs, t);
      WithoutLast(cs, u);
      hide WithoutTerminal;
    }
  }

  lemma {:induction false} WithoutLast(cs: seq<Candidate>, t: int)
    requires cs != []
    ensures var n := |cs| - 1;
      WithoutTerminal(cs, t) == if cs[n].terminal == t then WithoutTerminal(cs[..n], t) else WithoutTerminal(cs[..n], t) + [cs[n]]
  {
  }

  lemma {:induction false} WithoutSnoc(cs: seq<Candidate>, c: Candidate, t: int)
    ensures WithoutTerminal(cs + [c], t) == if c.terminal == t then WithoutTerminal(cs, t) else WithoutTerminal(cs, t) + [c]
  {
    assert (cs + [c])[..|cs|] == cs;
  }

  /** Another terminal's candidates do not affect who holds a terminal. */
  lemma {:induction false} HeldWithout(cs: seq<Candidate>, c: Candidate, t: int)
    requires c.terminal != t
    ensures Held(WithoutTerminal(cs, t), c) == Held(cs, c)
  {
    WithoutMembers(cs, t);
    var w := WithoutTerminal(cs, t);
    if Held(w, c) {
      var i :| 0 <= i < |w| && w[i].terminal == c.terminal && w[i].score >= c.score;
      assert w[i] in cs;
    }
    if Held(cs, c) {
      var i :| 0 <= i < |cs| && cs[i].terminal == c.terminal && cs[i].score >= c.score;
      assert cs[i] in w;
    }
  }

  /** One more candidate, then a terminal removed; or the other way round. */
  lemma {:induction false} ChallengeWithout(ch: seq<Candidate>, c: Candidate, t: int)
    ensures WithoutTerminal(Challenge(ch, c), t)
         == if c.terminal == t then WithoutTerminal(ch, t) else Challenge(WithoutTerminal(ch, t), c)
  {
    WithoutSnoc(WithoutTerminal(ch, c.terminal), c, t);
    WithoutTwice(ch, c.terminal, t);
    if c.terminal != t {
      HeldWithout(ch, c, t);
    }
    hide WithoutTerminal, Held;
  }

  lemma {:induction false} ChampionsWithout(cs: seq<Candidate>, t: int)
    ensures Champions(WithoutTerminal(cs, t)) == WithoutTerminal(Champions(cs), t)
  {
    if cs != [] {
      var n := |cs| - 1;
      ChampionsWithout(cs[..n], t);
      ChallengeWithout(Champions(cs[..n]), cs[n], t);
      WithoutLast(cs, t);
      ChampionsSnoc(WithoutTerminal(cs[..n], t), cs[n]);
      hide WithoutTerminal, Challenge;
    }
  }

  lemma {:induction false} ChampionsSnoc(cs: seq<Candidate>, c: Candidate)
    ensures Champions(cs + [c]) == Challenge(Champions(cs), c)
  {
    assert (cs + [c])[..|cs|] == cs;
  }

  // --- Greedy choice with deduplication is plain greedy choice among the champions ----------------

  lemma {:induction false} FirstBestSnoc(cs: seq<Candidate>, c: Candidate)
    ensures cs == [] ==> FirstBest(cs + [c]) == 0
    ensures cs != [] ==> FirstBest(cs + [c]) == if c.score > cs[FirstBest(cs)].score then |cs| else FirstBest(cs)
  {
    assert (cs + [c])[..|cs|] == cs;
  }

  /** Removing a terminal that does not hold the best candidate keeps the best candidate. */
  lemma {:induction false} FirstBestWithout(cs: seq<Candidate>, t: int)
    requires cs != [] && TerminalBelow(cs, t, cs[FirstBest(cs)].score)
    ensures var w := WithoutTerminal(cs, t); w != [] && w[FirstBest(w)] == cs[FirstBest(cs)]
  {
    var n := |cs| - 1;
    var before := cs[..n];
    WithoutLast(cs, t);
    if before == [] || cs[n].score > before[FirstBest(before)].score {
      BestIsLast(cs, t);
    } else {
      BestOfFront(cs, t);
      FirstBestWithout(before, t);
      hide WithoutTerminal, TerminalBelow, FirstBest;
      if cs[n].terminal != t {
        FirstBestSnoc(WithoutTerminal(before, t), cs[n]);
      }
    }
  }

  ghost predicate TerminalBelow(cs: seq<Candidate>, t: int, s: int) {
    forall i :: 0 <= i < |cs| && cs[i].terminal == t ==> cs[i].score < s
  }

  lemma {:induction false} BestIsLast(cs: seq<Candidate>, t: int)
    requires cs != [] && TerminalBelow(cs, t, cs[FirstBest(cs)].score)
    requires var n := |cs| - 1; n == 0 || cs[n].score > cs[FirstBest(cs[..n])].score
    ensures var w := WithoutTerminal(cs, t); w != [] && w[FirstBest(w)] == cs[FirstBest(cs)]
  {
    var n := |cs| - 1;
    var w := WithoutTerminal(cs[..n], t);
    assert FirstBest(cs) == n && cs[n].terminal != t;
    WithoutLast(cs, t);
    WithoutMembers(cs[..n], t);
    hide WithoutTerminal, TerminalBelow, FirstBest;
    forall i | 0 <= i < |w|
      ensures w[i].score < cs[n].score
    {
      assert w[i] in cs[..n];
    }
    LastIsBest(w + [cs[n]]);
  }

  lemma {:induction false} LastIsBest(w: seq<Candidate>)
    requires w != [] && forall i :: 0 <= i < |w| - 1 ==> w[i].score < w[|w| - 1].score
    ensures FirstBest(w) == |w| - 1
  {
  }

  lemma {:induction false} BestOfFront(cs: seq<Candidate>, t: int)
    requires |cs| > 1 && cs[|cs| - 1].score <= cs[FirstBest(cs[..|cs| - 1])].score
    requires TerminalBelow(cs, t, cs[FirstBest(cs)].score)
    ensures var before := cs[..|cs| - 1];
      FirstBest(cs) == FirstBest(before) && TerminalBelow(before, t, before[FirstBest(before)].score)
    ensures cs[|cs| - 1].score <= cs[FirstBest(cs)].score
  {
  }

  /** The first best champion is the first best candidate. */
  lemma {:induction false} BestChampion(cs: seq<Candidate>)
    requires cs != []
    ensures Champions(cs) != [] && Champions(cs)[FirstBest(Champions(cs))] == cs[FirstBest(cs)]
  {
    hide *;
    var n := |cs| - 1;
    var before := cs[..n];
    assert cs == before + [cs[n]];
    if before == [] {
      ChampionOfOne(cs[n]);
    } else {
      BestChampion(before);
      FirstBestSnoc(before, cs[n]);
      ChampionsSnoc(before, cs[n]);
      BestChallenge(Champions(before), cs[n]);
    }
  }

  lemma {:induction false} ChampionOfOne(c: Candidate)
    ensures Champions([] + [c]) == [c] && FirstBest([] + [c]) == 0 && FirstBest([c]) == 0
  {
    ChampionsSnoc([], c);
    assert [] + [c] == [c];
  }

  /** Who leads after one more candidate. */
  lemma {:induction false} BestChallenge(ch: seq<Candidate>, c: Candidate)
    requires ch != []
    ensures var after := Challenge(ch, c);
      after != [] && after[FirstBest(after)] == if c.score > ch[FirstBest(ch)].score then c else ch[FirstBest(ch)]
  {
    var w := WithoutTerminal(ch, c.terminal);
    if Held(ch, c) {
    } else if c.score > ch[FirstBest(ch)].score {
      WithoutMembers(ch, c.terminal);
      hide WithoutTerminal, Held, FirstBest;
      forall i | 0 <= i < |w|
        ensures w[i].score < c.score
      {
        assert w[i] in ch;
      }
      LastIsBest(w + [c]);
    } else {
      assert TerminalBelow(ch, c.terminal, c.score);
      TerminalWeaken(ch, c.terminal, c.score, ch[FirstBest(ch)].score);
      hide WithoutTerminal, Held, FirstBest, TerminalBelow;
      FirstBestWithout(ch, c.terminal);
      FirstBestSnoc(w, c);
    }
  }

  lemma {:induction false} TerminalWeaken(cs: seq<Candidate>, t: int, s: int, s': int)
    requires TerminalBelow(cs, t, s) && s <= s'
    ensures TerminalBelow(cs, t, s')
  {
  }

  /** Among distinct terminals, removing one candidate removes its terminal. */
  lemma {:induction false} RemoveIsWithout(cs: seq<Candidate>, b: nat)
    requires TerminalsDistinct(cs) && b < |cs|
    ensures WithoutTerminal(cs, cs[b].terminal) == cs[..b] + cs[b + 1..]
  {
    var n := |cs| - 1;
    WithoutLast(cs, cs[b].terminal);
    hide WithoutTerminal;
    if b < n {
      RemoveIsWithout(cs[..n], b);
      assert cs[b + 1..] == cs[..n][b + 1..] + [cs[n]];
    } else {
      WithoutAbsent(cs[..n], cs[b].terminal);
    }
  }

  lemma {:induction false} WithoutAbsent(cs: seq<Candidate>, t: int)
    requires forall i :: 0 <= i < |cs| ==> cs[i].terminal != t
    ensures WithoutTerminal(cs, t) == cs
  {
    if cs != [] {
      WithoutAbsent(cs[..|cs| - 1], t);
    }
  }

  /** One rank with deduplication is one plain rank of the champions. */
  lemma {:induction false} ChampionRank(cs: seq<Candidate>)
    requires cs != []
    ensures var ch, b := Champions(cs), FirstBest(cs);
      && ch != [] && ch[FirstBest(ch)] == cs[b]
      && Champions(Remaining(cs, b, true)) == Remaining(ch, FirstBest(ch), false)
  {
    hide *;
    BestChampion(cs);
    ChampionsDistinct(cs);
    var ch, b := Champions(cs), FirstBest(cs);
    ChampionsWithout(cs, cs[b].terminal);
    RemoveIsWithout(ch, FirstBest(ch));
    RemainingParts(cs, b);
    RemainingParts(ch, FirstBest(ch));
  }

  lemma {:induction false} RemainingParts(cs: seq<Candidate>, b: nat)
    requires b < |cs|
    ensures Remaining(cs, b, true) == WithoutTerminal(cs, cs[b].terminal) && Remaining(cs, b, false) == cs[..b] + cs[b + 1..]
  {
  }

  lemma {:induction false} NoChampions()
    ensures Champions([]) == []
  {
  }

  lemma {:induction false} NoRanks(cs: seq<Candidate>, ds: seq<Candidate>)
    ensures TopK(cs, 0, true) == TopK(ds, 0, false)
  {
  }

  lemma {:induction false} ChampionsRank(cs: seq<Candidate>, k: nat)
    ensures TopK(cs, k, true) == TopK(Champions(cs), k, false)
    decreases k
  {
    if k == 0 {
      NoRanks(cs, Champions(cs));
    } else {
      hide *;
      TopKStep(cs, k, true);
      TopKStep(Champions(cs), k, false);
      if cs == [] {
        NoChampions();
        ChampionsRank(cs, k - 1);
      } else {
        ChampionRank(cs);
        ChampionsRank(Remaining(cs, FirstBest(cs), true), k - 1);
      }
    }
  }

  /**
   * Two enumerations give the same rows for every number of ranks exactly when, score by
   * score, they list the rows that can be chosen in the same order: all of them without
   * deduplication, one champion per terminal with it.
   */
  lemma {:induction false} RowsAgree(cs: seq<Candidate>, ds: seq<Candidate>, dedup: bool)
    ensures (forall k: nat :: TopK(cs, k, dedup) == TopK(ds, k, dedup)) <==> TiesAlike(Rankable(cs, dedup), Rankable(ds, dedup))
  {
    PlainAgree(Rankable(cs, dedup), Rankable(ds, dedup));
    forall k: nat
      ensures TopK(cs, k, dedup) == TopK(Rankable(cs, dedup), k, false) && TopK(ds, k, dedup) == TopK(Rankable(ds, dedup), k, false)
    {
      if dedup {
        ChampionsRank(cs, k);
        ChampionsRank(ds, k);
      }
    }
    hide TopK, Champions, TiesAlike;
  }

  // --- Distinct scores leave nothing to tie -------------------------------------------------------------

  /** No two candidates share a score. */
  ghost predicate ScoresDistinct(cs: seq<Candidate>) {
    forall i, j :: 0 <= i < j < |cs| ==> cs[i].score != cs[j].score
  }

  ghost predicate SameMembers(cs: seq<Candidate>, ds: seq<Candidate>) {
    forall c :: c in cs <==> c in ds
  }

  lemma {:induction false} RowAtScore(cs: seq<Candidate>, c: Candidate)
    requires ScoresDistinct(cs) && c in cs
    ensures RowsAt(cs, c.score) == [RowOf(c)]
  {
    var i :| 0 <= i < |cs| && cs[i] == c;
    RowsAround(cs, i, c.score);
    RowsAtNone(cs[..i], c.score);
    RowsAtNone(cs[i + 1..], c.score);
  }

  /** Lists with distinct scores and the same members have alike ties. */
  lemma {:induction false} DistinctAlike(cs: seq<Candidate>, ds: seq<Candidate>)
    requires ScoresDistinct(cs) && ScoresDistinct(ds) && SameMembers(cs, ds)
    ensures TiesAlike(cs, ds)
  {
    forall s
      ensures RowsAt(cs, s) == RowsAt(ds, s)
    {
      if i :| 0 <= i < |cs| && cs[i].score == s {
        assert cs[i] in ds;
        RowAtScore(cs, cs[i]);
        RowAtScore(ds, cs[i]);
      } else {
        forall j | 0 <= j < |ds|
          ensures ds[j].score != s
        {
          assert ds[j] in cs;
        }
        RowsAtNone(cs, s);
        RowsAtNone(ds, s);
      }
    }
  }

  /** Champions are candidates, and every candidate's terminal has one at least as good. */
  ghost predicate Covers(ch: seq<Candidate>, cs: seq<Candidate>) {
    && (forall c :: c in ch ==> c in cs)
    && forall d :: d in cs ==> Held(ch, d)
  }

  lemma {:induction false} ChampionsCover(cs: seq<Candidate>)
    ensures Covers(Champions(cs), cs)
  {
    if cs != [] {
      var n := |cs| - 1;
      ChampionsCover(cs[..n]);
      assert cs == cs[..n] + [cs[n]];
      hide Covers, Challenge;
      CoverSnoc(Champions(cs[..n]), cs[..n], cs[n]);
    }
  }

  lemma {:induction false} CoverSnoc(ch: seq<Candidate>, cs: seq<Candidate>, c: Candidate)
    requires Covers(ch, cs)
    ensures Covers(Challenge(ch, c), cs + [c])
  {
    forall d | d in cs + [c]
      ensures Held(Challenge(ch, c), d)
    {
      hide Challenge, Held;
      HeldChallenge(ch, c, d);
    }
    WithoutMembers(ch, c.terminal);
    hide Held, WithoutTerminal;
  }

  lemma {:induction false} HeldBy(ch: seq<Candidate>, e: Candidate, d: Candidate)
    requires e in ch && e.terminal == d.terminal && e.score >= d.score
    ensures Held(ch, d)
  {
    var i :| 0 <= i < |ch| && ch[i] == e;
  }

  lemma {:induction false} HeldChallenge(ch: seq<Candidate>, c: Candidate, d: Candidate)
    ensures d == c || Held(ch, d) ==> Held(Challenge(ch, c), d)
  {
    WithoutMembers(ch, c.terminal);
    if Held(ch, d) {
      var i :| 0 <= i < |ch| && ch[i].terminal == d.terminal && ch[i].score >= d.score;
      if !Held(ch, c) {
        HeldBy(Challenge(ch, c), if ch[i].terminal == c.terminal then c else ch[i], d);
      }
    } else if d == c {
      HeldBy(Challenge(ch, c), c, c);
    }
  }

  /** Equal candidates are the only ones with equal scores. */
  lemma {:induction false} OneOfScore(cs: seq<Candidate>, c: Candidate, d: Candidate)
    requires ScoresDistinct(cs) && c in cs && d in cs && c.score == d.score
    ensures c == d
  {
  }

  /** The champion at least as good as a candidate of its terminal. */
  lemma {:induction false} Champion(cs: seq<Candidate>, d: Candidate) returns (e: Candidate)
    requires d in cs
    ensures e in Champions(cs) && e in cs && e.terminal == d.terminal && e.score >= d.score
  {
    ChampionsCover(cs);
    hide Champions;
    var ch := Champions(cs);
    var i :| 0 <= i < |ch| && ch[i].terminal == d.terminal && ch[i].score >= d.score;
    e := ch[i];
  }

  lemma {:induction false} OneChampion(cs: seq<Candidate>, c: Candidate, e: Candidate)
    requires c in Champions(cs) && e in Champions(cs) && c.terminal == e.terminal
    ensures c == e
  {
    ChampionsDistinct(cs);
    hide Champions;
  }

  lemma {:induction false} ChampionMember(cs: seq<Candidate>, c: Candidate)
    requires c in Champions(cs)
    ensures c in cs
  {
    ChampionsCover(cs);
    hide Champions, Held;
  }

  lemma {:induction false} ChampionsInclude(cs: seq<Candidate>, ds: seq<Candidate>, c: Candidate)
    requires ScoresDistinct(cs) && SameMembers(cs, ds) && c in Champions(cs)
    ensures c in Champions(ds)
  {
    hide ScoresDistinct, Champions;
    ChampionMember(cs, c);
    var d := Champion(ds, c);
    var e := Champion(cs, d);
    OneChampion(cs, c, e);
    OneOfScore(cs, c, d);
  }

  lemma {:induction false} ChampionsScores(cs: seq<Candidate>)
    requires ScoresDistinct(cs)
    ensures ScoresDistinct(Champions(cs))
  {
    var ch := Champions(cs);
    ChampionsDistinct(cs);
    forall i, j | 0 <= i < j < |ch|
      ensures ch[i].score != ch[j].score
    {
      hide Champions, ScoresDistinct;
      ChampionMember(cs, ch[i]);
      ChampionMember(cs, ch[j]);
      if ch[i].score == ch[j].score {
        OneOfScore(cs, ch[i], ch[j]);
      }
    }
  }

  /** Distinct scores: any enumeration of the same candidates ranks the same. */
  lemma {:induction false} DistinctAgree(cs: seq<Candidate>, ds: seq<Candidate>, dedup: bool)
    requires ScoresDistinct(cs) && ScoresDistinct(ds) && SameMembers(cs, ds)
    ensures TiesAlike(Rankable(cs, dedup), Rankable(ds, dedup))
    ensures forall k: nat :: TopK(cs, k, dedup) == TopK(ds, k, dedup)
  {
    if dedup {
      ChampionsScores(cs);
      ChampionsScores(ds);
      forall c
        ensures c in Champions(cs) <==> c in Champions(ds)
      {
        if c in Champions(cs) {
          ChampionsInclude(cs, ds, c);
        }
        if c in Champions(ds) {
          ChampionsInclude(ds, cs, c);
        }
      }
    }
    DistinctAlike(Rankable(cs, dedup), Rankable(ds, dedup));
    RowsAgree(cs, ds, dedup);
  }
}
