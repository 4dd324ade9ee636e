// What an answer is on the owners' edges alone: which pairs of edges its rows come
// from, column by column, and why every other pair has no row.
module RawAnswer {
  import opened PackedEdges
  import opened PageConfig
  import opened OwnerEdges
  import opened KeyListing
  import opened Ranking
  import opened TwoHop
  import opened GraphAnswer

  /** One edge of the federation, by its owner and its place in that owner's file. */
  datatype Place = Place(owner: nat, index: nat)

  /** Two edges, one after the other. */
  datatype Route = Route(first: Place, second: Place)

  ghost predicate Exists(owners: seq<seq<RawEdge>>, p: Place) {
    p.owner < |owners| && p.index < |owners[p.owner]|
  }

  ghost function EdgeAt(owners: seq<seq<RawEdge>>, p: Place): RawEdge
    requires Exists(owners, p)
  {
    owners[p.owner][p.index]
  }

  /** The two edges are what the query asks for. */
  ghost predicate Asked(owners: seq<seq<RawEdge>>, q: Query, r: Route) {
    && Exists(owners, r.first) && Exists(owners, r.second)
    && var e1, e2 := EdgeAt(owners, r.first), EdgeAt(owners, r.second);
       e1.source == q.source && e1.relation == q.relation1 && e2.source == e1.target && e2.relation == q.relation2
  }

  /** Owner by owner, and within an owner in the listing's order. */
  ghost predicate Earlier(c: Config, owners: seq<seq<RawEdge>>, sorted: bool, a: Place, b: Place) {
    && Exists(owners, a) && Exists(owners, b)
    && (a.owner < b.owner || (a.owner == b.owner && Before(c, owners[a.owner], sorted, a.index, b.index)))
  }

  /** An earlier first edge, or the same first edge and an earlier second one. */
  ghost predicate RouteEarlier(c: Config, owners: seq<seq<RawEdge>>, sorted: bool, r: Route, s: Route) {
    || Earlier(c, owners, sorted, r.first, s.first)
    || (r.first == s.first && Earlier(c, owners, sorted, r.second, s.second))
  }

  /** A higher total score, or the same one and an earlier route. */
  ghost predicate Outranks(c: Config, owners: seq<seq<RawEdge>>, q: Query, sorted: bool, r: Route, s: Route) {
    && Asked(owners, q, r) && Asked(owners, q, s)
    && var x := EdgeAt(owners, r.first).score + EdgeAt(owners, r.second).score;
       var y := EdgeAt(owners, s.first).score + EdgeAt(owners, s.second).score;
       x > y || (x == y && RouteEarlier(c, owners, sorted, r, s))
  }

  /** Both routes end at the same entity. */
  ghost predicate SameTerminal(owners: seq<seq<RawEdge>>, q: Query, r: Route, s: Route) {
    Asked(owners, q, r) && Asked(owners, q, s) && EdgeAt(owners, r.second).target == EdgeAt(owners, s.second).target
  }

  /** A row of the answer: the two edges' handles in their own columns and the sum of their scores. */
  ghost predicate RowOfRoute(owners: seq<seq<RawEdge>>, q: Query, r: Route, row: Row) {
    && Asked(owners, q, r) && row.valid == 1
    && row.left == EdgeAt(owners, r.first).evidence && row.right == EdgeAt(owners, r.second).evidence
    && row.score == EdgeAt(owners, r.first).score + EdgeAt(owners, r.second).score
  }

  ghost predicate NoRow(row: Row) {
    row.valid == 0 && row.left == 0 && row.right == 0 && row.score == 0
  }

  /** An earlier row's route outranks a later one's, and under deduplication ends elsewhere. */
  ghost predicate RoutesOrdered(c: Config, owners: seq<seq<RawEdge>>, q: Query, sorted: bool, r: Route, s: Route) {
    Outranks(c, owners, q, sorted, r, s) && (c.dedup ==> !SameTerminal(owners, q, r, s))
  }

  /** A route without a row: all rows are taken by routes that outrank it, or one of them ends at its entity. */
  ghost predicate OutOfAnswer(c: Config, owners: seq<seq<RawEdge>>, q: Query, sorted: bool, picks: seq<Route>, s: Route) {
    || (|picks| == c.topK && forall t :: 0 <= t < |picks| ==> Outranks(c, owners, q, sorted, picks[t], s))
    || (c.dedup && exists t :: 0 <= t < |picks| && Outranks(c, owners, q, sorted, picks[t], s) && SameTerminal(owners, q, picks[t], s))
  }

  /** The rows, by the routes they come from. */
  ghost predicate PickedAnswer(c: Config, owners: seq<seq<RawEdge>>, q: Query, sorted: bool, picks: seq<Route>, rows: seq<Row>) {
    && |rows| == c.topK && |picks| <= c.topK
    && (forall t :: 0 <= t < |picks| ==> RowOfRoute(owners, q, picks[t], rows[t]))
    && (forall t :: |picks| <= t < |rows| ==> NoRow(rows[t]))
    && (forall s, t :: 0 <= s < t < |picks| ==> RoutesOrdered(c, owners, q, sorted, picks[s], picks[t]))
    && forall s: Route :: Asked(owners, q, s) && s !in picks ==> OutOfAnswer(c, owners, q, sorted, picks, s)
  }

  /**
   * The answer on raw edges.  `sorted` tells the two layouts apart: edges of equal score are
   * taken in stored order (target, relation, evidence, score) or in file order.
   */
  ghost predicate RawRows(c: Config, owners: seq<seq<RawEdge>>, q: Query, sorted: bool, rows: seq<Row>) {
    exists picks: seq<Route> :: PickedAnswer(c, owners, q, sorted, picks, rows)
  }

  // --- The answer is unique -------------------------------------------------------------------------

  ghost predicate AllKnown(c: Config, owners: seq<seq<RawEdge>>) {
    forall o :: 0 <= o < |owners| ==> Usable(c, owners[o])
  }

  lemma {:induction false} EarlierTotal(c: Config, owners: seq<seq<RawEdge>>, sorted: bool, a: Place, b: Place)
    requires AllKnown(c, owners) && Exists(owners, a) && Exists(owners, b)
    ensures a == b || Earlier(c, owners, sorted, a, b) || Earlier(c, owners, sorted, b, a)
    ensures !(Earlier(c, owners, sorted, a, b) && Earlier(c, owners, sorted, b, a))
    ensures !Earlier(c, owners, sorted, a, a)
  {
    assert Usable(c, owners[a.owner]) && Usable(c, owners[b.owner]);
  }

  lemma {:induction false} EarlierTransitive(c: Config, owners: seq<seq<RawEdge>>, sorted: bool, a: Place, b: Place, d: Place)
    requires Earlier(c, owners, sorted, a, b) && Earlier(c, owners, sorted, b, d)
    ensures Earlier(c, owners, sorted, a, d)
  {
  }

  lemma {:induction false} OutranksTotal(c: Config, owners: seq<seq<RawEdge>>, q: Query, sorted: bool, r: Route, s: Route)
    requires AllKnown(c, owners) && Asked(owners, q, r) && Asked(owners, q, s)
    ensures r == s || Outranks(c, owners, q, sorted, r, s) || Outranks(c, owners, q, sorted, s, r)
    ensures !(Outranks(c, owners, q, sorted, r, s) && Outranks(c, owners, q, sorted, s, r))
    ensures !Outranks(c, owners, q, sorted, r, r)
  {
    EarlierTotal(c, owners, sorted, r.first, s.first);
    EarlierTotal(c, owners, sorted, r.second, s.second);
    EarlierTotal(c, owners, sorted, r.first, r.first);
    EarlierTotal(c, owners, sorted, r.second, r.second);
    hide Earlier, AllKnown;
  }

  lemma {:induction false} OutranksTransitive(c: Config, owners: seq<seq<RawEdge>>, q: Query, sorted: bool, r: Route, s: Route, t: Route)
    requires Outranks(c, owners, q, sorted, r, s) && Outranks(c, owners, q, sorted, s, t)
    ensures Outranks(c, owners, q, sorted, r, t)
  {
    hide Earlier;
    if Earlier(c, owners, sorted, r.first, s.first) && Earlier(c, owners, sorted, s.first, t.first) {
      EarlierTransitive(c, owners, sorted, r.first, s.first, t.first);
    }
    if Earlier(c, owners, sorted, r.second, s.second) && Earlier(c, owners, sorted, s.second, t.second) {
      EarlierTransitive(c, owners, sorted, r.second, s.second, t.second);
    }
  }

  /** What picks satisfy, apart from the rows they give. */
  ghost predicate Chosen(c: Config, owners: seq<seq<RawEdge>>, q: Query, sorted: bool, picks: seq<Route>) {
    && |picks| <= c.topK && (forall t :: 0 <= t < |picks| ==> Asked(owners, q, picks[t]))
    && (forall s, t :: 0 <= s < t < |picks| ==> RoutesOrdered(c, owners, q, sorted, picks[s], picks[t]))
    && forall s: Route :: Asked(owners, q, s) && s !in picks ==> OutOfAnswer(c, owners, q, sorted, picks, s)
  }

  lemma {:induction false} ChosenAt(c: Config, owners: seq<seq<RawEdge>>, q: Query, sorted: bool, picks: seq<Route>, s: nat, t: nat)
    requires Chosen(c, owners, q, sorted, picks) && s < t < |picks|
    ensures Outranks(c, owners, q, sorted, picks[s], picks[t]) && (c.dedup ==> !SameTerminal(owners, q, picks[s], picks[t]))
    ensures Asked(owners, q, picks[s]) && Asked(owners, q, picks[t])
  {
    hide Asked, SameTerminal;
  }

  /** After a common beginning, a pick of one answer cannot outrank the next pick of the other, nor be missing from it. */
  lemma {:induction false} NextPick(c: Config, owners: seq<seq<RawEdge>>, q: Query, sorted: bool, a: seq<Route>, b: seq<Route>, n: nat)
    requires AllKnown(c, owners) && Chosen(c, owners, q, sorted, a) && Chosen(c, owners, q, sorted, b)
    requires n < |a| && n <= |b| && a[..n] == b[..n]
    ensures n < |b| && !Outranks(c, owners, q, sorted, a[n], b[n])
  {
    assert forall t :: 0 <= t < n ==> a[t] == a[..n][t] && b[t] == b[..n][t];
    assert Asked(owners, q, a[n]);
    if n == |b| || Outranks(c, owners, q, sorted, a[n], b[n]) {
      NotAmong(c, owners, q, sorted, a, b, n);
      NotOut(c, owners, q, sorted, a, b, n);
    }
  }

  lemma {:induction false} NotAmong(c: Config, owners: seq<seq<RawEdge>>, q: Query, sorted: bool, a: seq<Route>, b: seq<Route>, n: nat)
    requires AllKnown(c, owners) && Chosen(c, owners, q, sorted, a) && Chosen(c, owners, q, sorted, b)
    requires n < |a| && n <= |b| && forall t :: 0 <= t < n ==> a[t] == b[t]
    requires n == |b| || Outranks(c, owners, q, sorted, a[n], b[n])
    ensures a[n] !in b
  {
    forall m | 0 <= m < |b|
      ensures b[m] != a[n]
    {
      assert Asked(owners, q, a[n]) && Asked(owners, q, b[m]);
      OutranksTotal(c, owners, q, sorted, a[n], b[m]);
      if m < n {
        ChosenAt(c, owners, q, sorted, a, m, n);
      } else if m > n {
        ChosenAt(c, owners, q, sorted, b, n, m);
        OutranksTransitive(c, owners, q, sorted, a[n], b[n], b[m]);
      }
      hide *;
    }
  }

  lemma {:induction false} NotOut(c: Config, owners: seq<seq<RawEdge>>, q: Query, sorted: bool, a: seq<Route>, b: seq<Route>, n: nat)
    requires AllKnown(c, owners) && Chosen(c, owners, q, sorted, a) && Chosen(c, owners, q, sorted, b)
    requires n < |a| && n <= |b| && forall t :: 0 <= t < n ==> a[t] == b[t]
    requires n == |b| || Outranks(c, owners, q, sorted, a[n], b[n])
    ensures !OutOfAnswer(c, owners, q, sorted, b, a[n])
  {
    if n < |b| {
      assert Asked(owners, q, a[n]) && Asked(owners, q, b[n]);
      OutranksTotal(c, owners, q, sorted, a[n], b[n]);
    }
    forall t | 0 <= t < |b|
      ensures !(c.dedup && Outranks(c, owners, q, sorted, b[t], a[n]) && SameTerminal(owners, q, b[t], a[n]))
    {
      if t < n {
        ChosenAt(c, owners, q, sorted, a, t, n);
      } else {
        LaterLoses(c, owners, q, sorted, a[n], b, n, t);
      }
    }
    hide AllKnown, Asked, Outranks, SameTerminal;
  }

  lemma {:induction false} LaterLoses(c: Config, owners: seq<seq<RawEdge>>, q: Query, sorted: bool, r: Route, b: seq<Route>, n: nat, t: nat)
    requires AllKnown(c, owners) && Chosen(c, owners, q, sorted, b) && n <= t < |b| && Outranks(c, owners, q, sorted, r, b[n])
    ensures !Outranks(c, owners, q, sorted, b[t], r)
  {
    assert Asked(owners, q, r) && Asked(owners, q, b[t]);
    if n < t {
      ChosenAt(c, owners, q, sorted, b, n, t);
      OutranksTransitive(c, owners, q, sorted, r, b[n], b[t]);
    }
    OutranksTotal(c, owners, q, sorted, r, b[t]);
    hide *;
  }

  /** Two answers pick the same routes, one by one. */
  lemma {:induction false} PicksAgree(c: Config, owners: seq<seq<RawEdge>>, q: Query, sorted: bool, a: seq<Route>, b: seq<Route>, n: nat)
    requires AllKnown(c, owners) && Chosen(c, owners, q, sorted, a) && Chosen(c, owners, q, sorted, b) && n <= |a|
    ensures n <= |b| && a[..n] == b[..n]
  {
    if n > 0 {
      hide *;
      PicksAgree(c, owners, q, sorted, a, b, n - 1);
      NextPick(c, owners, q, sorted, a, b, n - 1);
      NextPick(c, owners, q, sorted, b, a, n - 1);
      SameNext(c, owners, q, sorted, a, b, n - 1);
      assert a[..n] == a[..n - 1] + [a[n - 1]] && b[..n] == b[..n - 1] + [b[n - 1]];
    }
  }

  lemma {:induction false} SameNext(c: Config, owners: seq<seq<RawEdge>>, q: Query, sorted: bool, a: seq<Route>, b: seq<Route>, n: nat)
    requires AllKnown(c, owners) && Chosen(c, owners, q, sorted, a) && Chosen(c, owners, q, sorted, b) && n < |a| && n < |b|
    requires !Outranks(c, owners, q, sorted, a[n], b[n]) && !Outranks(c, owners, q, sorted, b[n], a[n])
    ensures a[n] == b[n]
  {
    assert Asked(owners, q, a[n]) && Asked(owners, q, b[n]);
    OutranksTotal(c, owners, q, sorted, a[n], b[n]);
    hide *;
  }

  /** The raw edges determine the answer: no two lists of rows qualify. */
  lemma {:induction false} RawRowsUnique(c: Config, owners: seq<seq<RawEdge>>, q: Query, sorted: bool, one: seq<Row>, two: seq<Row>)
    requires AllKnown(c, owners) && RawRows(c, owners, q, sorted, one) && RawRows(c, owners, q, sorted, two)
    ensures one == two
  {
    var a: seq<Route> :| PickedAnswer(c, owners, q, sorted, a, one);
    var b: seq<Route> :| PickedAnswer(c, owners, q, sorted, b, two);
    PickedIsChosen(c, owners, q, sorted, a, one);
    PickedIsChosen(c, owners, q, sorted, b, two);
    PicksAgree(c, owners, q, sorted, a, b, |a|);
    PicksAgree(c, owners, q, sorted, b, a, |b|);
    assert a[..|a|] == a && b[..|b|] == b;
    hide Chosen, RoutesOrdered, OutOfAnswer, AllKnown;
    forall t | 0 <= t < |one|
      ensures t < |two| && one[t] == two[t]
    {
      if t < |a| {
        assert RowOfRoute(owners, q, a[t], one[t]) && RowOfRoute(owners, q, a[t], two[t]);
      } else {
        assert NoRow(one[t]) && NoRow(two[t]);
      }
    }
  }

  lemma {:induction false} PickedIsChosen(c: Config, owners: seq<seq<RawEdge>>, q: Query, sorted: bool, picks: seq<Route>, rows: seq<Row>)
    requires PickedAnswer(c, owners, q, sorted, picks, rows)
    ensures Chosen(c, owners, q, sorted, picks)
  {
    assert forall t :: 0 <= t < |picks| ==> RowOfRoute(owners, q, picks[t], rows[t]);
    hide Asked, RoutesOrdered, OutOfAnswer;
  }

  // --- The hits of a key are its edges ----------------------------------------------------------------

  ghost predicate HitIs(c: Config, e: RawEdge, h: Hit) {
    Known(c, e) && h.target == c.entities[e.target] && h.handle == e.evidence && h.score == e.score
  }

  /** The first owners' edges of a key, each once, in order, and their hits. */
  ghost predicate FedLists(c: Config, owners: seq<seq<RawEdge>>, sorted: bool, key: Key, n: nat, places: seq<Place>, hits: seq<Hit>) {
    && |places| == |hits| && n <= |owners|
    && (forall t :: 0 <= t < |places| ==> HitAt(c, owners, key, n, places[t], hits[t]))
    && (forall p: Place :: Exists(owners, p) && p.owner < n && Under(c, EdgeAt(owners, p), key) ==> p in places)
    && forall s, t :: 0 <= s < t < |places| ==> Earlier(c, owners, sorted, places[s], places[t])
  }

  ghost predicate HitAt(c: Config, owners: seq<seq<RawEdge>>, key: Key, n: nat, p: Place, h: Hit) {
    Exists(owners, p) && p.owner < n && Under(c, EdgeAt(owners, p), key) && HitIs(c, EdgeAt(owners, p), h)
  }

  ghost predicate Enumerates(c: Config, owners: seq<seq<RawEdge>>, sorted: bool, key: Key, hits: seq<Hit>) {
    exists places: seq<Place> :: FedLists(c, owners, sorted, key, |owners|, places, hits)
  }

  function PlacesOf(owner: nat, at: seq<nat>): (r: seq<Place>)
    ensures |r| == |at| && forall t :: 0 <= t < |r| ==> r[t] == Place(owner, at[t])
  {
    seq(|at|, t requires 0 <= t < |at| => Place(owner, at[t]))
  }

  lemma {:induction false} NoneListed(c: Config, owners: seq<seq<RawEdge>>, sorted: bool, key: Key)
    ensures FedLists(c, owners, sorted, key, 0, [], [])
  {
  }

  /** One more owner. */
  lemma {:induction false} FedSnoc(c: Config, owners: seq<seq<RawEdge>>, sorted: bool, key: Key, n: nat,
                                   places: seq<Place>, hits: seq<Hit>, at: seq<nat>, records: seq<Record>)
    requires n < |owners| && FedLists(c, owners, sorted, key, n, places, hits)
    requires Lists(c, owners[n], sorted, key, at) && RecordsAre(c, owners[n], at, records)
    ensures FedLists(c, owners, sorted, key, n + 1, places + PlacesOf(n, at), hits + HitsOf(records))
  {
    var next, more := places + PlacesOf(n, at), hits + HitsOf(records);
    forall t | 0 <= t < |next|
      ensures HitAt(c, owners, key, n + 1, next[t], more[t])
    {
      if t < |places| {
        assert HitAt(c, owners, key, n, places[t], hits[t]);
      } else {
        NewHit(c, owners, sorted, key, n, at, records, t - |places|);
      }
    }
    forall p: Place | Exists(owners, p) && p.owner < n + 1 && Under(c, EdgeAt(owners, p), key)
      ensures p in next
    {
      if p.owner == n {
        assert p.index in at;
        var u :| 0 <= u < |at| && at[u] == p.index;
        assert next[|places| + u] == p;
      } else {
        assert p in places;
      }
    }
    forall s, t | 0 <= s < t < |next|
      ensures Earlier(c, owners, sorted, next[s], next[t])
    {
      if t < |places| {
        assert Earlier(c, owners, sorted, places[s], places[t]);
      } else if s < |places| {
        assert HitAt(c, owners, key, n, places[s], hits[s]) && HitAt(c, owners, key, n + 1, next[t], more[t]);
      } else {
        assert Before(c, owners[n], sorted, at[s - |places|], at[t - |places|]);
      }
    }
    hide HitAt, Earlier, Lists, RecordsAre, Under;
  }

  lemma {:induction false} NewHit(c: Config, owners: seq<seq<RawEdge>>, sorted: bool, key: Key, n: nat, at: seq<nat>, records: seq<Record>, t: nat)
    requires n < |owners| && t < |at| && Lists(c, owners[n], sorted, key, at) && RecordsAre(c, owners[n], at, records)
    ensures |records| == |at| && HitAt(c, owners, key, n + 1, Place(n, at[t]), HitOf(records[t]))
  {
    assert RecordIs(c, owners[n][at[t]], records[t]);
  }

  /** The hits of a key in stored order. */
  lemma {:induction false} KeyHitsListed(c: Config, owners: seq<seq<RawEdge>>, rs: seq<seq<Resolved>>, key: Key, n: nat) returns (places: seq<Place>)
    requires Resolves(c, owners, rs) && n <= |owners|
    ensures |rs| == |owners| && FedLists(c, owners, true, key, n, places, KeyHits(rs[..n], key))
  {
    places := [];
    NoneListed(c, owners, true, key);
    if n > 0 {
      assert Usable(c, owners[n - 1]) && rs[n - 1] == ResolveAll(c, owners[n - 1]);
      assert rs[..n][..n - 1] == rs[..n - 1];
      hide Resolves, FedLists, Usable;
      var before := KeyHitsListed(c, owners, rs, key, n - 1);
      var at := StoredListing(c, owners[n - 1], key);
      FedSnoc(c, owners, true, key, n - 1, before, KeyHits(rs[..n - 1], key), at, SortedAt(rs[n - 1], key));
      places := before + PlacesOf(n - 1, at);
    }
  }

  /** The owners' edges, resolved. */
  ghost predicate Resolves(c: Config, owners: seq<seq<RawEdge>>, rs: seq<seq<Resolved>>) {
    |rs| == |owners| && forall o :: 0 <= o < |owners| ==> Usable(c, owners[o]) && rs[o] == ResolveAll(c, owners[o])
  }

  lemma {:induction false} KeyHitsEnumerate(c: Config, owners: seq<seq<RawEdge>>, rs: seq<seq<Resolved>>, key: Key)
    requires Resolves(c, owners, rs)
    ensures Enumerates(c, owners, true, key, KeyHits(rs, key))
  {
    var places := KeyHitsListed(c, owners, rs, key, |owners|);
    assert rs[..|owners|] == rs;
    hide FedLists;
  }

  // --- Paths are routes ---------------------------------------------------------------------------------

  ghost predicate CandidateIs(c: Config, owners: seq<seq<RawEdge>>, q: Query, r: Route, x: Candidate) {
    && Asked(owners, q, r)
    && var e1, e2 := EdgeAt(owners, r.first), EdgeAt(owners, r.second);
       && e2.target in c.entities && x.score == e1.score + e2.score && x.left == e1.evidence && x.right == e2.evidence
       && x.terminal == c.entities[e2.target]
  }

  /** The routes through the first edges so far, each once, in order, with their candidates. */
  ghost predicate RoutesTo(c: Config, owners: seq<seq<RawEdge>>, q: Query, sorted: bool, firsts: seq<Place>, routes: seq<Route>, cs: seq<Candidate>) {
    && |routes| == |cs|
    && (forall t :: 0 <= t < |routes| ==> routes[t].first in firsts && CandidateIs(c, owners, q, routes[t], cs[t]))
    && (forall r: Route :: Asked(owners, q, r) && r.first in firsts ==> r in routes)
    && forall s, t :: 0 <= s < t < |routes| ==> RouteEarlier(c, owners, sorted, routes[s], routes[t])
  }

  function RoutesVia(p: Place, seconds: seq<Place>): (r: seq<Route>)
    ensures |r| == |seconds| && forall t :: 0 <= t < |r| ==> r[t] == Route(p, seconds[t])
  {
    seq(|seconds|, t requires 0 <= t < |seconds| => Route(p, seconds[t]))
  }

  /** The first edge of a route, as the query names it. */
  ghost predicate Starts(c: Config, owners: seq<seq<RawEdge>>, q: Query, p: Place, h: Hit) {
    && Exists(owners, p) && HitIs(c, EdgeAt(owners, p), h)
    && EdgeAt(owners, p).source == q.source && EdgeAt(owners, p).relation == q.relation1
  }

  /** Under the identifier of a name means bearing that name. */
  lemma {:induction false} UnderNames(c: Config, e: RawEdge, source: string, relation: string)
    requires c.Valid() && source in c.entities && relation in c.relations
    ensures Under(c, e, Key(c.entities[source], c.relations[relation])) <==> Known(c, e) && e.source == source && e.relation == relation
  {
  }

  /** What a second edge behind `p` is. */
  lemma {:induction false} SecondIs(c: Config, owners: seq<seq<RawEdge>>, q: Query, p: Place, h: Hit, x: Place, g: Hit)
    requires c.Valid() && AllKnown(c, owners) && q.relation2 in c.relations && Starts(c, owners, q, p, h) && h.target >= 0
    requires HitAt(c, owners, Key(h.target, c.relations[q.relation2]), |owners|, x, g)
    ensures CandidateIs(c, owners, q, Route(p, x), PathOf(h, g))
  {
    UnderNames(c, EdgeAt(owners, x), EdgeAt(owners, p).target, q.relation2);
  }

  /** Every second edge behind `p` is listed under its target. */
  lemma {:induction false} SecondListed(c: Config, owners: seq<seq<RawEdge>>, q: Query, p: Place, h: Hit, r: Route)
    requires c.Valid() && AllKnown(c, owners) && q.relation2 in c.relations && Starts(c, owners, q, p, h) && h.target >= 0
    requires Asked(owners, q, r) && r.first == p
    ensures Exists(owners, r.second) && Under(c, EdgeAt(owners, r.second), Key(h.target, c.relations[q.relation2]))
  {
    assert Usable(c, owners[r.second.owner]);
    UnderNames(c, EdgeAt(owners, r.second), EdgeAt(owners, p).target, q.relation2);
  }

  /** One more first edge, with everything behind it. */
  lemma {:induction false} RoutesSnoc(c: Config, owners: seq<seq<RawEdge>>, q: Query, sorted: bool, firsts: seq<Place>, routes: seq<Route>,
                                      cs: seq<Candidate>, p: Place, h: Hit, seconds: seq<Place>, hits: seq<Hit>)
    requires c.Valid() && AllKnown(c, owners) && q.relation2 in c.relations && Starts(c, owners, q, p, h) && h.target >= 0
    requires RoutesTo(c, owners, q, sorted, firsts, routes, cs)
    requires forall f :: f in firsts ==> Earlier(c, owners, sorted, f, p)
    requires FedLists(c, owners, sorted, Key(h.target, c.relations[q.relation2]), |owners|, seconds, hits)
    ensures RoutesTo(c, owners, q, sorted, firsts + [p], routes + RoutesVia(p, seconds), cs + Extend(h, hits))
  {
    var next, more := routes + RoutesVia(p, seconds), cs + Extend(h, hits);
    hide Starts, Earlier, CandidateIs, Asked, HitAt, AllKnown, Config.Valid, Under;
    forall t | 0 <= t < |next|
      ensures next[t].first in firsts + [p] && CandidateIs(c, owners, q, next[t], more[t])
    {
      if t >= |routes| {
        SecondIs(c, owners, q, p, h, seconds[t - |routes|], hits[t - |routes|]);
      }
    }
    forall r: Route | Asked(owners, q, r) && r.first in firsts + [p]
      ensures r in next
    {
      if r.first in firsts {
        assert r in routes;
      } else {
        SecondListed(c, owners, q, p, h, r);
        assert r.second in seconds by {
          SecondHeld(c, owners, sorted, Key(h.target, c.relations[q.relation2]), seconds, hits, r.second);
        }
        var u :| 0 <= u < |seconds| && seconds[u] == r.second;
        assert next[|routes| + u] == r;
      }
    }
    forall s, t | 0 <= s < t < |next|
      ensures RouteEarlier(c, owners, sorted, next[s], next[t])
    {
      if t < |routes| {
        assert RouteEarlier(c, owners, sorted, routes[s], routes[t]);
      } else if s < |routes| {
        assert routes[s].first in firsts;
      } else {
        assert Earlier(c, owners, sorted, seconds[s - |routes|], seconds[t - |routes|]);
      }
    }
    hide FedLists, RouteEarlier;
  }

  lemma {:induction false} SecondHeld(c: Config, owners: seq<seq<RawEdge>>, sorted: bool, key: Key, seconds: seq<Place>, hits: seq<Hit>, x: Place)
    requires FedLists(c, owners, sorted, key, |owners|, seconds, hits) && Exists(owners, x) && Under(c, EdgeAt(owners, x), key)
    ensures x in seconds
  {
  }

  /** What a listing says about one of its edges. */
  lemma {:induction false} FirstStarts(c: Config, owners: seq<seq<RawEdge>>, q: Query, sorted: bool, firsts: seq<Place>, hits: seq<Hit>, m: nat)
    requires c.Valid() && q.source in c.entities && q.relation1 in c.relations && m < |firsts|
    requires FedLists(c, owners, sorted, Key(c.entities[q.source], c.relations[q.relation1]), |owners|, firsts, hits)
    ensures |hits| == |firsts| && Starts(c, owners, q, firsts[m], hits[m]) && hits[m].target >= 0
    ensures forall f :: f in firsts[..m] ==> Earlier(c, owners, sorted, f, firsts[m])
  {
    assert HitAt(c, owners, Key(c.entities[q.source], c.relations[q.relation1]), |owners|, firsts[m], hits[m]);
    UnderNames(c, EdgeAt(owners, firsts[m]), q.source, q.relation1);
    hide Config.Valid, Earlier;
  }

  /** The paths through the first edges are the routes through them. */
  lemma {:induction false} PathsAreRoutes(c: Config, owners: seq<seq<RawEdge>>, q: Query, sorted: bool, firsts: seq<Place>, hits: seq<Hit>,
                                          second: int -> seq<Hit>, m: nat) returns (routes: seq<Route>)
    requires c.Valid() && AllKnown(c, owners) && QueryKnown(c, q) && m <= |firsts|
    requires FedLists(c, owners, sorted, Key(c.entities[q.source], c.relations[q.relation1]), |owners|, firsts, hits)
    requires forall target: nat :: Enumerates(c, owners, sorted, Key(target, c.relations[q.relation2]), second(target))
    ensures |hits| == |firsts| && RoutesTo(c, owners, q, sorted, firsts[..m], routes, Paths(hits[..m], second))
    decreases m, 0
  {
    assert |hits| == |firsts|;
    if m > 0 {
      routes := MoreRoutes(c, owners, q, sorted, firsts, hits, second, m - 1);
    } else {
      routes := [];
    }
  }

  lemma {:induction false} MoreRoutes(c: Config, owners: seq<seq<RawEdge>>, q: Query, sorted: bool, firsts: seq<Place>, hits: seq<Hit>,
                                      second: int -> seq<Hit>, m: nat) returns (routes: seq<Route>)
    requires c.Valid() && AllKnown(c, owners) && QueryKnown(c, q) && m < |firsts|
    requires FedLists(c, owners, sorted, Key(c.entities[q.source], c.relations[q.relation1]), |owners|, firsts, hits)
    requires forall target: nat :: Enumerates(c, owners, sorted, Key(target, c.relations[q.relation2]), second(target))
    ensures |hits| == |firsts| && RoutesTo(c, owners, q, sorted, firsts[..m + 1], routes, Paths(hits[..m + 1], second))
    decreases m, 1
  {
    var seconds := FirstFollowed(c, owners, q, sorted, firsts, hits, second, m);
    assert q.relation2 in c.relations;
    hide *;
    var before := PathsAreRoutes(c, owners, q, sorted, firsts, hits, second, m);
    RoutesSnoc(c, owners, q, sorted, firsts[..m], before, Paths(hits[..m], second), firsts[m], hits[m], seconds, second(hits[m].target));
    routes := before + RoutesVia(firsts[m], seconds);
  }

  /** What follows the `m`-th first edge. */
  lemma {:induction false} FirstFollowed(c: Config, owners: seq<seq<RawEdge>>, q: Query, sorted: bool, firsts: seq<Place>, hits: seq<Hit>,
                                         second: int -> seq<Hit>, m: nat) returns (seconds: seq<Place>)
    requires c.Valid() && QueryKnown(c, q) && m < |firsts|
    requires FedLists(c, owners, sorted, Key(c.entities[q.source], c.relations[q.relation1]), |owners|, firsts, hits)
    requires forall target: nat :: Enumerates(c, owners, sorted, Key(target, c.relations[q.relation2]), second(target))
    ensures |hits| == |firsts| && Starts(c, owners, q, firsts[m], hits[m]) && hits[m].target >= 0
    ensures forall f :: f in firsts[..m] ==> Earlier(c, owners, sorted, f, firsts[m])
    ensures FedLists(c, owners, sorted, Key(hits[m].target, c.relations[q.relation2]), |owners|, seconds, second(hits[m].target))
    ensures firsts[..m + 1] == firsts[..m] + [firsts[m]]
    ensures Paths(hits[..m + 1], second) == Paths(hits[..m], second) + Extend(hits[m], second(hits[m].target))
  {
    FirstStarts(c, owners, q, sorted, firsts, hits, m);
    assert QueryKnown(c, q);
    hide *;
    assert Enumerates(c, owners, sorted, Key(hits[m].target, c.relations[q.relation2]), second(hits[m].target));
    seconds := Listed(c, owners, sorted, Key(hits[m].target, c.relations[q.relation2]), second(hits[m].target));
    FirstsSnoc(firsts, hits, second, m);
  }

  lemma {:induction false} Listed(c: Config, owners: seq<seq<RawEdge>>, sorted: bool, key: Key, hits: seq<Hit>) returns (places: seq<Place>)
    requires Enumerates(c, owners, sorted, key, hits)
    ensures FedLists(c, owners, sorted, key, |owners|, places, hits)
  {
    places :| FedLists(c, owners, sorted, key, |owners|, places, hits);
    hide FedLists;
  }

  lemma {:induction false} FirstsSnoc(firsts: seq<Place>, hits: seq<Hit>, second: int -> seq<Hit>, m: nat)
    requires m < |firsts| == |hits|
    ensures firsts[..m + 1] == firsts[..m] + [firsts[m]]
    ensures Paths(hits[..m + 1], second) == Paths(hits[..m], second) + Extend(hits[m], second(hits[m].target))
  {
    PathsSnoc(hits[..m], hits[m], second);
    assert hits[..m + 1] == hits[..m] + [hits[m]];
  }

  // --- The rows -------------------------------------------------------------------------------------------

  /** Candidates that stand for every route of the query. */
  ghost predicate AllRoutes(c: Config, owners: seq<seq<RawEdge>>, q: Query, sorted: bool, routes: seq<Route>, cs: seq<Candidate>) {
    && |routes| == |cs|
    && (forall t :: 0 <= t < |routes| ==> CandidateIs(c, owners, q, routes[t], cs[t]))
    && (forall r: Route :: Asked(owners, q, r) ==> r in routes)
    && forall s, t :: 0 <= s < t < |routes| ==> RouteEarlier(c, owners, sorted, routes[s], routes[t])
  }

  lemma {:induction false} AllAreRoutes(c: Config, owners: seq<seq<RawEdge>>, q: Query, sorted: bool, hits: seq<Hit>, second: int -> seq<Hit>)
    returns (routes: seq<Route>)
    requires c.Valid() && AllKnown(c, owners) && QueryKnown(c, q)
    requires Enumerates(c, owners, sorted, Key(c.entities[q.source], c.relations[q.relation1]), hits)
    requires forall target: nat :: Enumerates(c, owners, sorted, Key(target, c.relations[q.relation2]), second(target))
    ensures AllRoutes(c, owners, q, sorted, routes, Paths(hits, second))
  {
    var key := Key(c.entities[q.source], c.relations[q.relation1]);
    var firsts: seq<Place> :| FedLists(c, owners, sorted, key, |owners|, firsts, hits);
    routes := PathsAreRoutes(c, owners, q, sorted, firsts, hits, second, |firsts|);
    assert firsts[..|firsts|] == firsts && hits[..|hits|] == hits;
    forall r: Route | Asked(owners, q, r)
      ensures r in routes
    {
      assert Usable(c, owners[r.first.owner]);
      UnderNames(c, EdgeAt(owners, r.first), q.source, q.relation1);
      SecondHeld(c, owners, sorted, key, firsts, hits, r.first);
      hide FedLists, Asked, CandidateIs, RouteEarlier;
    }
    hide *;
    RoutesAreAll(c, owners, q, sorted, firsts, routes, Paths(hits, second));
  }

  lemma {:induction false} RoutesAreAll(c: Config, owners: seq<seq<RawEdge>>, q: Query, sorted: bool, firsts: seq<Place>, routes: seq<Route>, cs: seq<Candidate>)
    requires RoutesTo(c, owners, q, sorted, firsts, routes, cs) && forall r: Route :: Asked(owners, q, r) ==> r in routes
    ensures AllRoutes(c, owners, q, sorted, routes, cs)
  {
    hide Asked, CandidateIs, RouteEarlier;
  }

  function RoutesAt(routes: seq<Route>, picks: seq<nat>): (r: seq<Route>)
    requires forall t :: 0 <= t < |picks| ==> picks[t] < |routes|
    ensures |r| == |picks| && forall t :: 0 <= t < |r| ==> r[t] == routes[picks[t]]
  {
    seq(|picks|, t requires 0 <= t < |picks| => routes[picks[t]])
  }

  lemma {:induction false} RouteTaken(routes: seq<Route>, picks: seq<nat>, i: nat)
    requires (forall t :: 0 <= t < |picks| ==> picks[t] < |routes|) && i in picks
    ensures i < |routes| && routes[i] in RoutesAt(routes, picks)
  {
    var t :| 0 <= t < |picks| && picks[t] == i;
    assert RoutesAt(routes, picks)[t] == routes[i];
  }

  /** Between candidates and between their routes, the same one wins. */
  lemma {:induction false} BeatsOutranks(c: Config, owners: seq<seq<RawEdge>>, q: Query, sorted: bool, routes: seq<Route>, cs: seq<Candidate>, i: nat, j: nat)
    requires AllRoutes(c, owners, q, sorted, routes, cs) && Beats(cs, i, j) && AllKnown(c, owners) && c.Valid()
    ensures i < |routes| && j < |routes| && Outranks(c, owners, q, sorted, routes[i], routes[j])
    ensures SameTerminal(owners, q, routes[i], routes[j]) <==> cs[i].terminal == cs[j].terminal
  {
    assert CandidateIs(c, owners, q, routes[i], cs[i]) && CandidateIs(c, owners, q, routes[j], cs[j]);
    hide RouteEarlier, AllKnown;
  }

  lemma {:induction false} PickIsRow(c: Config, owners: seq<seq<RawEdge>>, q: Query, sorted: bool, routes: seq<Route>, cs: seq<Candidate>, i: nat)
    requires AllRoutes(c, owners, q, sorted, routes, cs) && i < |cs|
    ensures RowOfRoute(owners, q, routes[i], RowOf(cs[i]))
  {
    assert CandidateIs(c, owners, q, routes[i], cs[i]);
    hide RouteEarlier;
  }

  lemma {:induction false} RouteIsOut(c: Config, owners: seq<seq<RawEdge>>, q: Query, sorted: bool, routes: seq<Route>, cs: seq<Candidate>, picks: seq<nat>, s: Route)
    requires AllRoutes(c, owners, q, sorted, routes, cs) && Picks(cs, c.topK, c.dedup, picks) && AllKnown(c, owners) && c.Valid()
    requires (forall t :: 0 <= t < |picks| ==> picks[t] < |routes|) && Asked(owners, q, s) && s !in RoutesAt(routes, picks)
    ensures OutOfAnswer(c, owners, q, sorted, RoutesAt(routes, picks), s)
  {
    var chosen := RoutesAt(routes, picks);
    assert s in routes;
    var i :| 0 <= i < |routes| && routes[i] == s;
    assert i !in picks by {
      if i in picks {
        RouteTaken(routes, picks, i);
      }
    }
    assert |routes| == |cs|;
    PicksPassed(cs, c.topK, c.dedup, picks, i);
    hide AllRoutes, Picks, Beats, Outranks, SameTerminal, Asked, AllKnown, Config.Valid;
    forall t | 0 <= t < |picks| && Beats(cs, picks[t], i)
      ensures Outranks(c, owners, q, sorted, chosen[t], s)
      ensures picks[t] < |cs| && (SameTerminal(owners, q, chosen[t], s) <==> cs[picks[t]].terminal == cs[i].terminal)
    {
      assert picks[t] < |cs|;
      BeatsOutranks(c, owners, q, sorted, routes, cs, picks[t], i);
    }
    if c.dedup && exists t :: 0 <= t < |picks| && Beats(cs, picks[t], i) && cs[picks[t]].terminal == cs[i].terminal {
      var t :| 0 <= t < |picks| && Beats(cs, picks[t], i) && cs[picks[t]].terminal == cs[i].terminal;
      assert Outranks(c, owners, q, sorted, chosen[t], s) && SameTerminal(owners, q, chosen[t], s);
    }
  }

  /** The best rows of all routes are the answer on raw edges. */
  lemma {:induction false} TopKIsRaw(c: Config, owners: seq<seq<RawEdge>>, q: Query, sorted: bool, routes: seq<Route>, cs: seq<Candidate>)
    requires AllRoutes(c, owners, q, sorted, routes, cs) && AllKnown(c, owners) && c.Valid()
    ensures RawRows(c, owners, q, sorted, TopK(cs, c.topK, c.dedup))
  {
    var picks := GreedyPicks(cs, c.topK, c.dedup);
    PicksAt(cs, c.topK, c.dedup, picks);
    assert |routes| == |cs|;
    var chosen := RoutesAt(routes, picks);
    var rows := TopK(cs, c.topK, c.dedup);
    TopKTaken(cs, c.topK, c.dedup, picks);
    hide *;
    forall t | 0 <= t < |chosen|
      ensures RowOfRoute(owners, q, chosen[t], rows[t])
    {
      PickIsRow(c, owners, q, sorted, routes, cs, picks[t]);
    }
    forall s, t | 0 <= s < t < |chosen|
      ensures RoutesOrdered(c, owners, q, sorted, chosen[s], chosen[t])
    {
      PicksPair(cs, c.topK, c.dedup, picks, s, t);
      BeatsOutranks(c, owners, q, sorted, routes, cs, picks[s], picks[t]);
      OrderedIs(c, owners, q, sorted, chosen[s], chosen[t]);
    }
    forall s: Route | Asked(owners, q, s) && s !in chosen
      ensures OutOfAnswer(c, owners, q, sorted, chosen, s)
    {
      RouteIsOut(c, owners, q, sorted, routes, cs, picks, s);
    }
    AnswerIs(c, owners, q, sorted, chosen, rows);
  }

  lemma {:induction false} OrderedIs(c: Config, owners: seq<seq<RawEdge>>, q: Query, sorted: bool, r: Route, s: Route)
    requires Outranks(c, owners, q, sorted, r, s) && (c.dedup ==> !SameTerminal(owners, q, r, s))
    ensures RoutesOrdered(c, owners, q, sorted, r, s)
  {
  }

  lemma {:induction false} TopKTaken(cs: seq<Candidate>, k: nat, dedup: bool, picks: seq<nat>)
    requires Greedy(cs, k, dedup) == Taken(cs, picks) && |picks| <= k && forall t :: 0 <= t < |picks| ==> picks[t] < |cs|
    ensures |TopK(cs, k, dedup)| == k
    ensures forall t :: 0 <= t < |picks| ==> TopK(cs, k, dedup)[t] == RowOf(cs[picks[t]])
    ensures forall t :: |picks| <= t < k ==> NoRow(TopK(cs, k, dedup)[t])
  {
    hide Greedy, RowOf;
  }

  lemma {:induction false} AnswerIs(c: Config, owners: seq<seq<RawEdge>>, q: Query, sorted: bool, picks: seq<Route>, rows: seq<Row>)
    requires |rows| == c.topK && |picks| <= c.topK
    requires forall t :: 0 <= t < |picks| ==> RowOfRoute(owners, q, picks[t], rows[t])
    requires forall t :: |picks| <= t < |rows| ==> NoRow(rows[t])
    requires forall s, t :: 0 <= s < t < |picks| ==> RoutesOrdered(c, owners, q, sorted, picks[s], picks[t])
    requires forall s: Route :: Asked(owners, q, s) && s !in picks ==> OutOfAnswer(c, owners, q, sorted, picks, s)
    ensures RawRows(c, owners, q, sorted, rows)
  {
    hide RowOfRoute, NoRow, RoutesOrdered, OutOfAnswer, Asked;
    assert PickedAnswer(c, owners, q, sorted, picks, rows);
  }

  // --- The paged answer -------------------------------------------------------------------------------------

  /**
   * The rows a two-hop query must return, on raw edges: every row is a pair of the
   * federation's edges that the query asks for, and every other such pair is outranked or
   * ends where an outranking row already does.
   */
  lemma {:induction false} QueryRowsAreRaw(c: Config, owners: seq<seq<RawEdge>>, rs: seq<seq<Resolved>>, q: Query)
    requires c.Valid() && QueryKnown(c, q) && Resolves(c, owners, rs)
    ensures RawRows(c, owners, q, true, QueryRows(rs, c.entities[q.source], c.relations[q.relation1], c.relations[q.relation2], c.topK, c.dedup))
  {
    var source, relation1, relation2 := c.entities[q.source], c.relations[q.relation1], c.relations[q.relation2];
    KeyHitsEnumerate(c, owners, rs, Key(source, relation1));
    var second := SecondHop(rs, relation2);
    forall target: nat
      ensures Enumerates(c, owners, true, Key(target, relation2), second(target))
    {
      KeyHitsEnumerate(c, owners, rs, Key(target, relation2));
    }
    assert AllKnown(c, owners);
    hide Enumerates, KeyHits, SecondHop, Resolves, TopK, Config.Valid, AllKnown;
    var routes := AllAreRoutes(c, owners, q, true, KeyHits(rs, Key(source, relation1)), second);
    TopKIsRaw(c, owners, q, true, routes, Paths(KeyHits(rs, Key(source, relation1)), second));
  }

  /**
   * Stored order breaks ties: of two routes with the same total score whose first edges
   * belong to one owner, the one through the smaller middle entity is ranked first, unless an
   * earlier row already ends where it does.
   */
  lemma {:induction false} SmallerMiddleFirst(c: Config, owners: seq<seq<RawEdge>>, q: Query, picks: seq<Route>, rows: seq<Row>, r: Route, t: nat)
    requires AllKnown(c, owners) && PickedAnswer(c, owners, q, true, picks, rows) && t < |picks| && Asked(owners, q, picks[t]) && Asked(owners, q, r)
    requires var a, b := EdgeAt(owners, r.first), EdgeAt(owners, picks[t].first);
      && r.first.owner == picks[t].first.owner && Known(c, a) && Known(c, b) && c.entities[a.target] < c.entities[b.target]
      && a.score + EdgeAt(owners, r.second).score == b.score + EdgeAt(owners, picks[t].second).score
    ensures exists u :: 0 <= u < t && (picks[u] == r || (c.dedup && SameTerminal(owners, q, picks[u], r)))
  {
    assert Outranks(c, owners, q, true, r, picks[t]);
    PickedIsChosen(c, owners, q, true, picks, rows);
    hide Asked, Outranks, SameTerminal, PickedAnswer, AllKnown;
    forall u | t <= u < |picks|
      ensures !Outranks(c, owners, q, true, picks[u], r) && picks[u] != r
    {
      LaterLoses(c, owners, q, true, r, picks, t, u);
      LaterDiffers(c, owners, q, true, r, picks, t, u);
    }
    if r in picks {
      var u :| 0 <= u < |picks| && picks[u] == r;
    } else {
      assert OutOfAnswer(c, owners, q, true, picks, r);
      assert !Outranks(c, owners, q, true, picks[t], r);
      var u :| 0 <= u < |picks| && Outranks(c, owners, q, true, picks[u], r) && SameTerminal(owners, q, picks[u], r);
    }
  }

  lemma {:induction false} LaterDiffers(c: Config, owners: seq<seq<RawEdge>>, q: Query, sorted: bool, r: Route, b: seq<Route>, n: nat, t: nat)
    requires AllKnown(c, owners) && Chosen(c, owners, q, sorted, b) && n <= t < |b| && Outranks(c, owners, q, sorted, r, b[n])
    ensures b[t] != r
  {
    assert Asked(owners, q, r) && Asked(owners, q, b[n]);
    OutranksTotal(c, owners, q, sorted, r, b[n]);
    OutranksTotal(c, owners, q, sorted, r, r);
    if n < t {
      ChosenAt(c, owners, q, sorted, b, n, t);
    }
    hide *;
  }
}
