// Validation and grouping of one owner's raw edges.
module OwnerEdges {
  import opened Wrappers
  import opened PackedEdges
  import opened PageConfig
  import opened Sorting

  datatype RawEdge = RawEdge(source: string, relation: string, target: string, evidence: int, score: int)

  /** A validated edge under its directory key. */
  datatype Resolved = Resolved(key: Key, record: Record)

  predicate Known(c: Config, e: RawEdge) {
    e.source in c.entities && e.target in c.entities && e.relation in c.relations
  }

  function Resolve(c: Config, e: RawEdge): Resolved
    requires Known(c, e) && e.evidence >= 0 && e.score >= 0
  {
    Resolved(Key(c.entities[e.source], c.relations[e.relation]),
             Record(c.entities[e.target], c.relations[e.relation], e.evidence, e.score))
  }

  /** The edge passes every check of the preparation step. */
  ghost predicate Acceptable(c: Config, e: RawEdge) {
    && Known(c, e) && e.evidence > 0 && e.score >= 0
    && c.EdgeWidths().Bits() <= c.usableBits
    && RecordFits(c.EdgeWidths(), Resolve(c, e).record)
  }

  ghost predicate AllAcceptable(c: Config, edges: seq<RawEdge>) {
    forall i :: 0 <= i < |edges| ==> Acceptable(c, edges[i])
  }

  function ResolveAll(c: Config, edges: seq<RawEdge>): (r: seq<Resolved>)
    requires forall i :: 0 <= i < |edges| ==> Known(c, edges[i]) && edges[i].evidence >= 0 && edges[i].score >= 0
    ensures |r| == |edges| && forall i :: 0 <= i < |r| ==> r[i] == Resolve(c, edges[i])
  {
    seq(|edges|, i requires 0 <= i < |edges| => Resolve(c, edges[i]))
  }

  // --- Grouping ----------------------------------------------------------------

  /** The records stored under `key`, in input order. */
  function RecordsAt(rs: seq<Resolved>, key: Key): seq<Record> {
    if rs == [] then []
    else
      var n := |rs| - 1;
      RecordsAt(rs[..n], key) + if rs[n].key == key then [rs[n].record] else []
  }

  /** The keys in use, in order of first appearance. */
  function KeysOf(rs: seq<Resolved>): seq<Key> {
    if rs == [] then []
    else
      var n := |rs| - 1;
      KeysOf(rs[..n]) + if rs[n].key in KeysOf(rs[..n]) then [] else [rs[n].key]
  }

  lemma {:induction false} KeysOfMembers(rs: seq<Resolved>, key: Key)
    ensures key in KeysOf(rs) <==> RecordsAt(rs, key) != []
  {
    if rs != [] {
      KeysOfMembers(rs[..|rs| - 1], key);
    }
  }

  lemma {:induction false} KeysOfDistinct(rs: seq<Resolved>)
    ensures Distinct(KeysOf(rs))
  {
    if rs != [] {
      KeysOfDistinct(rs[..|rs| - 1]);
    }
  }

  lemma {:induction false} RecordsAtMembers(rs: seq<Resolved>, key: Key, e: Record)
    requires e in RecordsAt(rs, key)
    ensures exists i :: 0 <= i < |rs| && rs[i] == Resolved(key, e)
  {
    var n := |rs| - 1;
    if e in RecordsAt(rs[..n], key) {
      RecordsAtMembers(rs[..n], key, e);
      var i :| 0 <= i < n && rs[..n][i] == Resolved(key, e);
      assert rs[i] == Resolved(key, e);
    } else {
      assert rs[n] == Resolved(key, e);
    }
  }

  lemma {:induction false} KeysInUse(rs: seq<Resolved>, key: Key)
    requires key in KeysOf(rs)
    ensures exists i :: 0 <= i < |rs| && rs[i].key == key
  {
    var n := |rs| - 1;
    if key in KeysOf(rs[..n]) {
      KeysInUse(rs[..n], key);
      var i :| 0 <= i < n && rs[..n][i].key == key;
      assert rs[i].key == key;
    } else {
      assert rs[n].key == key;
    }
  }

  /** A dictionary of record lists, with its insertion order. */
  datatype Grouped = Grouped(order: seq<Key>, records: map<Key, seq<Record>>)

  ghost predicate Groups(g: Grouped, rs: seq<Resolved>) {
    && g.order == KeysOf(rs)
    && (forall key :: key in g.records <==> key in KeysOf(rs))
    && (forall key :: key in g.records ==> g.records[key] == RecordsAt(rs, key))
  }

  /** Adding one edge to the dictionary. */
  method AddRecord(g: Grouped, ghost rs: seq<Resolved>, r: Resolved) returns (g': Grouped)
    requires Groups(g, rs)
    ensures Groups(g', rs + [r])
  {
    assert (rs + [r])[..|rs|] == rs;
    if r.key in g.records {
      g' := Grouped(g.order, g.records[r.key := g.records[r.key] + [r.record]]);
    } else {
      KeysOfMembers(rs, r.key);
      g' := Grouped(g.order + [r.key], g.records[r.key := [r.record]]);
    }
    forall key | key in g'.records
      ensures g'.records[key] == RecordsAt(rs + [r], key)
    {
      if key != r.key {
        assert key in g.records;
      }
    }
  }

  /** The checks on one edge, in the source's order. */
  method ResolveEdge(c: Config, e: RawEdge) returns (r: Result<Resolved>)
    ensures r.Ok? <==> Acceptable(c, e)
    ensures r.Ok? ==> r.value == Resolve(c, e)
  {
    if !Known(c, e) {
      return Err(UnknownItem);
    }
    if e.evidence <= 0 || e.score < 0 {
      return Err(BadValue);
    }
    var resolved := Resolve(c, e);
    FitsWidths(c.EdgeWidths(), resolved.record);
    var packed := PackEdge(c.EdgeWidths(), FieldsOf(resolved.record, 1));
    if packed.Err? {
      return Err(packed.error);
    }
    r := Ok(resolved);
  }

  /** The accepted edges of a file, grouped. */
  ghost predicate GroupsFile(c: Config, edges: seq<RawEdge>, g: Grouped) {
    AllAcceptable(c, edges) && Groups(g, ResolveAll(c, edges))
  }

  lemma {:induction false} FileSnoc(c: Config, edges: seq<RawEdge>, n: nat)
    requires n < |edges| && AllAcceptable(c, edges[..n])
    ensures !Acceptable(c, edges[n]) ==> !AllAcceptable(c, edges)
    ensures Acceptable(c, edges[n]) ==>
      AllAcceptable(c, edges[..n + 1]) && ResolveAll(c, edges[..n + 1]) == ResolveAll(c, edges[..n]) + [Resolve(c, edges[n])]
  {
    assert edges[..n + 1] == edges[..n] + [edges[n]];
  }

  /** One more edge. */
  method AddEdge(c: Config, ghost edges: seq<RawEdge>, ghost n: nat, g: Grouped, e: RawEdge) returns (r: Result<Grouped>)
    requires n < |edges| && e == edges[n] && GroupsFile(c, edges[..n], g)
    ensures r.Err? ==> !AllAcceptable(c, edges)
    ensures r.Ok? ==> GroupsFile(c, edges[..n + 1], r.value)
  {
    FileSnoc(c, edges, n);
    hide Groups, Acceptable;
    var resolved := ResolveEdge(c, e);
    if resolved.Err? {
      return Err(resolved.error);
    }
    var next := AddRecord(g, ResolveAll(c, edges[..n]), resolved.value);
    r := Ok(next);
  }

  /** Validate the edges and group them by (source, relation); the first bad edge is an error. */
  method GroupEdges(c: Config, edges: seq<RawEdge>) returns (r: Result<Grouped>)
    requires c.Valid()
    ensures r.Ok? <==> AllAcceptable(c, edges)
    ensures r.Ok? ==> Groups(r.value, ResolveAll(c, edges))
  {
    var g := Grouped([], map[]);
    assert GroupsFile(c, edges[..0], g);
    hide AllAcceptable, Groups, ResolveAll, Config.Valid;
    for i := 0 to |edges|
      invariant GroupsFile(c, edges[..i], g)
    {
      var next := AddEdge(c, edges, i, g, edges[i]);
      if next.Err? {
        return Err(next.error);
      }
      g := next.value;
    }
    assert edges[..|edges|] == edges;
    r := Ok(g);
  }

  /** What every edge that survives validation satisfies. */
  lemma {:induction false} ResolvedFacts(c: Config, edges: seq<RawEdge>, i: nat)
    requires c.Valid() && AllAcceptable(c, edges) && i < |edges|
    ensures var r := ResolveAll(c, edges)[i];
      && c.InRange(r.key) && RecordFits(c.EdgeWidths(), r.record)
      && 1 <= r.record.target < c.EntityCount() && r.record.evidence > 0
  {
    assert Acceptable(c, edges[i]);
  }

  // --- The orders the layout sorts by ---------------------------------------------

  predicate KeyAtMost(a: Key, b: Key) {
    a.source < b.source || (a.source == b.source && a.relation <= b.relation)
  }

  predicate RecordAtMost(a: Record, b: Record) {
    a.target < b.target || (a.target == b.target &&
    (a.relation < b.relation || (a.relation == b.relation &&
    (a.evidence < b.evidence || (a.evidence == b.evidence && a.score <= b.score)))))
  }

  lemma {:induction false} OrdersAreTotal()
    ensures TotalOrder(KeyAtMost) && TotalOrder(RecordAtMost)
  {
  }

  /** The records of a key in their stored order. */
  function SortedAt(rs: seq<Resolved>, key: Key): seq<Record> {
    SortBy(RecordsAt(rs, key), RecordAtMost)
  }

  /** The keys in the order their pages are laid out. */
  function SortedKeys(rs: seq<Resolved>): seq<Key> {
    SortBy(KeysOf(rs), KeyAtMost)
  }

  lemma {:induction false} SortedKeysFacts(rs: seq<Resolved>)
    ensures Distinct(SortedKeys(rs))
    ensures forall key :: key in SortedKeys(rs) <==> RecordsAt(rs, key) != []
  {
    OrdersAreTotal();
    KeysOfDistinct(rs);
    SortByDistinct(KeysOf(rs), KeyAtMost);
    forall key
      ensures key in SortedKeys(rs) <==> RecordsAt(rs, key) != []
    {
      SortByMembers(KeysOf(rs), KeyAtMost, key);
      KeysOfMembers(rs, key);
    }
  }
}
