// The edges of one key, as they are listed: in file order, or in the stored order.
// Everything here is about the raw edges' own fields.
module KeyListing {
  import opened PackedEdges
  import opened PageConfig
  import opened Sorting
  import opened Bags
  import opened OwnerEdges

  /** The edge's source and relation are the key. */
  ghost predicate Under(c: Config, e: RawEdge, key: Key) {
    Known(c, e) && c.entities[e.source] == key.source && c.relations[e.relation] == key.relation
  }

  /** Ascending target, then relation, then evidence, then score, then place in the file. */
  ghost predicate StoredBefore(c: Config, a: RawEdge, i: nat, b: RawEdge, j: nat)
    requires Known(c, a) && Known(c, b)
  {
    || c.entities[a.target] < c.entities[b.target]
    || (c.entities[a.target] == c.entities[b.target] &&
        (|| c.relations[a.relation] < c.relations[b.relation]
         || (c.relations[a.relation] == c.relations[b.relation] &&
             (|| a.evidence < b.evidence
              || (a.evidence == b.evidence && (a.score < b.score || (a.score == b.score && i < j)))))))
  }

  /** Edge `i` of a file is listed before edge `j`. */
  ghost predicate Before(c: Config, edges: seq<RawEdge>, sorted: bool, i: nat, j: nat) {
    && i < |edges| && j < |edges| && Known(c, edges[i]) && Known(c, edges[j])
    && if sorted then StoredBefore(c, edges[i], i, edges[j], j) else i < j
  }

  /** Every edge of the key once, in order. */
  ghost predicate Lists(c: Config, edges: seq<RawEdge>, sorted: bool, key: Key, at: seq<nat>) {
    && (forall t :: 0 <= t < |at| ==> at[t] < |edges| && Under(c, edges[at[t]], key))
    && (forall i: nat :: i < |edges| && Under(c, edges[i], key) ==> i in at)
    && forall s, t :: 0 <= s < t < |at| ==> Before(c, edges, sorted, at[s], at[t])
  }

  /** A record holds the edge's target, relation, evidence and score. */
  ghost predicate RecordIs(c: Config, e: RawEdge, r: Record) {
    && Known(c, e) && r.target == c.entities[e.target] && r.relation == c.relations[e.relation]
    && r.evidence == e.evidence && r.score == e.score
  }

  ghost predicate RecordsAre(c: Config, edges: seq<RawEdge>, at: seq<nat>, records: seq<Record>) {
    |records| == |at| && forall t :: 0 <= t < |at| ==> at[t] < |edges| && RecordIs(c, edges[at[t]], records[t])
  }

  /** Edges that resolve. */
  ghost predicate Usable(c: Config, edges: seq<RawEdge>) {
    forall i :: 0 <= i < |edges| ==> Known(c, edges[i]) && edges[i].evidence >= 0 && edges[i].score >= 0
  }

  // --- File order -------------------------------------------------------------------------------

  lemma {:induction false} ListsSnoc(c: Config, edges: seq<RawEdge>, key: Key, at: seq<nat>, e: RawEdge)
    requires Lists(c, edges, false, key, at) && Known(c, e)
    ensures !Under(c, e, key) ==> Lists(c, edges + [e], false, key, at)
    ensures Under(c, e, key) ==> Lists(c, edges + [e], false, key, at + [|edges|])
  {
    assert forall i: nat :: i < |edges| ==> (edges + [e])[i] == edges[i];
    forall s, t | 0 <= s < t < |at|
      ensures Before(c, edges + [e], false, at[s], at[t])
    {
      assert Before(c, edges, false, at[s], at[t]);
    }
    assert (at + [|edges|])[|at|] == |edges|;
  }

  lemma {:induction false} RecordsSnoc(c: Config, edges: seq<RawEdge>, at: seq<nat>, records: seq<Record>, e: RawEdge, r: Record)
    requires RecordsAre(c, edges, at, records)
    ensures RecordsAre(c, edges + [e], at, records)
    ensures RecordIs(c, e, r) ==> RecordsAre(c, edges + [e], at + [|edges|], records + [r])
  {
  }

  lemma {:induction false} ResolvedLast(c: Config, edges: seq<RawEdge>, key: Key)
    requires Usable(c, edges) && edges != []
    ensures var n := |edges| - 1; var e := edges[n];
      && edges == edges[..n] + [e] && Usable(c, edges[..n]) && Known(c, e) && RecordIs(c, e, Resolve(c, e).record)
      && RecordsAt(ResolveAll(c, edges), key)
         == RecordsAt(ResolveAll(c, edges[..n]), key) + if Under(c, e, key) then [Resolve(c, e).record] else []
  {
    var n := |edges| - 1;
    assert ResolveAll(c, edges)[..n] == ResolveAll(c, edges[..n]);
  }

  /** The records of a key are its edges in file order. */
  lemma {:induction false} FileListing(c: Config, edges: seq<RawEdge>, key: Key) returns (at: seq<nat>)
    requires Usable(c, edges)
    ensures Lists(c, edges, false, key, at) && RecordsAre(c, edges, at, RecordsAt(ResolveAll(c, edges), key))
  {
    at := [];
    if edges != [] {
      var n := |edges| - 1;
      ResolvedLast(c, edges, key);
      hide Lists, RecordsAre, RecordsAt, Under, Usable;
      at := FileListing(c, edges[..n], key);
      ListsSnoc(c, edges[..n], key, at, edges[n]);
      RecordsSnoc(c, edges[..n], at, RecordsAt(ResolveAll(c, edges[..n]), key), edges[n], Resolve(c, edges[n]).record);
      if Under(c, edges[n], key) {
        at := at + [n];
      }
    }
  }

  // --- Stored order -----------------------------------------------------------------------------

  /** A record with its place in the file. */
  datatype Tag = Tag(record: Record, index: nat)

  predicate TagAtMost(a: Tag, b: Tag) {
    var r, s := a.record, b.record;
    r.target < s.target || (r.target == s.target &&
    (r.relation < s.relation || (r.relation == s.relation &&
    (r.evidence < s.evidence || (r.evidence == s.evidence &&
    (r.score < s.score || (r.score == s.score && a.index <= b.index)))))))
  }

  lemma {:induction false} TagsAreTotal()
    ensures TotalOrder(TagAtMost)
  {
  }

  function Tags(records: seq<Record>, at: seq<nat>): (r: seq<Tag>)
    requires |records| == |at|
    ensures |r| == |at| && forall t :: 0 <= t < |r| ==> r[t] == Tag(records[t], at[t])
  {
    seq(|at|, t requires 0 <= t < |at| => Tag(records[t], at[t]))
  }

  function Untag(tags: seq<Tag>): (r: seq<Record>)
    ensures |r| == |tags| && forall t :: 0 <= t < |r| ==> r[t] == tags[t].record
  {
    seq(|tags|, t requires 0 <= t < |tags| => tags[t].record)
  }

  function Places(tags: seq<Tag>): (r: seq<nat>)
    ensures |r| == |tags| && forall t :: 0 <= t < |r| ==> r[t] == tags[t].index
  {
    seq(|tags|, t requires 0 <= t < |tags| => tags[t].index)
  }

  function RecordBag(): Tag -> seq<Record> {
    (t: Tag) => [t.record]
  }

  lemma {:induction false} UntagBag(tags: seq<Tag>)
    ensures multiset(Untag(tags)) == Bag(tags, RecordBag())
  {
    if tags != [] {
      var n := |tags| - 1;
      UntagBag(tags[..n]);
      assert Untag(tags) == Untag(tags[..n]) + [tags[n].record];
    }
  }

  /** Sorting the tagged records sorts the records. */
  lemma {:induction false} SortedTags(records: seq<Record>, at: seq<nat>)
    requires |records| == |at|
    ensures Untag(SortBy(Tags(records, at), TagAtMost)) == SortBy(records, RecordAtMost)
  {
    var tags := Tags(records, at);
    var sorted := SortBy(tags, TagAtMost);
    TagsAreTotal();
    OrdersAreTotal();
    SortBySorted(tags, TagAtMost);
    SortBySorted(records, RecordAtMost);
    assert Untag(tags) == records;
    UntagBag(tags);
    UntagBag(sorted);
    BagPermute(tags, sorted, RecordBag());
    UntagSorted(sorted);
    hide *;
    SortedUnique(Untag(sorted), SortBy(records, RecordAtMost), RecordAtMost);
  }

  lemma {:induction false} UntagSorted(tags: seq<Tag>)
    requires SortedBy(tags, TagAtMost)
    ensures SortedBy(Untag(tags), RecordAtMost)
  {
  }

  /** The records of a key in stored order are its edges in ascending order of their fields. */
  lemma {:induction false} StoredListing(c: Config, edges: seq<RawEdge>, key: Key) returns (at: seq<nat>)
    requires Usable(c, edges)
    ensures Lists(c, edges, true, key, at) && RecordsAre(c, edges, at, SortedAt(ResolveAll(c, edges), key))
  {
    var records := RecordsAt(ResolveAll(c, edges), key);
    var file := FileListing(c, edges, key);
    assert |records| == |file|;
    var tags := Tags(records, file);
    var sorted := SortBy(tags, TagAtMost);
    at := Places(sorted);
    SortedTags(records, file);
    TagsAreTotal();
    SortBySorted(tags, TagAtMost);
    SortedDistinct(c, edges, key, records, file);
    forall tag: Tag
      ensures tag in sorted <==> tag in tags
    {
      SortByMembers(tags, TagAtMost, tag);
    }
    hide SortBy, TotalOrder, TagAtMost, RecordsAt;
    SortedLists(c, edges, key, records, file, sorted);
  }

  lemma {:induction false} SortedDistinct(c: Config, edges: seq<RawEdge>, key: Key, records: seq<Record>, file: seq<nat>)
    requires Lists(c, edges, false, key, file) && |records| == |file|
    ensures Distinct(SortBy(Tags(records, file), TagAtMost))
  {
    TagsAreTotal();
    var tags := Tags(records, file);
    forall s, t | 0 <= s < t < |tags|
      ensures tags[s] != tags[t]
    {
      assert Before(c, edges, false, file[s], file[t]);
    }
    SortByDistinct(tags, TagAtMost);
  }

  /** A tag of the listing stands for its own edge. */
  ghost predicate TagIs(c: Config, edges: seq<RawEdge>, key: Key, tag: Tag) {
    tag.index < |edges| && Under(c, edges[tag.index], key) && RecordIs(c, edges[tag.index], tag.record)
  }

  lemma {:induction false} SortedLists(c: Config, edges: seq<RawEdge>, key: Key, records: seq<Record>, file: seq<nat>, sorted: seq<Tag>)
    requires Lists(c, edges, false, key, file) && RecordsAre(c, edges, file, records)
    requires SortedBy(sorted, TagAtMost) && Distinct(sorted)
    requires forall tag: Tag :: tag in sorted <==> tag in Tags(records, file)
    ensures Lists(c, edges, true, key, Places(sorted)) && RecordsAre(c, edges, Places(sorted), Untag(sorted))
  {
    var at := Places(sorted);
    forall t | 0 <= t < |sorted|
      ensures TagIs(c, edges, key, sorted[t])
    {
      assert sorted[t] in Tags(records, file);
      var u :| 0 <= u < |file| && Tags(records, file)[u] == sorted[t];
    }
    forall i: nat | i < |edges| && Under(c, edges[i], key)
      ensures i in at
    {
      assert i in file;
      var u :| 0 <= u < |file| && file[u] == i;
      assert Tags(records, file)[u] in sorted;
      var t :| 0 <= t < |sorted| && sorted[t] == Tags(records, file)[u];
      assert at[t] == i;
    }
    forall s, t | 0 <= s < t < |at|
      ensures Before(c, edges, true, at[s], at[t])
    {
      TagsInOrder(c, edges, key, sorted[s], sorted[t]);
    }
    hide Under, Before;
  }

  lemma {:induction false} TagsInOrder(c: Config, edges: seq<RawEdge>, key: Key, a: Tag, b: Tag)
    requires TagIs(c, edges, key, a) && TagIs(c, edges, key, b) && TagAtMost(a, b) && a != b
    ensures Before(c, edges, true, a.index, b.index)
  {
  }
}
