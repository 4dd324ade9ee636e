// The meaning of a query on the owners' raw edges, independent of any layout.
module GraphAnswer {
  import opened Ranking
  import opened TwoHop
  import opened PackedEdges
  import opened PageConfig
  import opened OwnerEdges

  datatype Query = Query(source: string, relation1: string, relation2: string)

  predicate QueryKnown(c: Config, q: Query) {
    q.source in c.entities && q.relation1 in c.relations && q.relation2 in c.relations
  }

  function HitOf(e: Record): Hit {
    Hit(e.target, e.evidence, e.score)
  }

  function HitsOf(records: seq<Record>): (r: seq<Hit>)
    ensures |r| == |records| && forall i :: 0 <= i < |r| ==> r[i] == HitOf(records[i])
  {
    seq(|records|, i requires 0 <= i < |records| => HitOf(records[i]))
  }

  /** The federation's edges under `key`: owner by owner, each owner's in sorted order. */
  function KeyHits(owners: seq<seq<Resolved>>, key: Key): seq<Hit> {
    if owners == [] then []
    else KeyHits(owners[..|owners| - 1], key) + HitsOf(SortedAt(owners[|owners| - 1], key))
  }

  /** The second hop from a target reached by the first. */
  function SecondHop(owners: seq<seq<Resolved>>, relation: nat): int -> seq<Hit> {
    target => if target < 0 then [] else KeyHits(owners, Key(target, relation))
  }

  /** The paths of a two-hop query. */
  function QueryPaths(owners: seq<seq<Resolved>>, source: nat, relation1: nat, relation2: nat): seq<Candidate> {
    Paths(KeyHits(owners, Key(source, relation1)), SecondHop(owners, relation2))
  }

  /** The rows a two-hop query must return. */
  function QueryRows(owners: seq<seq<Resolved>>, source: nat, relation1: nat, relation2: nat, k: nat, dedup: bool): seq<Row> {
    TopK(QueryPaths(owners, source, relation1, relation2), k, dedup)
  }
}
