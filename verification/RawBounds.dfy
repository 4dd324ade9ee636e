// When an owner's edges fit and when a query's frontier holds, counted on the raw
// edges: how many lie under a key, and how many pages the keys take together.
module RawBounds {
  import opened Bits
  import opened Sorting
  import opened PageConfig
  import opened OwnerEdges
  import opened KeyListing
  import opened PageLayout
  import opened RawAnswer
  import opened TwoHop
  import opened GraphAnswer
  import opened PagedEvaluation
  import opened ScanBuckets

  // --- Counting listed edges ----------------------------------------------------------------------

  ghost function Members<T(!new)>(xs: seq<T>): (s: set<T>)
    ensures forall x :: x in s <==> x in xs
  {
    set x | x in xs
  }

  lemma {:induction false} MembersCount<T(!new)>(xs: seq<T>)
    requires Distinct(xs)
    ensures |Members(xs)| == |xs|
  {
    if xs != [] {
      var n := |xs| - 1;
      MembersCount(xs[..n]);
      assert xs == xs[..n] + [xs[n]];
      assert Members(xs) == Members(xs[..n]) + {xs[n]};
      assert xs[n] !in xs[..n];
    }
  }

  /** The places in the file of the edges under a key. */
  ghost function EdgesUnder(c: Config, edges: seq<RawEdge>, key: Key): (s: set<nat>)
    ensures forall i: nat :: i in s <==> i < |edges| && Under(c, edges[i], key)
  {
    set i: nat | i < |edges| && Under(c, edges[i], key)
  }

  lemma {:induction false} BeforeDiffers(c: Config, edges: seq<RawEdge>, sorted: bool, i: nat)
    ensures !Before(c, edges, sorted, i, i)
  {
  }

  /** A key stores as many records as edges lie under it. */
  lemma {:induction false} StoredCount(c: Config, edges: seq<RawEdge>, key: Key)
    requires Usable(c, edges)
    ensures |SortedAt(ResolveAll(c, edges), key)| == |EdgesUnder(c, edges, key)|
  {
    var at := StoredListing(c, edges, key);
    forall s, t | 0 <= s < t < |at|
      ensures at[s] != at[t]
    {
      BeforeDiffers(c, edges, true, at[s]);
    }
    MembersCount(at);
    assert Members(at) == EdgesUnder(c, edges, key);
    hide SortedAt, Before, Under;
  }

  // --- Counting pages --------------------------------------------------------------------------------

  /** Page `j` of a key is needed. */
  ghost predicate Needed(c: Config, edges: seq<RawEdge>, key: Key, j: nat) {
    Times(j, c.pageSize) < |EdgesUnder(c, edges, key)|
  }

  lemma {:induction false} NeededIs(n: nat, size: nat, j: nat)
    requires size >= 1
    ensures j < PagesNeeded(n, size) <==> Times(j, size) < n
  {
    PagesNeededCovers(n, size);
    var p := PagesNeeded(n, size);
    TimesFacts(j, size);
    if j < p {
      TimesMonotone(j + 1, p, size);
    } else {
      TimesMonotone(p, j, size);
    }
    hide PagesNeeded, Times;
  }

  /** The first `n` entries' pages, as pairs of a key and a page number. */
  ghost function PageSet(entries: seq<PageLayout.Entry>, n: nat, size: nat): set<(Key, nat)>
    requires n <= |entries| && size >= 1
  {
    if n == 0 then {} else PageSet(entries, n - 1, size) + KeyPages(entries[n - 1].key, PagesNeeded(|entries[n - 1].records|, size))
  }

  ghost function KeyPages(key: Key, count: nat): (s: set<(Key, nat)>)
    ensures |s| == count
    ensures forall k, j: nat :: (k, j) in s <==> k == key && j < count
  {
    if count == 0 then {}
    else
      var last: nat := count - 1;
      KeyPages(key, last) + {(key, last)}
  }

  lemma {:induction false} PageSetMembers(entries: seq<PageLayout.Entry>, n: nat, size: nat, key: Key, j: nat)
    requires n <= |entries| && size >= 1
    ensures (key, j) in PageSet(entries, n, size)
       <==> exists i :: 0 <= i < n && entries[i].key == key && j < PagesNeeded(|entries[i].records|, size)
  {
    hide PagesNeeded;
    if n > 0 {
      PageSetMembers(entries, n - 1, size, key, j);
    }
  }

  lemma {:induction false} PageSetCount(entries: seq<PageLayout.Entry>, n: nat, size: nat)
    requires n <= |entries| && size >= 1 && Separate(entries)
    ensures |PageSet(entries, n, size)| == PagesBefore(entries, n, size)
  {
    hide PagesNeeded;
    if n > 0 {
      PageSetCount(entries, n - 1, size);
      var last := KeyPages(entries[n - 1].key, PagesNeeded(|entries[n - 1].records|, size));
      forall x | x in PageSet(entries, n - 1, size)
        ensures x !in last
      {
        PageSetMembers(entries, n - 1, size, x.0, x.1);
      }
      assert PageSet(entries, n - 1, size) !! last;
    }
  }

  /** All pages an owner's keys need. */
  ghost predicate PagesOf(c: Config, edges: seq<RawEdge>, pages: set<(Key, nat)>) {
    forall key, j: nat :: (key, j) in pages <==> Needed(c, edges, key, j)
  }

  /** The laid-out pages are the needed ones. */
  lemma {:induction false} PagesAreNeeded(c: Config, edges: seq<RawEdge>) returns (pages: set<(Key, nat)>)
    requires c.Valid() && AllAcceptable(c, edges)
    ensures PagesOf(c, edges, pages)
    ensures var entries := EntriesOf(ResolveAll(c, edges)); |pages| == PagesBefore(entries, |entries|, c.pageSize)
  {
    var rs := ResolveAll(c, edges);
    var entries := EntriesOf(rs);
    EntriesAreProper(c, edges);
    AcceptableUsable(c, edges);
    SortedKeysFacts(rs);
    assert Separate(entries) && c.pageSize >= 1;
    pages := PageSet(entries, |entries|, c.pageSize);
    PageSetCount(entries, |entries|, c.pageSize);
    forall key, j: nat
      ensures (key, j) in pages <==> Needed(c, edges, key, j)
    {
      EntryPages(c, edges, entries, key, j);
    }
    hide Needed, PageSet, PagesBefore, SortedAt, SortedKeys;
  }

  lemma {:induction false} EntryPages(c: Config, edges: seq<RawEdge>, entries: seq<PageLayout.Entry>, key: Key, j: nat)
    requires c.Valid() && AllAcceptable(c, edges) && entries == EntriesOf(ResolveAll(c, edges))
    ensures (key, j) in PageSet(entries, |entries|, c.pageSize) <==> Needed(c, edges, key, j)
  {
    var rs := ResolveAll(c, edges);
    AcceptableUsable(c, edges);
    StoredCount(c, edges, key);
    SortedKeysFacts(rs);
    SortedNone(rs, key);
    PageSetMembers(entries, |entries|, c.pageSize, key, j);
    NeededIs(|SortedAt(rs, key)|, c.pageSize, j);
    hide PageSet, PagesNeeded, AllAcceptable, Times, SortBy, RecordsAt;
    if Needed(c, edges, key, j) {
      var i :| 0 <= i < |SortedKeys(rs)| && SortedKeys(rs)[i] == key;
      assert entries[i].key == key;
    }
  }

  lemma {:induction false} SortedNone(rs: seq<Resolved>, key: Key)
    ensures RecordsAt(rs, key) == [] <==> |SortedAt(rs, key)| == 0
  {
  }

  // --- Fitting -----------------------------------------------------------------------------------------

  /** One edge of a file is in order: known names, and values within the declared bits. */
  ghost predicate EdgeInOrder(c: Config, e: RawEdge) {
    && e.source in c.entities && e.target in c.entities && e.relation in c.relations
    && 0 < e.evidence < Pow2(c.evidenceBits) && 0 <= e.score < Pow2(c.scoreBits)
  }

  /** No key has more edges than its pages hold or than the declared frontier. */
  ghost predicate KeysInBounds(c: Config, edges: seq<RawEdge>) {
    forall key: Key ::
      |EdgesUnder(c, edges, key)| <= Times(c.pagesPerKey, c.pageSize)
      && (c.frontierPerOwner.Some? ==> |EdgesUnder(c, edges, key)| <= c.frontierPerOwner.value)
  }

  lemma {:induction false} EntryInBounds(c: Config, records: nat)
    requires c.Valid()
    ensures PagesNeeded(records, c.pageSize) <= c.pagesPerKey && records <= c.OwnerFrontier()
       <==> records <= Times(c.pagesPerKey, c.pageSize) && (c.frontierPerOwner.Some? ==> records <= c.frontierPerOwner.value)
  {
    NeededIs(records, c.pageSize, c.pagesPerKey);
    hide PagesNeeded, Times;
  }

  lemma {:induction false} EntriesInBounds(c: Config, edges: seq<RawEdge>)
    requires c.Valid() && AllAcceptable(c, edges)
    ensures var entries := EntriesOf(ResolveAll(c, edges));
      (forall i :: 0 <= i < |entries| ==> EntryFits(c, entries[i])) <==> KeysInBounds(c, edges)
  {
    var rs := ResolveAll(c, edges);
    var entries := EntriesOf(rs);
    AcceptableUsable(c, edges);
    SortedKeysFacts(rs);
    forall key
      ensures |SortedAt(rs, key)| == |EdgesUnder(c, edges, key)|
      ensures RecordsAt(rs, key) == [] <==> |SortedAt(rs, key)| == 0
    {
      StoredCount(c, edges, key);
      SortedNone(rs, key);
    }
    forall n: nat
      ensures PagesNeeded(n, c.pageSize) <= c.pagesPerKey && n <= c.OwnerFrontier()
         <==> n <= Times(c.pagesPerKey, c.pageSize) && (c.frontierPerOwner.Some? ==> n <= c.frontierPerOwner.value)
    {
      EntryInBounds(c, n);
    }
    hide PagesNeeded, Times, SortedAt, RecordsAt, EdgesUnder, Config.OwnerFrontier, AllAcceptable;
    if forall i :: 0 <= i < |entries| ==> EntryFits(c, entries[i]) {
      forall key: Key
        ensures |EdgesUnder(c, edges, key)| <= Times(c.pagesPerKey, c.pageSize)
        ensures c.frontierPerOwner.Some? ==> |EdgesUnder(c, edges, key)| <= c.frontierPerOwner.value
      {
        if key in SortedKeys(rs) {
          var i :| 0 <= i < |SortedKeys(rs)| && SortedKeys(rs)[i] == key;
          assert EntryFits(c, entries[i]) && entries[i].records == SortedAt(rs, key);
        }
      }
    }
  }

  /**
   * An owner's edges are accepted exactly when every edge is in order, a packed edge fits the
   * field, no key exceeds its bounds, and the pages of all keys, with the dummy page, fit the
   * budget.
   */
  lemma {:induction false} OwnerFitsIff(c: Config, edges: seq<RawEdge>) returns (pages: set<(Key, nat)>)
    requires c.Valid()
    ensures OwnerFits(c, edges) ==> PagesOf(c, edges, pages)
    ensures OwnerFits(c, edges) <==>
      && (forall i :: 0 <= i < |edges| ==> EdgeInOrder(c, edges[i]))
      && (edges != [] ==> c.EdgeWidths().Bits() <= c.usableBits)
      && KeysInBounds(c, edges) && PagesOf(c, edges, pages) && 1 + |pages| <= c.pageBudget
  {
    forall i | 0 <= i < |edges|
      ensures Acceptable(c, edges[i]) <==> EdgeInOrder(c, edges[i]) && c.EdgeWidths().Bits() <= c.usableBits
    {
      RawOkIsAcceptable(c, edges[i]);
    }
    pages := {};
    hide Acceptable, EdgeInOrder, Config.Valid, Config.EdgeWidths;
    if AllAcceptable(c, edges) {
      pages := PagesAreNeeded(c, edges);
      EntriesInBounds(c, edges);
    }
    assert AllAcceptable(c, edges) <==>
      (forall i :: 0 <= i < |edges| ==> EdgeInOrder(c, edges[i])) && (edges != [] ==> c.EdgeWidths().Bits() <= c.usableBits);
    hide KeysInBounds, PagesOf, AllAcceptable, EntryFits, PagesBefore, EntriesOf;
  }

  // --- The frontier -------------------------------------------------------------------------------------

  /** The federation's edges of a name and a relation. */
  ghost function FirstEdges(owners: seq<seq<RawEdge>>, source: string, relation: string): (s: set<Place>)
    ensures forall p :: p in s <==> Exists(owners, p) && EdgeAt(owners, p).source == source && EdgeAt(owners, p).relation == relation
  {
    set o: nat, i: nat | o < |owners| && i < |owners[o]| && owners[o][i].source == source && owners[o][i].relation == relation :: Place(o, i)
  }

  /** The oracle's frontier test counts the federation's edges of the query's source and first relation. */
  lemma {:induction false} FrontierIsCount(c: Config, owners: seq<seq<RawEdge>>, q: Query)
    requires c.Valid() && OwnersAcceptable(c, owners) && QueryKnown(c, q)
    ensures FrontierHolds(c, owners, Key(c.entities[q.source], c.relations[q.relation1])) <==>
      (c.globalFrontier.Some? ==> |FirstEdges(owners, q.source, q.relation1)| <= c.globalFrontier.value)
  {
    var key := Key(c.entities[q.source], c.relations[q.relation1]);
    var rs := ResolveOwners(c, owners);
    OwnersResolve(c, owners);
    var places := KeyHitsListed(c, owners, rs, key, |owners|);
    assert rs[..|owners|] == rs;
    PlacesDistinct(c, owners, true, key, places, KeyHits(rs, key));
    MembersCount(places);
    forall p
      ensures p in places <==> p in FirstEdges(owners, q.source, q.relation1)
    {
      PlaceIsFirst(c, owners, q, places, KeyHits(rs, key), p);
    }
    hide FedLists, KeyHits, Exists;
    assert Members(places) == FirstEdges(owners, q.source, q.relation1);
  }

  lemma {:induction false} OwnersResolve(c: Config, owners: seq<seq<RawEdge>>)
    requires OwnersAcceptable(c, owners)
    ensures Resolves(c, owners, ResolveOwners(c, owners))
  {
    forall o | 0 <= o < |owners|
      ensures Usable(c, owners[o]) && AllAcceptable(c, owners[o])
    {
      assert AllAcceptable(c, owners[o]);
      AcceptableUsable(c, owners[o]);
    }
    hide AllAcceptable, Usable;
  }

  lemma {:induction false} PlacesDistinct(c: Config, owners: seq<seq<RawEdge>>, sorted: bool, key: Key, places: seq<Place>, hits: seq<Hit>)
    requires FedLists(c, owners, sorted, key, |owners|, places, hits)
    ensures Distinct(places) && |places| == |hits|
  {
    forall s, t | 0 <= s < t < |places|
      ensures places[s] != places[t]
    {
      assert Earlier(c, owners, sorted, places[s], places[t]);
      if Exists(owners, places[s]) {
        BeforeDiffers(c, owners[places[s].owner], sorted, places[s].index);
      }
    }
  }

  lemma {:induction false} PlaceIsFirst(c: Config, owners: seq<seq<RawEdge>>, q: Query, places: seq<Place>, hits: seq<Hit>, p: Place)
    requires c.Valid() && QueryKnown(c, q) && OwnersAcceptable(c, owners)
    requires FedLists(c, owners, true, Key(c.entities[q.source], c.relations[q.relation1]), |owners|, places, hits)
    ensures p in places <==> p in FirstEdges(owners, q.source, q.relation1)
  {
    var key := Key(c.entities[q.source], c.relations[q.relation1]);
    if p in places {
      var t :| 0 <= t < |places| && places[t] == p;
      assert HitAt(c, owners, key, |owners|, places[t], hits[t]);
      UnderNames(c, EdgeAt(owners, p), q.source, q.relation1);
    }
    if p in FirstEdges(owners, q.source, q.relation1) {
      assert AllAcceptable(c, owners[p.owner]) && Acceptable(c, owners[p.owner][p.index]);
      UnderNames(c, EdgeAt(owners, p), q.source, q.relation1);
      SecondHeld(c, owners, true, key, places, hits, p);
    }
    hide FedLists, Config.Valid;
  }
}
