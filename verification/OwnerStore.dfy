// Where an owner's edges are read from: its page layout directly, or two
// recursive ORAM stacks over the layout's directory and page pool.
module OwnerStore {
  import opened Wrappers
  import opened Bits
  import opened PackedEdges
  import opened PageConfig
  import opened OwnerEdges
  import opened PageLayout
  import opened PagedOracle
  import opened OramStack
  import OramTree

  datatype Store =
    | Scanned(layout: Layout)
    | Orams(layout: Layout, directory: Stack, pages: Stack)

  /** The directory as ORAM records: one descriptor each. */
  function DirectoryRecords(layout: Layout): (r: seq<seq<int>>)
    ensures |r| == |layout.directory| && forall i :: 0 <= i < |r| ==> r[i] == [layout.directory[i]]
  {
    seq(|layout.directory|, i requires 0 <= i < |layout.directory| => [layout.directory[i]])
  }

  ghost predicate StackOver(stack: Stack, records: seq<seq<int>>) {
    exists stored :: StackHolds(stack, stored) && stored[0] == records
  }

  /** A store reads the owner's own lossless layout. */
  ghost predicate StoreHolds(c: Config, rs: seq<Resolved>, store: Store) {
    && Lossless(c, rs, store.layout)
    && (store.Orams? ==>
          && c.addressing.Dense?
          && StackOver(store.directory, DirectoryRecords(store.layout))
          && StackOver(store.pages, store.layout.pages))
  }

  /** `stack_lookup` on a stack known by its records. */
  method Fetch(stack: Stack, ghost records: seq<seq<int>>, index: nat) returns (record: seq<int>)
    requires StackOver(stack, records) && index < |records|
    ensures record == records[index]
  {
    ghost var stored :| StackHolds(stack, stored) && stored[0] == records;
    hide *;
    var r := StackLookup(stack, stored, index);
    record := r.value;
  }

  // --- The dual-ORAM read -----------------------------------------------------------------

  /** The descriptor a dense reader finds. */
  function DenseDescriptor(c: Config, layout: Layout, key: Key): nat
    requires key.relation >= 1
  {
    if c.DenseIndex(key) < |layout.directory| then layout.directory[c.DenseIndex(key)] else 0
  }

  /** The dummy entity's rows are empty, so its window is too. */
  lemma {:induction false} DenseDescriptorIs(c: Config, rs: seq<Resolved>, layout: Layout, key: Key)
    requires c.addressing.Dense? && Lossless(c, rs, layout)
    requires key.source < c.EntityCount() && 1 <= key.relation <= c.RelationCount()
    ensures c.DenseIndex(key) < |layout.directory|
    ensures DenseDescriptor(c, layout, key) == if key.source == 0 then 0 else DescriptorOf(c, layout, key)
  {
    DenseIndexInRange(c, key);
    if key.source == 0 && layout.directory[c.DenseIndex(key)] != 0 {
      var other :| c.InRange(other) && c.Address(other) == Some(c.DenseIndex(key));
      DenseIndexInjective(c, other, key);
    }
  }

  /** The assertions the dual read makes about a descriptor. */
  ghost predicate SoundDescriptor(c: Config, base: nat, count: nat) {
    count <= c.pagesPerKey && (count > 0 ==> 1 <= base < c.pageBudget) && base + count <= c.pageBudget
  }

  lemma {:induction false} StoredDescriptor(c: Config, edges: seq<RawEdge>, layout: Layout, key: Key)
    requires c.addressing.Dense? && c.Valid() && AllAcceptable(c, edges) && Lossless(c, ResolveAll(c, edges), layout)
    requires key.source < c.EntityCount() && 1 <= key.relation <= c.RelationCount()
    ensures c.DenseIndex(key) < |layout.directory|
    ensures var (base, count) := UnpackDescriptor(c, layout.directory[c.DenseIndex(key)]);
      && SoundDescriptor(c, base, count) && base + count <= |layout.pages|
      && (base, count) == UnpackDescriptor(c, if key.source == 0 then 0 else DescriptorOf(c, layout, key))
  {
    DenseDescriptorIs(c, ResolveAll(c, edges), layout, key);
    var (base, count) := UnpackDescriptor(c, layout.directory[c.DenseIndex(key)]);
    KeyWindowContents(c, edges, layout, key, base, count);
    if key.source == 0 {
      EmptyDescriptor(c);
    } else {
      assert ReadsBack(c, ResolveAll(c, edges), layout, key);
    }
  }

  /** One page read of the fixed schedule: the wanted page, or the reserved page 0. */
  method ReadScheduledPage(pages: Stack, ghost pool: seq<seq<nat>>, base: nat, count: nat, offset: nat, size: nat)
    returns (address: nat, page: seq<nat>)
    requires StackOver(pages, pool) && base + count <= |pool| && |pool| >= 1 && pool[0] == Zeros(size)
    ensures address == if offset < count then base + offset else 0
    ensures page == if offset < count then pool[base + offset] else Zeros(size)
  {
    address := if offset < count then base + offset else 0;
    var read := Fetch(pages, pool, address);
    page := read;
  }

  /** The first `n` scheduled page reads. */
  ghost predicate PagesRead(c: Config, layout: Layout, base: nat, count: nat, n: nat, values: seq<nat>, addresses: seq<nat>) {
    && base + count <= |layout.pages| && |addresses| == n
    && (forall j :: 0 <= j < n ==> addresses[j] == if j < count then base + j else 0)
    && values == Window(layout.pages, base, count, n, c.pageSize)
  }

  lemma {:induction false} PagesReadStep(c: Config, layout: Layout, base: nat, count: nat, n: nat, values: seq<nat>, addresses: seq<nat>,
                                         address: nat, page: seq<nat>)
    requires PagesRead(c, layout, base, count, n, values, addresses)
    requires address == if n < count then base + n else 0
    requires page == if n < count then layout.pages[base + n] else Zeros(c.pageSize)
    ensures PagesRead(c, layout, base, count, n + 1, values + page, addresses + [address])
  {
  }

  lemma {:induction false} NoPagesRead(c: Config, layout: Layout, base: nat, count: nat)
    requires base + count <= |layout.pages|
    ensures PagesRead(c, layout, base, count, 0, [], [])
  {
  }

  /** The directory access, with the source's three assertions on what it returned; they can never fire. */
  method ReadDescriptor(c: Config, ghost edges: seq<RawEdge>, store: Store, key: Key) returns (base: nat, count: nat)
    requires c.Valid() && AllAcceptable(c, edges) && StoreHolds(c, ResolveAll(c, edges), store) && store.Orams?
    requires key.source < c.EntityCount() && 1 <= key.relation <= c.RelationCount()
    ensures (base, count) == UnpackDescriptor(c, if key.source == 0 then 0 else DescriptorOf(c, store.layout, key))
    ensures base + count <= |store.layout.pages|
  {
    StoredDescriptor(c, edges, store.layout, key);
    hide UnpackDescriptor, Lossless, DescriptorOf, StackOver;
    var record := Fetch(store.directory, DirectoryRecords(store.layout), c.DenseIndex(key));
    var unpacked := UnpackDescriptor(c, record[0]);
    base, count := unpacked.0, unpacked.1;
    assert count <= c.pagesPerKey;
    assert count > 0 ==> 1 <= base < c.pageBudget;
    assert base + count <= c.pageBudget;
  }

  lemma {:induction false} StorePages(c: Config, rs: seq<Resolved>, store: Store)
    requires StoreHolds(c, rs, store) && store.Orams?
    ensures StackOver(store.pages, store.layout.pages) && |store.layout.pages| >= 1 && store.layout.pages[0] == Zeros(c.pageSize)
  {
  }

  /**
   * `read_owner_relation_pages`: one directory access, then exactly `pages_per_key` page
   * accesses whatever the secret page count, and the result is the layout's own window.
   */
  method ReadRelationPages(c: Config, ghost edges: seq<RawEdge>, store: Store, key: Key)
    returns (values: seq<nat>, addresses: seq<nat>)
    requires c.Valid() && AllAcceptable(c, edges) && StoreHolds(c, ResolveAll(c, edges), store) && store.Orams?
    requires key.source < c.EntityCount() && 1 <= key.relation <= c.RelationCount()
    ensures var (base, count) := UnpackDescriptor(c, if key.source == 0 then 0 else DescriptorOf(c, store.layout, key));
      PagesRead(c, store.layout, base, count, c.pagesPerKey, values, addresses)
  {
    StorePages(c, ResolveAll(c, edges), store);
    hide *;
    var base, count := ReadDescriptor(c, edges, store, key);
    NoPagesRead(c, store.layout, base, count);
    values, addresses := [], [];
    for offset := 0 to c.pagesPerKey
      invariant PagesRead(c, store.layout, base, count, offset, values, addresses)
    {
      var address, page := ReadScheduledPage(store.pages, store.layout.pages, base, count, offset, c.pageSize);
      PagesReadStep(c, store.layout, base, count, offset, values, addresses, address, page);
      addresses := addresses + [address];
      values := values + page;
    }
  }

  // --- Either backend -------------------------------------------------------------------------

  /** One owner's decoded slots for a key, from whichever store it keeps. */
  method ReadStore(c: Config, ghost edges: seq<RawEdge>, store: Store, key: Key) returns (slots: seq<Record>)
    requires c.Valid() && AllAcceptable(c, edges) && StoreHolds(c, ResolveAll(c, edges), store)
    requires key.source < c.EntityCount() && 1 <= key.relation <= c.RelationCount()
    ensures |slots| == c.SlotsPerKey()
    ensures Matches(slots) == SortedAt(ResolveAll(c, edges), key)
    ensures |Matches(slots)| <= c.OwnerFrontier()
  {
    match store
    case Scanned(layout) =>
      slots := ReadOwner(c, edges, layout, key);
    case Orams(layout, _, _) =>
      slots := ReadOramOwner(c, edges, store, key);
  }

  lemma {:induction false} PagesReadWindow(c: Config, layout: Layout, base: nat, count: nat, values: seq<nat>, addresses: seq<nat>)
    requires PagesRead(c, layout, base, count, c.pagesPerKey, values, addresses)
    ensures base + count <= |layout.pages| && values == Window(layout.pages, base, count, c.pagesPerKey, c.pageSize)
  {
  }

  method ReadOramOwner(c: Config, ghost edges: seq<RawEdge>, store: Store, key: Key) returns (slots: seq<Record>)
    requires c.Valid() && AllAcceptable(c, edges) && StoreHolds(c, ResolveAll(c, edges), store) && store.Orams?
    requires key.source < c.EntityCount() && 1 <= key.relation <= c.RelationCount()
    ensures |slots| == c.SlotsPerKey()
    ensures Matches(slots) == SortedAt(ResolveAll(c, edges), key)
    ensures |Matches(slots)| <= c.OwnerFrontier()
  {
    ghost var (base, count) := UnpackDescriptor(c, if key.source == 0 then 0 else DescriptorOf(c, store.layout, key));
    KeyWindowContents(c, edges, store.layout, key, base, count);
    WindowDecodes(c, edges, key);
    hide *;
    var values, addresses := ReadRelationPages(c, edges, store, key);
    PagesReadWindow(c, store.layout, base, count, values, addresses);
    slots := DecodePage(c.EdgeWidths(), values);
  }

  // --- Building the stacks ------------------------------------------------------------------------

  /** The public ORAM parameters, and the random leaves of every owner's two stacks. */
  datatype OramOptions = OramOptions(chi: nat, threshold: nat, sizing: Sizing, directoryDraws: (nat, nat, nat, nat) -> nat,
                                     pageDraws: (nat, nat, nat, nat) -> nat)

  function OwnerDraw(draws: (nat, nat, nat, nat) -> nat, owner: nat): (nat, nat, nat) -> nat {
    (level, attempt, index) => draws(owner, level, attempt, index)
  }

  /** Both stacks of an owner can be placed; only public sizes and the draws matter. */
  ghost predicate StacksPlace(c: Config, options: OramOptions, owner: nat)
    requires c.pagesPerKey >= 1
  {
    && options.chi >= 2 && options.threshold >= 2 && c.DirectoryRows() >= 2
    && AllPlace(options.sizing, OwnerDraw(options.directoryDraws, owner), 0, Sizes(c.DirectoryRows(), options.chi, options.threshold))
    && AllPlace(options.sizing, OwnerDraw(options.pageDraws, owner), 0, Sizes(c.PoolRows(), options.chi, options.threshold))
  }

  /** Two stacks of the given branching. */
  ghost predicate OramsWith(store: Store, chi: nat) {
    store.Orams? && store.directory.chi == chi && store.pages.chi == chi
  }

  /** Every level of the stack sits at the owner's own drawn leaves, all of one attempt. */
  ghost predicate OwnLeaves(stack: Stack, draws: (nat, nat, nat, nat) -> nat, owner: nat) {
    forall level :: 0 <= level < |stack.levels| ==> LevelLeaves(stack.levels[level], draws, owner, level)
  }

  ghost predicate LevelLeaves(tree: OramTree.Tree, draws: (nat, nat, nat, nat) -> nat, owner: nat, level: nat) {
    exists attempt: nat :: AttemptLeaves(tree, draws, owner, level, attempt)
  }

  ghost predicate AttemptLeaves(tree: OramTree.Tree, draws: (nat, nat, nat, nat) -> nat, owner: nat, level: nat, attempt: nat) {
    forall i :: 0 <= i < |tree.positionMap| ==> tree.positionMap[i] == draws(owner, level, attempt, i) % Pow2(tree.depth)
  }

  lemma {:induction false} DrawnAreOwn(levels: seq<OramTree.Tree>, z: Sizing, draws: (nat, nat, nat, nat) -> nat, owner: nat)
    requires Drawn(levels, z, OwnerDraw(draws, owner))
    ensures forall level :: 0 <= level < |levels| ==> LevelLeaves(levels[level], draws, owner, level)
  {
    forall level | 0 <= level < |levels|
      ensures LevelLeaves(levels[level], draws, owner, level)
    {
      assert LevelDrawn(levels[level], z, OwnerDraw(draws, owner), level);
      DrawnLeaves(levels[level], z, draws, owner, level);
    }
  }

  lemma {:induction false} DrawnLeaves(tree: OramTree.Tree, z: Sizing, draws: (nat, nat, nat, nat) -> nat, owner: nat, level: nat)
    requires LevelDrawn(tree, z, OwnerDraw(draws, owner), level)
    ensures LevelLeaves(tree, draws, owner, level)
  {
    var attempts := Attempts(OwnerDraw(draws, owner), level, z.attempts, tree.size, tree.depth);
    var a: nat :| a < |attempts| && tree.positionMap == attempts[a];
    hide OramTree.Placeable;
    assert attempts[a] == Assignment(OwnerDraw(draws, owner), level, a, tree.size, tree.depth);
    forall i | 0 <= i < |tree.positionMap|
      ensures tree.positionMap[i] == draws(owner, level, a, i) % Pow2(tree.depth)
    {
      AssignmentAt(OwnerDraw(draws, owner), level, a, tree.size, tree.depth, i);
    }
    assert AttemptLeaves(tree, draws, owner, level, a);
  }

  /** Both stacks of a store sit at the owner's own draws. */
  ghost predicate StoreLeaves(store: Store, options: OramOptions, owner: nat) {
    store.Orams? && OwnLeaves(store.directory, options.directoryDraws, owner) && OwnLeaves(store.pages, options.pageDraws, owner)
  }

  /** `build_owner_relation_paged_oram` after the layout has been built. */
  method BuildOrams(c: Config, ghost rs: seq<Resolved>, layout: Layout, options: OramOptions, owner: nat) returns (r: Result<Store>)
    requires c.addressing.Dense? && Lossless(c, rs, layout)
    ensures c.pagesPerKey >= 1 && (r.Ok? <==> StacksPlace(c, options, owner))
    ensures r.Ok? ==> StoreHolds(c, rs, r.value) && OramsWith(r.value, options.chi) && r.value.layout == layout
    ensures r.Ok? ==> StoreLeaves(r.value, options, owner)
  {
    RecordShapes(c, rs, layout);
    hide Lossless;
    hide StackOver, OwnLeaves, AllPlace, OramTree.Uniform;
    var directory := BuildOver(DirectoryRecords(layout), options, options.directoryDraws, owner);
    if directory.Err? {
      return Err(directory.error);
    }
    var pages := BuildOver(layout.pages, options, options.pageDraws, owner);
    if pages.Err? {
      return Err(pages.error);
    }
    r := Ok(Orams(layout, directory.value, pages.value));
  }

  /** One stack over an owner's records, at the owner's own draws. */
  method BuildOver(records: seq<seq<int>>, options: OramOptions, draws: (nat, nat, nat, nat) -> nat, owner: nat) returns (r: Result<Stack>)
    ensures r.Ok? <==> options.chi >= 2 && options.threshold >= 2 && |records| >= 2 && OramTree.Uniform(records)
                       && AllPlace(options.sizing, OwnerDraw(draws, owner), 0, Sizes(|records|, options.chi, options.threshold))
    ensures r.Ok? ==> StackOver(r.value, records) && r.value.chi == options.chi && OwnLeaves(r.value, draws, owner)
  {
    ghost var stored;
    r, stored := BuildStack(records, options.chi, options.threshold, options.sizing, OwnerDraw(draws, owner));
    if r.Ok? {
      assert StackOver(r.value, records);
      DrawnAreOwn(r.value.levels, options.sizing, draws, owner);
    }
  }

  lemma {:induction false} RecordShapes(c: Config, rs: seq<Resolved>, layout: Layout)
    requires Lossless(c, rs, layout)
    ensures c.Valid() && |layout.directory| == c.DirectoryRows()
    ensures c.DirectoryRows() >= 1 ==> OramTree.Uniform(DirectoryRecords(layout))
    ensures |layout.pages| == c.PoolRows() >= 2 && OramTree.Uniform(layout.pages)
  {
  }
}
