// A batch of queries through the dual-ORAM backend, from raw edges to rows, and
// its agreement with the cleartext oracle.
module OramBatch {
  import opened Wrappers
  import opened Bits
  import opened PageConfig
  import opened OwnerEdges
  import opened PageLayout
  import opened Ranking
  import opened OramStack
  import opened OwnerStore
  import opened OramSession
  import opened GraphAnswer
  import opened PagedEvaluation
  import opened PagedCircuit
  import opened OramEpoch
  import opened OramProgram

  // --- Loading the stacks ----------------------------------------------------------------------

  /** The dummy leaves: drawn per owner, stack kind, access and level. */
  type Dummies = (nat, nat, nat, nat) -> nat

  function OwnerDummies(dummies: Dummies, owner: nat, kind: nat): (nat, nat) -> nat {
    (access, level) => dummies(owner, kind, access, level)
  }

  /** An owner's readers read its own two stacks, with the dummies drawn for that owner and stack. */
  ghost predicate OwnReaders(s: OwnerStacks, store: Store, dummies: Dummies, owner: nat) {
    && store.Orams? && s.directory.stack == store.directory && s.pages.stack == store.pages
    && (forall access, level :: s.directory.dummy(access, level) == dummies(owner, 0, access, level))
    && forall access, level :: s.pages.dummy(access, level) == dummies(owner, 1, access, level)
  }

  /** An owner's budgets are exactly what `planned` key reads need. */
  ghost predicate Metered(c: Config, s: OwnerStacks, planned: nat) {
    s.directory.maxAccesses == planned && s.pages.maxAccesses == Times(planned, c.pagesPerKey)
  }

  /** One stack, known by its records. */
  method Load(stack: Stack, ghost records: seq<seq<int>>, chiBits: nat, budget: nat, dummy: (nat, nat) -> nat) returns (reader: Reader)
    requires StackOver(stack, records) && stack.chi == Pow2(chiBits)
    ensures fresh(reader.Repr()) && reader.Valid() && reader.accesses == 0 && reader.maxAccesses == budget
    ensures reader.stored != [] && reader.stored[0] == records && reader.stack == stack && reader.dummy == dummy
  {
    ghost var stored :| StackHolds(stack, stored) && stored[0] == records;
    hide StackOver, StackHolds, Pow2, Reader.Valid;
    reader := new Reader(stack, stored, chiBits, budget, dummy);
  }

  /** Two readers of one owner, before anything is known of its layout. */
  ghost predicate FreshPair(c: Config, store: Store, s: OwnerStacks, planned: nat)
    reads s.Repr()
  {
    && s.directory.Valid() && s.pages.Valid() && s.directory.Repr() !! s.pages.Repr()
    && s.directory.stored != [] && s.directory.stored[0] == DirectoryRecords(store.layout)
    && s.pages.stored != [] && s.pages.stored[0] == store.layout.pages
    && s.directory.accesses == 0 == s.pages.accesses
    && s.directory.maxAccesses == planned && s.pages.maxAccesses == Times(planned, c.pagesPerKey)
  }

  method LoadPair(c: Config, store: Store, chiBits: nat, planned: nat, dummies: Dummies, owner: nat) returns (s: OwnerStacks)
    requires store.Orams? && store.directory.chi == store.pages.chi == Pow2(chiBits)
    requires StackOver(store.directory, DirectoryRecords(store.layout)) && StackOver(store.pages, store.layout.pages)
    ensures fresh(s.Repr()) && FreshPair(c, store, s, planned) && OwnReaders(s, store, dummies, owner)
  {
    hide StackOver, Pow2, Times, Reader.Valid, DirectoryRecords;
    var directory := Load(store.directory, DirectoryRecords(store.layout), chiBits, planned, OwnerDummies(dummies, owner, 0));
    var pages := Load(store.pages, store.layout.pages, chiBits, Times(planned, c.pagesPerKey), OwnerDummies(dummies, owner, 1));
    s := OwnerStacks(directory, pages);
  }

  /** Both stacks of one owner. */
  method LoadOwner(c: Config, store: Store, chiBits: nat, planned: nat, dummies: Dummies, owner: nat) returns (s: OwnerStacks)
    requires Loadable(store, chiBits)
    ensures fresh(s.Repr()) && Serving(c, store.layout, s, 0) && Metered(c, s, planned) && OwnReaders(s, store, dummies, owner)
  {
    LoadableParts(store, chiBits);
    hide *;
    s := LoadPair(c, store, chiBits, planned, dummies, owner);
    Loaded(c, store, s, planned);
  }

  ghost predicate Loadable(store: Store, chiBits: nat) {
    && OramsWith(store, Pow2(chiBits))
    && StackOver(store.directory, DirectoryRecords(store.layout)) && StackOver(store.pages, store.layout.pages)
  }

  lemma {:induction false} LoadableParts(store: Store, chiBits: nat)
    requires Loadable(store, chiBits)
    ensures store.Orams? && store.directory.chi == store.pages.chi == Pow2(chiBits)
    ensures StackOver(store.directory, DirectoryRecords(store.layout)) && StackOver(store.pages, store.layout.pages)
  {
    hide StackOver, DirectoryRecords, Pow2;
  }

  lemma {:induction false} Loaded(c: Config, store: Store, s: OwnerStacks, planned: nat)
    requires FreshPair(c, store, s, planned)
    ensures Serving(c, store.layout, s, 0) && Metered(c, s, planned)
  {
    TimesFacts(0, c.pagesPerKey);
    hide Reader.Valid, Times, DirectoryRecords, Reader.Repr;
  }

  // --- The whole federation ----------------------------------------------------------------------

  /** The first `o` owners' stacks, loaded and unused. */
  ghost predicate LoadedUpTo(c: Config, stores: seq<Store>, stacks: seq<OwnerStacks>, repr: set<object>, planned: nat, o: nat)
    reads repr
  {
    && |stacks| == o <= |stores| && Disjoint(stacks) && Within(stacks, repr)
    && forall k :: 0 <= k < o ==> Serving(c, stores[k].layout, stacks[k], 0) && Metered(c, stacks[k], planned)
  }

  lemma {:induction false} DisjointNext(stacks: seq<OwnerStacks>, repr: set<object>, s: OwnerStacks)
    requires Disjoint(stacks) && Within(stacks, repr) && s.Repr() !! repr
    ensures Disjoint(stacks + [s]) && Within(stacks + [s], repr + s.Repr())
  {
    forall i | 0 <= i < |stacks|
      ensures stacks[i].Repr() !! s.Repr()
    {
      assert stacks[i].Repr() <= repr;
    }
    hide OwnerStacks.Repr;
  }

  method LoadNext(c: Config, stores: seq<Store>, chiBits: nat, planned: nat, dummies: Dummies, before: seq<OwnerStacks>,
                  ghost repr0: set<object>, o: nat) returns (stacks: seq<OwnerStacks>, ghost repr: set<object>)
    requires LoadedUpTo(c, stores, before, repr0, planned, o) && o < |stores| && Loadable(stores[o], chiBits)
    ensures LoadedUpTo(c, stores, stacks, repr, planned, o + 1) && repr0 <= repr && fresh(repr - repr0)
    ensures |stacks| == |before| + 1 && stacks[..|before|] == before && OwnReaders(stacks[|before|], stores[o], dummies, o)
  {
    hide Loadable, Serving, Metered, OwnReaders;
    var s := LoadOwner(c, stores[o], chiBits, planned, dummies, o);
    DisjointNext(before, repr0, s);
    stacks, repr := before + [s], repr0 + s.Repr();
    hide Disjoint, Within;
  }

  lemma {:induction false} NothingLoaded(c: Config, stores: seq<Store>, planned: nat)
    ensures LoadedUpTo(c, stores, [], {}, planned, 0)
  {
  }

  ghost predicate AllOwnReaders(stacks: seq<OwnerStacks>, stores: seq<Store>, dummies: Dummies) {
    |stacks| <= |stores| && forall o :: 0 <= o < |stacks| ==> OwnReaders(stacks[o], stores[o], dummies, o)
  }

  lemma {:induction false} ReadersNext(before: seq<OwnerStacks>, stacks: seq<OwnerStacks>, stores: seq<Store>, dummies: Dummies)
    requires AllOwnReaders(before, stores, dummies) && |stacks| == |before| + 1 <= |stores| && stacks[..|before|] == before
    requires OwnReaders(stacks[|before|], stores[|before|], dummies, |before|)
    ensures AllOwnReaders(stacks, stores, dummies)
  {
    hide OwnReaders;
    forall o | 0 <= o < |stacks|
      ensures OwnReaders(stacks[o], stores[o], dummies, o)
    {
      assert o < |before| ==> stacks[o] == before[o];
    }
  }

  method LoadAll(c: Config, stores: seq<Store>, chiBits: nat, planned: nat, dummies: Dummies) returns (stacks: seq<OwnerStacks>, ghost repr: set<object>)
    requires forall o :: 0 <= o < |stores| ==> Loadable(stores[o], chiBits)
    ensures LoadedUpTo(c, stores, stacks, repr, planned, |stores|) && fresh(repr)
    ensures AllOwnReaders(stacks, stores, dummies)
  {
    NothingLoaded(c, stores, planned);
    assert AllOwnReaders([], stores, dummies);
    hide *;
    stacks, repr := [], {};
    for o := 0 to |stores|
      invariant LoadedUpTo(c, stores, stacks, repr, planned, o) && fresh(repr)
      invariant |stacks| == o && AllOwnReaders(stacks, stores, dummies)
    {
      ghost var before := stacks;
      stacks, repr := LoadNext(c, stores, chiBits, planned, dummies, stacks, repr, o);
      ReadersNext(before, stacks, stores, dummies);
    }
  }

  ghost function LayoutsOf(stores: seq<Store>): (r: seq<Layout>)
    ensures |r| == |stores| && forall o :: 0 <= o < |r| ==> r[o] == stores[o].layout
  {
    seq(|stores|, o requires 0 <= o < |stores| => stores[o].layout)
  }

  lemma {:induction false} LoadedServes(c: Config, stores: seq<Store>, stacks: seq<OwnerStacks>, repr: set<object>, planned: nat)
    requires LoadedUpTo(c, stores, stacks, repr, planned, |stores|)
    ensures AllServing(c, LayoutsOf(stores), stacks, repr, 0) && AllBudgeted(c, stacks, planned)
  {
    hide Serving, Disjoint, Within, Times;
  }

  /** Both budgets of every owner are spent. */
  ghost predicate Spent(stacks: seq<OwnerStacks>, repr: set<object>)
    reads repr
  {
    && Within(stacks, repr)
    && forall o :: 0 <= o < |stacks| ==>
      && stacks[o].directory in stacks[o].Repr() && stacks[o].pages in stacks[o].Repr()
      && stacks[o].directory.accesses == stacks[o].directory.maxAccesses
      && stacks[o].pages.accesses == stacks[o].pages.maxAccesses
  }

  /** Every access of either reader opened what the simulation opens, with the reader's own dummies. */
  ghost predicate AllRevealed(stacks: seq<OwnerStacks>, repr: set<object>)
    reads repr
  {
    && Within(stacks, repr)
    && forall o :: 0 <= o < |stacks| ==>
      && stacks[o].directory in stacks[o].Repr() && stacks[o].pages in stacks[o].Repr()
      && ReaderRevealed(stacks[o].directory) && ReaderRevealed(stacks[o].pages)
  }

  ghost predicate ReaderRevealed(r: Reader)
    reads r
  {
    |r.shown| == r.accesses && Revealed(r.stack, r.history, r.dummy, r.shown)
  }

  lemma {:induction false} ServedRevealed(c: Config, layouts: seq<Layout>, stacks: seq<OwnerStacks>, repr: set<object>, planned: nat)
    requires AllServing(c, layouts, stacks, repr, planned)
    ensures AllRevealed(stacks, repr)
  {
    hide Revealed, Encodes, Cached, Times;
    forall o | 0 <= o < |stacks|
      ensures ReaderRevealed(stacks[o].directory) && ReaderRevealed(stacks[o].pages)
    {
      assert Serving(c, layouts[o], stacks[o], planned);
      ValidRevealed(stacks[o].directory);
      ValidRevealed(stacks[o].pages);
    }
  }

  lemma {:induction false} ValidRevealed(r: Reader)
    requires r.Valid()
    ensures ReaderRevealed(r)
  {
    hide Encodes, Cached;
  }

  /** Every owner's budgets are the planned ones. */
  ghost predicate AllMetered(c: Config, stacks: seq<OwnerStacks>, planned: nat) {
    forall o :: 0 <= o < |stacks| ==> Metered(c, stacks[o], planned)
  }

  lemma {:induction false} AreMetered(c: Config, stores: seq<Store>, stacks: seq<OwnerStacks>, repr: set<object>, planned: nat)
    requires LoadedUpTo(c, stores, stacks, repr, planned, |stores|)
    ensures AllMetered(c, stacks, planned)
  {
    hide Serving, Metered;
  }

  /** The program's final schedule checks pass. */
  lemma {:induction false} ScheduleMet(c: Config, layouts: seq<Layout>, stacks: seq<OwnerStacks>, repr: set<object>, planned: nat)
    requires AllServing(c, layouts, stacks, repr, planned) && AllMetered(c, stacks, planned)
    ensures Spent(stacks, repr)
  {
    hide Reader.Valid, Times;
  }

  // --- What the renderer accepts ---------------------------------------------------------------------

  const MAX_QUERY_COUNT := 10

  predicate IsPowerOfTwo(chi: nat) {
    chi >= 2 && Pow2(BitLength(chi) - 1) == chi
  }

  /** `planned_shape` and `render_program` raise on everything else. */
  predicate OramRenderable(c: Config, options: OramOptions, queries: nat) {
    && c.addressing == Dense(None) && IsPowerOfTwo(options.chi)
    && 1 <= queries <= MAX_QUERY_COUNT && c.topK <= CandidateSlots(c)
  }

  /** What is renderable, in numbers: a power of two from two up, one to ten queries, and enough candidates. */
  lemma {:induction false} RenderableIs(c: Config, options: OramOptions, queries: nat)
    ensures OramRenderable(c, options, queries) <==>
      && c.addressing == Dense(None) && (exists k: nat :: k >= 1 && options.chi == Pow2(k))
      && 1 <= queries <= 10 && c.topK <= CandidateSlots(c)
  {
    if exists k: nat :: k >= 1 && options.chi == Pow2(k) {
      var k: nat :| k >= 1 && options.chi == Pow2(k);
      PowerLength(k);
    }
    if IsPowerOfTwo(options.chi) {
      assert Pow2(0) == 1;
      assert BitLength(options.chi) - 1 >= 1;
    }
    hide CandidateSlots, BitLength, Pow2;
  }

  lemma {:induction false} PowerLength(k: nat)
    requires k >= 1
    ensures Pow2(k) >= 2 && BitLength(Pow2(k)) == k + 1
  {
    var r := BitLength(Pow2(k));
    if r < k + 1 {
      Pow2Monotone(r, k);
    } else if r > k + 1 {
      Pow2Monotone(k + 1, r - 1);
    }
    Pow2Monotone(1, k);
    assert Pow2(1) == 2;
    hide BitLength;
  }

  lemma {:induction false} StoresLoadable(c: Config, owners: seq<seq<RawEdge>>, stores: seq<Store>, chi: nat)
    requires Stocked(c, owners, stores) && c.addressing == Dense(None) && IsPowerOfTwo(chi)
    requires forall o :: 0 <= o < |stores| ==> OramsWith(stores[o], chi)
    ensures forall o :: 0 <= o < |stores| ==> Loadable(stores[o], BitLength(chi) - 1)
    ensures DenseFederation(c, owners, LayoutsOf(stores))
  {
    hide StackOver, Lossless, OwnersAcceptable, Pow2, BitLength;
  }

  // --- The batch ----------------------------------------------------------------------------------------

  /** What a batch yields: rows for every query, whenever the public parts and the owners' data are accepted. */
  ghost predicate BatchRan(c: Config, owners: seq<seq<RawEdge>>, queries: seq<Query>, options: OramOptions, r: Result<seq<seq<Row>>>) {
    && c.Valid()
    && (r.Ok? <==> |owners| == c.owners && OramRenderable(c, options, |queries|) && OwnersFit(c, owners) && AllStacksPlace(c, options))
    && (r.Ok? ==> |r.value| == |queries| && forall i :: 0 <= i < |queries| ==> AnswerOf(c, owners, SecretOf(c, queries[i]), r.value[i]))
  }

  lemma {:induction false} BatchStopped(c: Config, owners: seq<seq<RawEdge>>, queries: seq<Query>, options: OramOptions, e: Error)
    requires c.Valid()
    requires !(|owners| == c.owners && OramRenderable(c, options, |queries|) && OwnersFit(c, owners) && AllStacksPlace(c, options))
    ensures BatchRan(c, owners, queries, options, Err(e))
  {
  }

  lemma {:induction false} BatchDone(c: Config, owners: seq<seq<RawEdge>>, queries: seq<Query>, options: OramOptions, secret: seq<SecretQuery>, results: seq<seq<Row>>)
    requires c.Valid() && |secret| == |queries| && forall i :: 0 <= i < |queries| ==> secret[i] == SecretOf(c, queries[i])
    requires |owners| == c.owners && OramRenderable(c, options, |queries|) && OwnersFit(c, owners) && AllStacksPlace(c, options)
    requires AnsweredUpTo(c, owners, secret, |secret|, results)
    ensures BatchRan(c, owners, queries, options, Ok(results))
  {
    hide AnswerOf, SecretOf, OramRenderable, OwnersFit, AllStacksPlace;
  }

  /** Load the stacks and run the program; both budgets of every owner end exactly spent. */
  method ServeBatch(c: Config, ghost owners: seq<seq<RawEdge>>, stores: seq<Store>, chiBits: nat, dummies: Dummies, secret: seq<SecretQuery>)
    returns (results: seq<seq<Row>>, stacks: seq<OwnerStacks>, ghost repr: set<object>)
    requires DenseFederation(c, owners, LayoutsOf(stores)) && forall o :: 0 <= o < |stores| ==> Loadable(stores[o], chiBits)
    ensures AnsweredUpTo(c, owners, secret, |secret|, results) && |stacks| == |stores| && Spent(stacks, repr)
    ensures AllOwnReaders(stacks, stores, dummies) && AllRevealed(stacks, repr)
  {
    hide *;
    ghost var layouts := LayoutsOf(stores);
    var planned := PlannedReads(c, |secret|);
    stacks, repr := LoadAll(c, stores, chiBits, planned, dummies);
    LoadedServes(c, stores, stacks, repr, planned);
    AreMetered(c, stores, stacks, repr, planned);
    results := RunStacks(c, owners, layouts, stacks, repr, secret);
    ServingSize(c, layouts, stacks, repr, planned);
    ScheduleMet(c, layouts, stacks, repr, planned);
    ServedRevealed(c, layouts, stacks, repr, planned);
  }

  /**
   * The dual-ORAM backend on a batch, from raw edges: it runs exactly when the configuration
   * renders, every owner's data fits and every stack can be placed, and then every query
   * gets the rows of its followed paths.
   */
  method RunBatch(c: Config, owners: seq<seq<RawEdge>>, queries: seq<Query>, options: OramOptions, dummies: Dummies) returns (r: Result<seq<seq<Row>>>)
    requires c.Valid()
    ensures BatchRan(c, owners, queries, options, r)
  {
    hide OramRenderable, BatchRan, OwnersFit, AllStacksPlace, DenseFederation, Loadable, SecretOf;
    if |owners| != c.owners || !OramRenderable(c, options, |queries|) {
      BatchStopped(c, owners, queries, options, Malformed);
      return Err(Malformed);
    }
    var stores := BuildRenderable(c, owners, queries, options);
    if stores.Err? {
      BatchStopped(c, owners, queries, options, stores.error);
      return Err(stores.error);
    }
    var secret := seq(|queries|, i requires 0 <= i < |queries| => SecretOf(c, queries[i]));
    hide *;
    var results, stacks;
    ghost var repr;
    results, stacks, repr := ServeBatch(c, owners, stores.value, BitLength(options.chi) - 1, dummies, secret);
    BatchDone(c, owners, queries, options, secret, results);
    r := Ok(results);
  }

  /** The owners' stacks, under a configuration the program renders for. */
  method BuildRenderable(c: Config, owners: seq<seq<RawEdge>>, ghost queries: seq<Query>, options: OramOptions) returns (r: Result<seq<Store>>)
    requires c.Valid() && |owners| == c.owners && OramRenderable(c, options, |queries|)
    ensures r.Ok? <==> OwnersFit(c, owners) && AllStacksPlace(c, options)
    ensures options.chi >= 2 && BitLength(options.chi) >= 1
    ensures r.Ok? ==> DenseFederation(c, owners, LayoutsOf(r.value))
    ensures r.Ok? ==> forall o :: 0 <= o < |r.value| ==> Loadable(r.value[o], BitLength(options.chi) - 1)
  {
    hide OwnersFit, AllStacksPlace, Stocked, OramsWith, DenseFederation, Loadable, CandidateSlots, Pow2;
    r := BuildAllOrams(c, owners, options);
    if r.Ok? {
      StoresLoadable(c, owners, r.value, options.chi);
    }
  }

  // --- Against the oracle ------------------------------------------------------------------------------

  function Circuit(r: Result<seq<seq<Row>>>): Option<seq<seq<Row>>> {
    if r.Ok? then Some(r.value) else None
  }

  lemma {:induction false} BatchIsSame(c: Config, owners: seq<seq<RawEdge>>, queries: seq<Query>, options: OramOptions,
                                       circuit: Result<seq<seq<Row>>>, oracle: seq<Result<seq<Row>>>)
    requires BatchRan(c, owners, queries, options, circuit) && |oracle| == |queries| && c.Valid()
    requires forall i :: 0 <= i < |queries| ==> Answers(c, owners, queries[i], c.addressing.Dense? && AllStacksPlace(c, options), oracle[i])
    ensures SameAnswers(Circuit(circuit), oracle)
  {
    if circuit.Ok? {
      RowsAreSame(c, owners, queries, c.addressing.Dense? && AllStacksPlace(c, options), circuit.value, oracle);
    }
    hide Answers, AnswerOf, SecretOf, AllStacksPlace;
  }

  /** The cleartext evaluator on every query. */
  method AskEvaluator(c: Config, owners: seq<seq<RawEdge>>, queries: seq<Query>, options: OramOptions) returns (oracle: seq<Result<seq<Row>>>)
    requires c.Valid()
    ensures |oracle| == |queries|
    ensures forall i :: 0 <= i < |queries| ==> Answers(c, owners, queries[i], c.addressing.Dense? && AllStacksPlace(c, options), oracle[i])
  {
    oracle := [];
    hide *;
    for i := 0 to |queries|
      invariant |oracle| == i
      invariant forall j :: 0 <= j < i ==> Answers(c, owners, queries[j], c.addressing.Dense? && AllStacksPlace(c, options), oracle[j])
    {
      var r := EvaluateOrams(c, owners, queries[i], options);
      oracle := oracle + [r];
    }
  }

  /**
   * The dual-ORAM program against its cleartext evaluator, for any edges, batch, stack
   * randomness and dummies.  The evaluator answers exactly when its checks pass, the directory
   * is dense and every stack places; and every query both answer gets the same rows.
   */
  method BatchAgreesWithOracle(c: Config, owners: seq<seq<RawEdge>>, queries: seq<Query>, options: OramOptions, dummies: Dummies)
    returns (oracle: seq<Result<seq<Row>>>, circuit: Result<seq<seq<Row>>>)
    requires c.Valid()
    ensures |oracle| == |queries|
    ensures forall i :: 0 <= i < |queries| ==> Answers(c, owners, queries[i], c.addressing.Dense? && AllStacksPlace(c, options), oracle[i])
    ensures BatchRan(c, owners, queries, options, circuit)
    ensures SameAnswers(Circuit(circuit), oracle)
  {
    hide *;
    oracle := AskEvaluator(c, owners, queries, options);
    circuit := RunBatch(c, owners, queries, options, dummies);
    BatchIsSame(c, owners, queries, options, circuit, oracle);
  }
}
