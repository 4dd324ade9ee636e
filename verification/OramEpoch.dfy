// One owner's two recursive stacks in the rendered dual-ORAM program: scheduled
// accesses against public budgets, and the gated read of one relation key.
module OramEpoch {
  import opened Wrappers
  import opened Gates
  import opened Bits
  import opened PageConfig
  import opened OwnerEdges
  import opened PageLayout
  import opened PagedOracle
  import opened OramStack
  import opened OramAccess
  import opened OwnerStore
  import opened OramSession
  import opened DirectoryReads

  /** One stack as the program holds it: compiled memory, replay stash, and the public number of the next access. */
  class Reader {
    const program: Program
    const stash: ReplayStash
    const maxAccesses: nat
    const dummy: (nat, nat) -> nat
    ghost const stack: Stack
    ghost const stored: seq<seq<seq<int>>>
    var accesses: nat
    ghost var history: seq<nat>
    ghost var shown: seq<seq<nat>>

    ghost function Repr(): set<object> {
      {this, stash.valid, stash.index, stash.value}
    }

    ghost predicate Valid()
      reads Repr()
    {
      && stash.Shaped() && stash.valid.Length1 == maxAccesses && Encodes(program, stack, stored)
      && |history| == accesses <= maxAccesses && Cached(stack, stored, history, stash.Contents())
      && Revealed(stack, history, dummy, shown)
    }

    constructor (source: Stack, ghost records: seq<seq<seq<int>>>, chiBits: nat, budget: nat, draws: (nat, nat) -> nat)
      requires StackHolds(source, records) && source.chi == Pow2(chiBits)
      ensures Valid() && accesses == 0 && maxAccesses == budget && stored == records && stack == source && dummy == draws
      ensures fresh(Repr())
    {
      var compiled := Compile(source, records, chiBits);
      program, stack, stored, dummy := compiled, source, records, draws;
      maxAccesses, accesses, history, shown := budget, 0, [], [];
      stash := new ReplayStash(|compiled.shapes|, budget);
      new;
      NothingRevealed(source, draws);
      hide Encodes, Cached, Revealed;
      ShapesMatch(compiled, source, records);
      NothingCached(compiled, source, records, stash.Contents());
    }

    /** One scheduled access: the next public number, whatever the secret address. */
    method Access(original: int) returns (value: seq<int>, found: int, leaves: seq<nat>)
      requires Valid() && accesses < maxAccesses
      modifies Repr()
      ensures Valid() && accesses == old(accesses) + 1
      ensures history == old(history) + [Gated(program, original)] && shown == old(shown) + [leaves]
      ensures stored != [] && Serves(stored[0], original, value, found)
    {
      hide Encodes, Cached, Gated, Serves, Revealed, ReplayStash.Contents;
      ghost var dummies;
      ghost var indices := history + [Gated(program, original)];
      RecordsAre(program, stack, stored);
      Prefixes(history, Gated(program, original));
      GatedInRange(program, original);
      value, found, leaves, dummies := OramSession.ReadOwner(program, stack, stored, indices, accesses, original, dummy, stash);
      AccessServes(program, stack, stored, original, value, found);
      OneMoreRevealed(stack, history, dummy, shown, Gated(program, original), leaves, dummies);
      accesses, history, shown := accesses + 1, indices, shown + [leaves];
    }
  }

  /** Access `t` opens, level by level, the leaves of the simulation: the record's own, or the drawn dummy on a repeat. */
  ghost predicate Opens(stack: Stack, history: seq<nat>, dummy: (nat, nat) -> nat, t: nat, leaves: seq<nat>) {
    t < |history| && OpensAfter(stack, history[..t + 1], dummy, t, leaves)
  }

  ghost predicate OpensAfter(stack: Stack, indices: seq<nat>, dummy: (nat, nat) -> nat, t: nat, leaves: seq<nat>) {
    exists dummies: seq<bool> :: AccessShows(stack, indices, dummy, t, leaves, dummies)
  }

  /** Everything shown so far. */
  ghost predicate Revealed(stack: Stack, history: seq<nat>, dummy: (nat, nat) -> nat, shown: seq<seq<nat>>) {
    |shown| == |history| && forall t :: 0 <= t < |shown| ==> Opens(stack, history, dummy, t, shown[t])
  }

  lemma {:induction false} NothingRevealed(stack: Stack, dummy: (nat, nat) -> nat)
    ensures Revealed(stack, [], dummy, [])
  {
  }

  lemma {:induction false} OneMoreRevealed(stack: Stack, history: seq<nat>, dummy: (nat, nat) -> nat, shown: seq<seq<nat>>,
                                           address: nat, leaves: seq<nat>, dummies: seq<bool>)
    requires Revealed(stack, history, dummy, shown) && AccessShows(stack, history + [address], dummy, |history|, leaves, dummies)
    ensures Revealed(stack, history + [address], dummy, shown + [leaves])
  {
    var next := history + [address];
    assert next[..|history| + 1] == next;
    hide AccessShows;
    forall t | 0 <= t < |shown|
      ensures Opens(stack, next, dummy, t, shown[t])
    {
      assert Opens(stack, history, dummy, t, shown[t]);
      assert next[..t + 1] == history[..t + 1];
    }
  }

  /** What an access returns: the addressed record, or record zero and no validity out of range. */
  ghost predicate Serves(records: seq<seq<int>>, original: int, value: seq<int>, found: int) {
    && records != []
    && found == (if 0 <= original < |records| then 1 else 0)
    && value == records[if 0 <= original < |records| then original else 0]
  }

  lemma {:induction false} ShapesMatch(p: Program, stack: Stack, stored: seq<seq<seq<int>>>)
    requires Encodes(p, stack, stored)
    ensures |p.shapes| == |stack.levels|
  {
  }

  lemma {:induction false} RecordsAre(p: Program, stack: Stack, stored: seq<seq<seq<int>>>)
    requires Encodes(p, stack, stored)
    ensures stored != [] && |stored[0]| == p.records == stack.Size() > 0
  {
    StackShape(stack, stored);
    LevelFacts(stack, stored, 0);
  }

  lemma {:induction false} Prefixes(history: seq<nat>, address: nat)
    ensures (history + [address])[..|history|] == history && (history + [address])[..|history| + 1] == history + [address]
  {
  }

  lemma {:induction false} GatedInRange(p: Program, original: int)
    requires p.records > 0
    ensures Gated(p, original) < p.records
  {
  }

  lemma {:induction false} AccessServes(p: Program, stack: Stack, stored: seq<seq<seq<int>>>, original: int, value: seq<int>, found: int)
    requires Encodes(p, stack, stored) && stored != [] && Gated(p, original) < |stored[0]|
    requires value == stored[0][Gated(p, original)] && found == if 0 <= original < p.records then 1 else 0
    ensures Serves(stored[0], original, value, found)
  {
    RecordsAre(p, stack, stored);
    hide Encodes;
  }

  // --- One owner ----------------------------------------------------------------------------

  /** An owner's directory stack and page stack. */
  datatype OwnerStacks = OwnerStacks(directory: Reader, pages: Reader) {
    ghost function Repr(): set<object> {
      directory.Repr() + pages.Repr()
    }
  }

  /** Both stacks hold the owner's layout, after `n` key reads. */
  ghost predicate Serving(c: Config, layout: Layout, s: OwnerStacks, n: nat)
    reads s.Repr()
  {
    && s.directory.Valid() && s.pages.Valid() && s.directory.Repr() !! s.pages.Repr()
    && s.directory.stored != [] && s.directory.stored[0] == DirectoryRecords(layout)
    && s.pages.stored != [] && s.pages.stored[0] == layout.pages
    && s.directory.accesses == n && s.pages.accesses == Times(n, c.pagesPerKey)
  }

  /** The budgets leave room for `n` key reads. */
  ghost predicate Budgeted(c: Config, s: OwnerStacks, n: nat) {
    n <= s.directory.maxAccesses && Times(n, c.pagesPerKey) <= s.pages.maxAccesses
  }

  /** What a key's cells must be: the key's records in stored order, then zeros. */
  function KeyCells(c: Config, rs: seq<Resolved>, key: Key): seq<nat> {
    PaddedPrefix(c.EdgeWidths(), SortedAt(rs, key), c.SlotsPerKey())
  }

  /** A product of flags. */
  function Both(a: int, b: int): (r: int)
    requires 0 <= a <= 1 && 0 <= b <= 1
    ensures r == if a == 1 && b == 1 then 1 else 0
  {
    a * b
  }

  /** `active * page_found * page[:]`. */
  function Masked(active: int, page: seq<nat>): (r: seq<nat>)
    requires 0 <= active <= 1
    ensures r == if active == 1 then page else Zeros(|page|)
  {
    seq(|page|, i requires 0 <= i < |page| => BitTimes(active, page[i]))
  }

  /** The decomposed descriptor's slices are its bit fields. */
  lemma {:induction false} DescriptorFields(c: Config, d: nat)
    requires c.pageBudget >= 1
    ensures var bits := Decompose(d, c.DescriptorBits());
      && Compose(bits[..c.PageBaseBits()]) == Field(d, 0, c.PageBaseBits())
      && Compose(bits[c.PageBaseBits()..]) == Field(d, c.PageBaseBits(), c.DescriptorBits())
  {
    var m, n := c.PageBaseBits(), c.PageCountBits();
    var bits := Decompose(d, m + n);
    assert bits[..m] == bits[0..m] && bits[m..] == bits[m..m + n];
    ComposeSlice(d, m + n, 0, m);
    ComposeSlice(d, m + n, m, m + n);
    hide Decompose, Compose, Field;
  }

  /** A descriptor that fits its width unpacks to those fields. */
  lemma {:induction false} DescriptorBitsAre(c: Config, d: nat)
    requires c.pageBudget >= 1 && d < Pow2(c.DescriptorBits())
    ensures (Field(d, 0, c.PageBaseBits()), Field(d, c.PageBaseBits(), c.DescriptorBits())) == UnpackDescriptor(c, d)
  {
    var m, n := c.PageBaseBits(), c.PageCountBits();
    DivModUnique(d, 1, d, 0);
    Pow2Add(m, n);
    QuotientBound(d, Pow2(m), Pow2(n));
    SmallQuotient(Quotient(d, Pow2(m)), Pow2(n));
    AndMask(d, m);
    hide Quotient, Remainder, And;
  }

  /** The owner's edges, what they resolve to, and its own lossless dense layout. */
  ghost predicate Owned(c: Config, edges: seq<RawEdge>, rs: seq<Resolved>, layout: Layout) {
    && c.Valid() && c.addressing == Dense(None) && AllAcceptable(c, edges)
    && rs == ResolveAll(c, edges) && Lossless(c, rs, layout)
  }

  /** Where the pages of a key are, for a descriptor read from row `row`; a key no edge could have has none. */
  ghost predicate Located(c: Config, layout: Layout, rs: seq<Resolved>, key: Key, ok: int, base: nat, count: nat) {
    && ok == (if c.InRange(key) then 1 else 0) && (forall j :: 0 <= j < |layout.pages| ==> |layout.pages[j]| == c.pageSize)
    && (ok == 1 ==> base + count <= |layout.pages|)
    && Window(layout.pages, Active(ok, base), Active(ok, count), c.pagesPerKey, c.pageSize) == KeyCells(c, rs, key)
  }

  /** A gated number: itself when the gate is open. */
  ghost function Active(ok: int, n: nat): nat {
    if ok == 1 then n else 0
  }

  /** The layout's own facts about a key. */
  lemma {:induction false} KeyLocated(c: Config, edges: seq<RawEdge>, rs: seq<Resolved>, layout: Layout, key: Key, ok: int, base: nat, count: nat)
    requires Owned(c, edges, rs, layout)
    requires ok == if c.InRange(key) then 1 else 0
    requires ok == 1 ==> (base, count) == UnpackDescriptor(c, DescriptorOf(c, layout, key))
    ensures Located(c, layout, rs, key, ok, base, count)
  {
    PageWidths(c, rs, layout);
    if ok == 1 {
      KeyWindowContents(c, edges, layout, key, base, count);
    } else {
      DummyKeyIsEmpty(c, edges, key);
      PagesNeededZero(c.pageSize);
      WindowContents(c.EdgeWidths(), layout.pages, 0, 0, [], c.pageSize, c.pagesPerKey);
    }
    hide Lossless, AllAcceptable, Window, PaddedPrefix;
  }

  lemma {:induction false} PageWidths(c: Config, rs: seq<Resolved>, layout: Layout)
    requires Lossless(c, rs, layout)
    ensures forall j :: 0 <= j < |layout.pages| ==> |layout.pages[j]| == c.pageSize
  {
    hide ReadsBack, Apart;
  }

  /** The row the directory access names, and what it holds. */
  lemma {:induction false} DirectoryRow(c: Config, edges: seq<RawEdge>, rs: seq<Resolved>, layout: Layout, key: Key, ok: int, address: nat)
    requires Owned(c, edges, rs, layout)
    requires ok == if c.InRange(key) then 1 else 0
    requires (key.relation >= 1 || ok != 1) && address == MainAddress(c, key, ok)
    ensures address < |layout.directory|
    ensures ok == 1 ==> layout.directory[address] == DescriptorOf(c, layout, key) && layout.directory[address] < Pow2(c.DescriptorBits())
  {
    RecordShapes(c, rs, layout);
    if ok == 1 {
      DenseIndexInRange(c, key);
      assert ReadsBack(c, rs, layout, key);
    } else {
      DenseNotEmpty(c);
    }
  }

  lemma {:induction false} DenseNotEmpty(c: Config)
    requires c.Valid() && c.addressing.Dense?
    ensures c.DirectoryRows() > 0
  {
    ProductOrder(1, c.EntityCount(), c.RelationCount());
  }

  // --- The gated key read ---------------------------------------------------------------------

  lemma {:induction false} ServingParts(c: Config, layout: Layout, s: OwnerStacks, n: nat)
    requires Serving(c, layout, s, n)
    ensures s.directory.Valid() && s.pages.Valid() && s.directory.Repr() !! s.pages.Repr()
    ensures s.directory.stored != [] && s.directory.stored[0] == DirectoryRecords(layout)
    ensures s.pages.stored != [] && s.pages.stored[0] == layout.pages
    ensures s.directory.accesses == n && s.pages.accesses == Times(n, c.pagesPerKey)
  {
  }

  /** Room for one more key read: one directory access and `pages_per_key` page accesses. */
  lemma {:induction false} BudgetParts(c: Config, s: OwnerStacks, n: nat)
    requires Budgeted(c, s, n + 1)
    ensures n < s.directory.maxAccesses && Times(n, c.pagesPerKey) + c.pagesPerKey == Times(n + 1, c.pagesPerKey) <= s.pages.maxAccesses
  {
    TimesFacts(n, c.pagesPerKey);
  }

  lemma {:induction false} DirectoryServed(records: seq<seq<int>>, layout: Layout, address: nat, record: seq<int>, found: int)
    requires Serves(records, address, record, found) && records == DirectoryRecords(layout) && address < |layout.directory|
    ensures found == 1 && |record| == 1 && record[0] == layout.directory[address]
  {
  }

  /** One access of a directory stack. */
  method FetchDescriptor(ghost layout: Layout, reader: Reader, address: nat) returns (d: nat, found: int)
    requires reader.Valid() && reader.accesses < reader.maxAccesses && address < |layout.directory|
    requires reader.stored != [] && reader.stored[0] == DirectoryRecords(layout)
    modifies reader.Repr()
    ensures reader.Valid() && reader.accesses == old(reader.accesses) + 1
    ensures found == 1 && d == layout.directory[address]
  {
    hide *;
    var record;
    var leaves;
    record, found, leaves := reader.Access(address);
    DirectoryServed(reader.stored[0], layout, address, record, found);
    d := record[0];
  }

  /** The two parts of a descriptor. */
  method SliceDescriptor(c: Config, d: nat) returns (base: nat, count: nat)
    requires c.Valid()
    ensures c.pageBudget >= 1
    ensures d < Pow2(c.DescriptorBits()) ==> (base, count) == UnpackDescriptor(c, d)
  {
    BudgetPositive(c);
    DescriptorFields(c, d);
    hide Config.Valid, Pow2, UnpackDescriptor, Field, Compose, Decompose;
    var bits := Decompose(d, c.DescriptorBits());
    if d < Pow2(c.DescriptorBits()) {
      DescriptorBitsAre(c, d);
    }
    base, count := Compose(bits[..c.PageBaseBits()]), Compose(bits[c.PageBaseBits()..]);
  }

  /** The directory access of one key read: the gate of its pages, and the two parts of its descriptor. */
  method ReadDescriptor(c: Config, ghost edges: seq<RawEdge>, ghost rs: seq<Resolved>, ghost layout: Layout, s: OwnerStacks, key: Key, ghost n: nat)
    returns (gate: int, base: nat, count: nat)
    requires Owned(c, edges, rs, layout) && Serving(c, layout, s, n) && Budgeted(c, s, n + 1)
    modifies s.directory.Repr()
    ensures s.directory.Valid() && s.directory.accesses == n + 1
    ensures Located(c, layout, rs, key, gate, base, count)
  {
    hide Owned, Located, Serving, Budgeted, DescriptorOf, UnpackDescriptor, Pow2, Times, MainAddress, DirectoryRecords, Reader.Valid, Config.Valid, Config.InRange, Config.DescriptorBits;
    ServingParts(c, layout, s, n);
    BudgetParts(c, s, n);
    OwnedFacts(c, edges, rs, layout, key);
    var keyOk, address := DirectoryAddress(c, key.source, key.relation);
    DirectoryRow(c, edges, rs, layout, key, keyOk, address);
    var d, found := FetchDescriptor(layout, s.directory, address);
    base, count := SliceDescriptor(c, d);
    gate := Both(keyOk, found);
    DescriptorRead(c, edges, rs, layout, key, keyOk, address, gate, base, count);
  }

  lemma {:induction false} DescriptorRead(c: Config, edges: seq<RawEdge>, rs: seq<Resolved>, layout: Layout, key: Key,
                                          keyOk: int, address: nat, gate: int, base: nat, count: nat)
    requires Owned(c, edges, rs, layout) && gate == keyOk == if c.InRange(key) then 1 else 0
    requires address < |layout.directory| && c.pageBudget >= 1
    requires keyOk == 1 ==> layout.directory[address] == DescriptorOf(c, layout, key) && layout.directory[address] < Pow2(c.DescriptorBits())
    requires layout.directory[address] < Pow2(c.DescriptorBits()) ==> (base, count) == UnpackDescriptor(c, layout.directory[address])
    ensures Located(c, layout, rs, key, gate, base, count)
  {
    hide *;
    KeyLocated(c, edges, rs, layout, key, gate, base, count);
  }

  lemma {:induction false} OwnedFacts(c: Config, edges: seq<RawEdge>, rs: seq<Resolved>, layout: Layout, key: Key)
    requires Owned(c, edges, rs, layout)
    ensures c.Valid() && Key(key.source, key.relation) == key && (c.InRange(key) ==> key.relation >= 1)
    ensures |layout.pages| > 0
  {
    hide ReadsBack, Apart, AllAcceptable;
  }

  lemma {:induction false} BudgetPositive(c: Config)
    requires c.Valid()
    ensures c.pageBudget >= 1 && c.PageBaseBits() <= c.DescriptorBits()
  {
  }

  /** The pages read so far: the window's own, masked. */
  ghost predicate PagesSoFar(c: Config, layout: Layout, gate: int, base: nat, count: nat, offset: nat, cells: seq<nat>) {
    && Active(gate, base) + Active(gate, count) <= |layout.pages|
    && cells == Window(layout.pages, Active(gate, base), Active(gate, count), offset, c.pageSize)
  }

  /** The gate of page `offset` and the page it asks for. */
  method PageAddress(c: Config, ghost layout: Layout, gate: int, base: nat, count: nat, offset: nat) returns (active: int, wanted: nat)
    requires 0 <= gate <= 1
    ensures active == if gate == 1 && offset < count then 1 else 0
    ensures wanted == if active == 1 then base + offset else 0
  {
    active := Both(gate, Greater(count, offset));
    wanted := IfElse(active, base + offset, 0);
  }

  /** One masked page more. */
  lemma {:induction false} PageStep(c: Config, layout: Layout, rs: seq<Resolved>, key: Key, gate: int, base: nat, count: nat, offset: nat,
                                    cells: seq<nat>, active: int, wanted: nat, page: seq<int>, found: int)
    requires Located(c, layout, rs, key, gate, base, count) && PagesSoFar(c, layout, gate, base, count, offset, cells)
    requires Serves(layout.pages, wanted, page, found)
    requires active == if gate == 1 && offset < count then 1 else 0
    requires wanted == if active == 1 then base + offset else 0
    ensures found == 1 && active == Both(active, found) && forall i :: 0 <= i < |page| ==> page[i] >= 0
    ensures PagesSoFar(c, layout, gate, base, count, offset + 1, cells + if active == 1 then page else Zeros(|page|))
  {
    assert wanted < |layout.pages| && page == layout.pages[wanted] && |page| == c.pageSize;
    hide KeyCells;
  }

  /** Page access `offset` of a key read. */
  method ReadPage(c: Config, ghost layout: Layout, ghost rs: seq<Resolved>, ghost key: Key, reader: Reader,
                  gate: int, base: nat, count: nat, offset: nat, before: seq<nat>) returns (cells: seq<nat>)
    requires Located(c, layout, rs, key, gate, base, count) && PagesSoFar(c, layout, gate, base, count, offset, before)
    requires reader.Valid() && reader.accesses < reader.maxAccesses && reader.stored != [] && reader.stored[0] == layout.pages
    modifies reader.Repr()
    ensures reader.Valid() && reader.accesses == old(reader.accesses) + 1
    ensures PagesSoFar(c, layout, gate, base, count, offset + 1, cells)
  {
    LocatedGate(c, layout, rs, key, gate, base, count);
    var active, wanted := PageAddress(c, layout, gate, base, count, offset);
    hide Located, PagesSoFar, Reader.Valid, Serves, Masked, Both, Zeros;
    var page, found, leaves := reader.Access(wanted);
    PageStep(c, layout, rs, key, gate, base, count, offset, before, active, wanted, page, found);
    cells := before + Masked(Both(active, found), page);
  }

  lemma {:induction false} LocatedGate(c: Config, layout: Layout, rs: seq<Resolved>, key: Key, gate: int, base: nat, count: nat)
    requires Located(c, layout, rs, key, gate, base, count)
    ensures 0 <= gate <= 1 && PagesSoFar(c, layout, gate, base, count, 0, [])
    ensures forall cells :: PagesSoFar(c, layout, gate, base, count, c.pagesPerKey, cells) ==> cells == KeyCells(c, rs, key)
  {
    hide KeyCells;
  }

  /** The `pages_per_key` page accesses of a key read, whatever the secret page count. */
  method ReadPages(c: Config, ghost layout: Layout, ghost rs: seq<Resolved>, ghost key: Key, reader: Reader,
                   gate: int, base: nat, count: nat) returns (cells: seq<nat>)
    requires Located(c, layout, rs, key, gate, base, count)
    requires reader.Valid() && reader.accesses + c.pagesPerKey <= reader.maxAccesses && reader.stored != [] && reader.stored[0] == layout.pages
    modifies reader.Repr()
    ensures reader.Valid() && reader.accesses == old(reader.accesses) + c.pagesPerKey
    ensures cells == KeyCells(c, rs, key)
  {
    LocatedGate(c, layout, rs, key, gate, base, count);
    hide Located, PagesSoFar, Reader.Valid, KeyCells;
    cells := [];
    for offset := 0 to c.pagesPerKey
      invariant reader.Valid() && reader.accesses == old(reader.accesses) + offset
      invariant PagesSoFar(c, layout, gate, base, count, offset, cells)
    {
      cells := ReadPage(c, layout, rs, key, reader, gate, base, count, offset, cells);
    }
  }

  /**
   * `read_relation_key` for one owner: one directory access and exactly `pages_per_key` page
   * accesses for any key at all, and the cells are the key's own records, padded with zeros.
   */
  method ReadRelationKey(c: Config, ghost edges: seq<RawEdge>, ghost rs: seq<Resolved>, ghost layout: Layout, s: OwnerStacks, key: Key, ghost n: nat)
    returns (cells: seq<nat>)
    requires Owned(c, edges, rs, layout) && Serving(c, layout, s, n) && Budgeted(c, s, n + 1)
    modifies s.Repr()
    ensures Serving(c, layout, s, n + 1)
    ensures cells == KeyCells(c, rs, key)
  {
    hide Owned, Located, Budgeted, Times, Reader.Valid, KeyCells, DirectoryRecords;
    BudgetParts(c, s, n);
    var gate, base, count := ReadDescriptor(c, edges, rs, layout, s, key, n);
    cells := ReadPages(c, layout, rs, key, s.pages, gate, base, count);
  }
}
