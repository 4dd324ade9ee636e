// One owner's relation-paged layout: a directory of descriptors over a pool of
// fixed-size pages.  Reading any key's fixed-width window gives back exactly
// that key's edges, sorted, followed by zeros.
module PageLayout {
  import opened Wrappers
  import opened Bits
  import opened PackedEdges
  import opened PageConfig
  import opened Sorting
  import opened OwnerEdges
  import opened KeyListing

  datatype Layout = Layout(directory: seq<nat>, residual: map<nat, nat>, pages: seq<seq<nat>>, realized: nat)

  function Zeros(n: nat): (r: seq<nat>)
    ensures |r| == n && forall i :: 0 <= i < n ==> r[i] == 0
  {
    seq(n, _ => 0)
  }

  function Stored(w: Widths, records: seq<Record>): (r: seq<nat>)
    ensures |r| == |records| && forall i :: 0 <= i < |r| ==> r[i] == PackedRecord(w, records[i])
  {
    seq(|records|, i requires 0 <= i < |records| => PackedRecord(w, records[i]))
  }

  /** `-(-n // size)`. */
  function PagesNeeded(n: nat, size: nat): (p: nat)
    requires size >= 1
  {
    Quotient(n + size - 1, size)
  }

  lemma {:induction false} PagesNeededCovers(n: nat, size: nat)
    requires size >= 1
    ensures n <= Times(PagesNeeded(n, size), size) < n + size
  {
    DivMod(n + size - 1, size);
  }

  lemma {:induction false} PagesNeededPositive(n: nat, size: nat)
    requires size >= 1 && n > 0
    ensures PagesNeeded(n, size) > 0
  {
    PagesNeededCovers(n, size);
    TimesFacts(PagesNeeded(n, size), size);
    hide PagesNeeded, Times;
  }

  function Min(a: nat, b: nat): nat {
    if a <= b then a else b
  }

  /** Page `j` of a key: its slice of the sorted records, zero-padded. */
  function KeyPage(w: Widths, records: seq<Record>, size: nat, j: nat): (page: seq<nat>)
    requires Times(j, size) < |records|
    ensures |page| == size
  {
    var from := Times(j, size);
    var to := Min(from + size, |records|);
    Stored(w, records[from..to]) + Zeros(size - (to - from))
  }

  // --- Window reads ---------------------------------------------------------------

  /** The first `p` pages of a window, with the pages past `count` masked to zero. */
  function Window(pages: seq<seq<nat>>, base: nat, count: nat, p: nat, size: nat): seq<nat>
    requires base + count <= |pages|
  {
    if p == 0 then []
    else Window(pages, base, count, p - 1, size) + if p - 1 < count then pages[base + (p - 1)] else Zeros(size)
  }

  /** The pages of a key are where its descriptor says. */
  ghost predicate Holds(w: Widths, pages: seq<seq<nat>>, base: nat, count: nat, records: seq<Record>, size: nat) {
    && base + count <= |pages|
    && forall j :: 0 <= j < count ==> Times(j, size) < |records| && pages[base + j] == KeyPage(w, records, size, j)
  }

  lemma {:induction false} WindowStep(w: Widths, pages: seq<seq<nat>>, base: nat, count: nat, records: seq<Record>, size: nat, p: nat)
    requires size >= 1 && count == PagesNeeded(|records|, size)
    requires Holds(w, pages, base, count, records, size)
    ensures var from, to := Min(Times(p, size), |records|), Min(Times(p, size) + size, |records|);
      (if p < count then pages[base + p] else Zeros(size)) == Stored(w, records[from..to]) + Zeros(size - (to - from))
  {
    PagesNeededCovers(|records|, size);
    if p >= count {
      TimesMonotone(count, p, size);
    }
  }

  /** The stored records with index below `n`, zero-padded to length `n`. */
  function PaddedPrefix(w: Widths, records: seq<Record>, n: nat): (r: seq<nat>)
    ensures |r| == n
  {
    Stored(w, records[..Min(n, |records|)]) + Zeros(n - Min(n, |records|))
  }

  lemma {:induction false} PaddedPrefixJoin(w: Widths, records: seq<Record>, a: nat, size: nat)
    ensures var from, to := Min(a, |records|), Min(a + size, |records|);
      PaddedPrefix(w, records, a + size)
      == PaddedPrefix(w, records, a) + (Stored(w, records[from..to]) + Zeros(size - (to - from)))
  {
    var from, to := Min(a, |records|), Min(a + size, |records|);
    StoredJoin(w, records, from, to);
    hide Stored, Zeros;
    var s, t := Stored(w, records[..from]), Stored(w, records[from..to]);
    if a >= |records| {
      assert t == [] && s + t == s;
      ZerosJoin(a - from, size);
      JoinBeyond(s, Zeros(a - from), Zeros(size));
    } else {
      ZerosJoin(0, 0);
      JoinWithin(s, t, Zeros(a + size - to));
    }
  }

  lemma {:induction false} ZerosJoin(a: nat, b: nat)
    ensures Zeros(a + b) == Zeros(a) + Zeros(b) && Zeros(0) == []
  {
  }

  lemma {:induction false} JoinBeyond(s: seq<nat>, x: seq<nat>, y: seq<nat>)
    ensures s + (x + y) == (s + x) + ([] + y)
  {
  }

  lemma {:induction false} JoinWithin(s: seq<nat>, t: seq<nat>, z: seq<nat>)
    ensures (s + t) + z == (s + []) + (t + z)
  {
  }

  lemma {:induction false} StoredJoin(w: Widths, records: seq<Record>, from: nat, to: nat)
    requires from <= to <= |records|
    ensures Stored(w, records[..to]) == Stored(w, records[..from]) + Stored(w, records[from..to])
  {
  }

  lemma {:induction false} WindowStart(w: Widths, pages: seq<seq<nat>>, base: nat, count: nat, records: seq<Record>, size: nat)
    requires Holds(w, pages, base, count, records, size)
    ensures Window(pages, base, count, 0, size) == PaddedPrefix(w, records, 0)
  {
  }

  /** A window's contents: the stored records, then zeros. */
  lemma {:induction false} WindowContents(w: Widths, pages: seq<seq<nat>>, base: nat, count: nat,
                                          records: seq<Record>, size: nat, p: nat)
    requires size >= 1 && count == PagesNeeded(|records|, size)
    requires Holds(w, pages, base, count, records, size)
    ensures Window(pages, base, count, p, size) == PaddedPrefix(w, records, Times(p, size))
  {
    hide PagesNeeded, Holds, Stored, PaddedPrefix, Zeros, Min, Times, KeyPage;
    TimesFacts(p, size);
    if p == 0 {
      WindowStart(w, pages, base, count, records, size);
    } else {
      WindowContents(w, pages, base, count, records, size, p - 1);
      WindowStep(w, pages, base, count, records, size, p - 1);
      PaddedPrefixJoin(w, records, Times(p - 1, size), size);
    }
  }

  // --- What a correct layout is ---------------------------------------------------

  /** The descriptor a reader resolves `key` to. */
  function DescriptorOf(c: Config, layout: Layout, key: Key): nat {
    match c.Address(key)
    case Some(row) => if row < |layout.directory| then layout.directory[row] else 0
    case None => if c.Tag(key) in layout.residual then layout.residual[c.Tag(key)] else 0
  }

  /** A key with its records in stored order. */
  datatype Entry = Entry(key: Key, records: seq<Record>)

  /** The entries in the order their pages are laid out. */
  function EntriesOf(rs: seq<Resolved>): (r: seq<Entry>)
    ensures |r| == |SortedKeys(rs)|
    ensures forall i :: 0 <= i < |r| ==> r[i] == Entry(SortedKeys(rs)[i], SortedAt(rs, SortedKeys(rs)[i]))
  {
    var keys := SortedKeys(rs);
    seq(|keys|, i requires 0 <= i < |keys| => Entry(keys[i], SortedAt(rs, keys[i])))
  }

  ghost predicate Separate(entries: seq<Entry>) {
    forall i, j :: 0 <= i < j < |entries| ==> entries[i].key != entries[j].key
  }

  /** Total pages of the entries laid out before position `i`. */
  function PagesBefore(entries: seq<Entry>, i: nat, size: nat): nat
    requires i <= |entries| && size >= 1
  {
    if i == 0 then 0
    else PagesBefore(entries, i - 1, size) + PagesNeeded(|entries[i - 1].records|, size)
  }

  lemma {:induction false} PagesBeforeMonotone(entries: seq<Entry>, i: nat, j: nat, size: nat)
    requires i <= j <= |entries| && size >= 1
    ensures PagesBefore(entries, i, size) <= PagesBefore(entries, j, size)
    decreases j
  {
    if i < j {
      PagesBeforeMonotone(entries, i, j - 1, size);
    }
  }

  predicate EntryFits(c: Config, e: Entry) {
    && c.pageSize >= 1
    && PagesNeeded(|e.records|, c.pageSize) <= c.pagesPerKey
    && |e.records| <= c.OwnerFrontier()
  }

  /** The owner's data fits every public bound. */
  ghost predicate Fitting(c: Config, entries: seq<Entry>) {
    && c.pageSize >= 1
    && (forall i :: 0 <= i < |entries| ==> EntryFits(c, entries[i]))
    && 1 + PagesBefore(entries, |entries|, c.pageSize) <= c.pageBudget
  }

  /** The `i`-th entry's pages sit right after those of the entries before it, where its descriptor points. */
  ghost predicate Placed(c: Config, entries: seq<Entry>, layout: Layout, i: nat) {
    && i < |entries| && c.pageSize >= 1 && c.pageBudget >= 1
    && var e := entries[i];
       var base := 1 + PagesBefore(entries, i, c.pageSize);
       var count := PagesNeeded(|e.records|, c.pageSize);
       && base + count <= c.pageBudget && count <= c.pagesPerKey
       && PackDescriptor(c, base, count) == Ok(DescriptorOf(c, layout, e.key))
       && Holds(c.EdgeWidths(), layout.pages, base, count, e.records, c.pageSize)
  }

  ghost predicate RowUsed(c: Config, entries: seq<Entry>, n: nat, row: nat) {
    exists i :: 0 <= i < n <= |entries| && c.Address(entries[i].key) == Some(row)
  }

  ghost predicate TagUsed(c: Config, entries: seq<Entry>, n: nat, tag: nat) {
    exists i :: 0 <= i < n <= |entries| && c.Address(entries[i].key) == None && c.Tag(entries[i].key) == tag
  }

  /** Every cell of a page fits the usable bits of a field element. */
  ghost predicate SmallPage(c: Config, page: seq<nat>) {
    forall i :: 0 <= i < |page| ==> page[i] < Pow2(c.usableBits)
  }

  /** Every page has the public size and stays below the modulus, and page 0 is the dummy page. */
  ghost predicate PoolShape(c: Config, layout: Layout) {
    && |layout.directory| == c.DirectoryRows()
    && |layout.pages| >= 1 && layout.pages[0] == Zeros(c.pageSize)
    && (forall j :: 0 <= j < |layout.pages| ==> |layout.pages[j]| == c.pageSize)
    && forall j :: 0 <= j < |layout.pages| ==> SmallPage(c, layout.pages[j])
  }

  /** A page of records that fit their bits. */
  lemma {:induction false} KeyPageSmall(c: Config, records: seq<Record>, j: nat)
    requires Times(j, c.pageSize) < |records| && c.EdgeWidths().Bits() <= c.usableBits
    requires forall i :: 0 <= i < |records| ==> RecordFits(c.EdgeWidths(), records[i])
    ensures SmallPage(c, KeyPage(c.EdgeWidths(), records, c.pageSize, j))
  {
    var from := Times(j, c.pageSize);
    var slice := records[from..Min(from + c.pageSize, |records|)];
    Pow2Monotone(c.EdgeWidths().Bits(), c.usableBits);
    forall i | 0 <= i < |slice|
      ensures PackedRecord(c.EdgeWidths(), slice[i]) < Pow2(c.usableBits)
    {
      PackedRecordReads(c.EdgeWidths(), slice[i]);
    }
    hide PackedRecord, Pow2, RecordFits;
  }

  /** Only rows and tags of the first `n` entries are occupied. */
  ghost predicate OnlyUsed(c: Config, entries: seq<Entry>, layout: Layout, n: nat) {
    && (forall row :: 0 <= row < |layout.directory| && layout.directory[row] != 0 ==> RowUsed(c, entries, n, row))
    && (forall tag :: tag in layout.residual ==> TagUsed(c, entries, n, tag))
  }

  /** The layout after the first `n` entries have been placed. */
  ghost predicate Progress(c: Config, entries: seq<Entry>, layout: Layout, n: nat) {
    && c.Valid() && n <= |entries|
    && PoolShape(c, layout)
    && |layout.pages| == 1 + PagesBefore(entries, n, c.pageSize)
    && (forall i :: 0 <= i < n ==> Placed(c, entries, layout, i))
    && OnlyUsed(c, entries, layout, n)
  }

  // --- Building ---------------------------------------------------------------------

  /** Pack one page's records and pad it. */
  method BuildPage(c: Config, records: seq<Record>) returns (page: seq<nat>)
    requires |records| <= c.pageSize && c.EdgeWidths().Bits() <= c.usableBits
    requires forall i :: 0 <= i < |records| ==> RecordFits(c.EdgeWidths(), records[i])
    ensures page == Stored(c.EdgeWidths(), records) + Zeros(c.pageSize - |records|)
  {
    page := [];
    for i := 0 to |records|
      invariant page == Stored(c.EdgeWidths(), records[..i])
    {
      FitsWidths(c.EdgeWidths(), records[i]);
      var packed := PackEdge(c.EdgeWidths(), FieldsOf(records[i], 1));
      page := page + [packed.value];
    }
    assert records[..|records|] == records;
    page := page + Zeros(c.pageSize - |records|);
  }

  /** All pages of one key. */
  method BuildPages(c: Config, records: seq<Record>) returns (pages: seq<seq<nat>>)
    requires c.pageSize >= 1 && c.EdgeWidths().Bits() <= c.usableBits
    requires forall i :: 0 <= i < |records| ==> RecordFits(c.EdgeWidths(), records[i])
    ensures |pages| == PagesNeeded(|records|, c.pageSize)
    ensures forall j :: 0 <= j < |pages| ==>
      Times(j, c.pageSize) < |records| && |pages[j]| == c.pageSize && SmallPage(c, pages[j])
      && pages[j] == KeyPage(c.EdgeWidths(), records, c.pageSize, j)
  {
    pages := [];
    var required := PagesNeeded(|records|, c.pageSize);
    hide PagesNeeded, Stored;
    for j := 0 to required
      invariant |pages| == j
      invariant forall i :: 0 <= i < j ==>
        Times(i, c.pageSize) < |records| && |pages[i]| == c.pageSize && SmallPage(c, pages[i])
        && pages[i] == KeyPage(c.EdgeWidths(), records, c.pageSize, i)
    {
      PageStart(|records|, c.pageSize, j);
      KeyPageSmall(c, records, j);
      hide SmallPage;
      var from := Times(j, c.pageSize);
      var window := records[from..Min(from + c.pageSize, |records|)];
      var page := BuildPage(c, window);
      pages := pages + [page];
    }
  }

  lemma {:induction false} PageStart(n: nat, size: nat, j: nat)
    requires size >= 1 && j < PagesNeeded(n, size)
    ensures Times(j, size) < n
  {
    PagesNeededCovers(n, size);
    TimesMonotone(j + 1, PagesNeeded(n, size), size);
    TimesFacts(j, size);
  }

  /** The layout with one more key's pages and descriptor. */
  function Place(c: Config, layout: Layout, key: Key, descriptor: nat, pages: seq<seq<nat>>): Layout {
    match c.Address(key)
    case Some(row) =>
      layout.(directory := if row < |layout.directory| then layout.directory[row := descriptor] else layout.directory,
              pages := layout.pages + pages)
    case None =>
      layout.(residual := layout.residual[c.Tag(key) := descriptor], pages := layout.pages + pages)
  }

  lemma {:induction false} DescriptorAfterPlace(c: Config, layout: Layout, key: Key, descriptor: nat, pages: seq<seq<nat>>, other: Key)
    requires c.Addressable() && c.InRange(key) && c.InRange(other) && |layout.directory| == c.DirectoryRows()
    ensures DescriptorOf(c, Place(c, layout, key, descriptor, pages), other)
         == if other == key then descriptor else DescriptorOf(c, layout, other)
  {
    if c.Address(key).Some? {
      AddressInRange(c, key);
      if c.Address(key) == c.Address(other) {
        AddressInjective(c, key, other);
      }
    }
    TagInjective(c, key, other);
  }

  /** What the builder has established about the next entry before it stores it. */
  ghost predicate Ready(c: Config, entries: seq<Entry>, layout: Layout, n: nat, descriptor: nat, pages: seq<seq<nat>>) {
    && n < |entries| && EntryFits(c, entries[n]) && c.pageBudget >= 1
    && |pages| == PagesNeeded(|entries[n].records|, c.pageSize)
    && |layout.pages| + |pages| <= c.pageBudget
    && PackDescriptor(c, |layout.pages|, |pages|) == Ok(descriptor)
    && forall j :: 0 <= j < |pages| ==>
         Times(j, c.pageSize) < |entries[n].records| && |pages[j]| == c.pageSize && SmallPage(c, pages[j])
         && pages[j] == KeyPage(c.EdgeWidths(), entries[n].records, c.pageSize, j)
  }

  lemma {:induction false} PlaceStep(c: Config, entries: seq<Entry>, layout: Layout, n: nat, descriptor: nat, pages: seq<seq<nat>>)
    requires Progress(c, entries, layout, n) && Ready(c, entries, layout, n, descriptor, pages)
    requires Separate(entries) && forall i :: 0 <= i < |entries| ==> c.InRange(entries[i].key)
    ensures Progress(c, entries, Place(c, layout, entries[n].key, descriptor, pages), n + 1)
  {
    var layout' := Place(c, layout, entries[n].key, descriptor, pages);
    forall i | 0 <= i < n + 1
      ensures Placed(c, entries, layout', i)
    {
      DescriptorAfterPlace(c, layout, entries[n].key, descriptor, pages, entries[i].key);
      PlacedStep(c, entries, layout, layout', n, descriptor, pages, i);
    }
    OnlyUsedStep(c, entries, layout, n, descriptor, pages);
    PoolShapeStep(c, layout, entries[n].key, descriptor, pages);
  }

  lemma {:induction false} PlacedStep(c: Config, entries: seq<Entry>, layout: Layout, layout': Layout, n: nat,
                   descriptor: nat, pages: seq<seq<nat>>, i: nat)
    requires i <= n && Progress(c, entries, layout, n) && Ready(c, entries, layout, n, descriptor, pages)
    requires layout'.pages == layout.pages + pages
    requires DescriptorOf(c, layout', entries[i].key)
          == if i == n then descriptor else DescriptorOf(c, layout, entries[i].key)
    ensures Placed(c, entries, layout', i)
  {
    hide PagesNeeded, PackDescriptor, KeyPage, DescriptorOf, PoolShape, OnlyUsed;
    if i < n {
      assert Placed(c, entries, layout, i);
    }
  }

  lemma {:induction false} OnlyUsedStep(c: Config, entries: seq<Entry>, layout: Layout, n: nat, descriptor: nat, pages: seq<seq<nat>>)
    requires n < |entries| && OnlyUsed(c, entries, layout, n)
    ensures OnlyUsed(c, entries, Place(c, layout, entries[n].key, descriptor, pages), n + 1)
  {
    var layout' := Place(c, layout, entries[n].key, descriptor, pages);
    forall row | 0 <= row < |layout'.directory| && layout'.directory[row] != 0
      ensures RowUsed(c, entries, n + 1, row)
    {
      if c.Address(entries[n].key) != Some(row) {
        assert RowUsed(c, entries, n, row);
      }
    }
    forall tag | tag in layout'.residual
      ensures TagUsed(c, entries, n + 1, tag)
    {
      if tag in layout.residual {
        assert TagUsed(c, entries, n, tag);
      }
    }
  }

  lemma {:induction false} PoolShapeStep(c: Config, layout: Layout, key: Key, descriptor: nat, pages: seq<seq<nat>>)
    requires PoolShape(c, layout) && forall j :: 0 <= j < |pages| ==> |pages[j]| == c.pageSize && SmallPage(c, pages[j])
    ensures PoolShape(c, Place(c, layout, key, descriptor, pages))
  {
    hide SmallPage;
  }

  // --- The finished layout -------------------------------------------------------

  /** A key's window holds exactly its sorted edges, then zeros. */
  ghost predicate ReadsBack(c: Config, rs: seq<Resolved>, layout: Layout, key: Key) {
    && c.pageBudget >= 1 && c.pageSize >= 1
    && var (base, count) := UnpackDescriptor(c, DescriptorOf(c, layout, key));
       && DescriptorOf(c, layout, key) < Pow2(c.DescriptorBits())
       && base < c.pageBudget && count <= c.pagesPerKey && base + count <= c.pageBudget <= |layout.pages|
       && count == PagesNeeded(|SortedAt(rs, key)|, c.pageSize) && (count > 0 ==> base >= 1)
       && |SortedAt(rs, key)| <= c.SlotsPerKey() && |SortedAt(rs, key)| <= c.OwnerFrontier()
       && Window(layout.pages, base, count, c.pagesPerKey, c.pageSize)
          == PaddedPrefix(c.EdgeWidths(), SortedAt(rs, key), c.SlotsPerKey())
  }

  /** Two keys' windows do not overlap. */
  ghost predicate Apart(c: Config, layout: Layout, a: Key, b: Key) {
    && c.pageBudget >= 1
    && var (base, count) := UnpackDescriptor(c, DescriptorOf(c, layout, a));
       var (base', count') := UnpackDescriptor(c, DescriptorOf(c, layout, b));
       count == 0 || count' == 0 || base + count <= base' || base' + count' <= base
  }

  /** Every occupied directory row and residual tag belongs to a key some edge could have. */
  ghost predicate OnlyKeysHeld(c: Config, layout: Layout) {
    && |layout.directory| == c.DirectoryRows()
    && (forall row :: 0 <= row < |layout.directory| && layout.directory[row] != 0 ==>
          exists key :: c.InRange(key) && c.Address(key) == Some(row))
    && (forall tag :: tag in layout.residual ==>
          exists key :: c.InRange(key) && c.Address(key) == None && c.Tag(key) == tag)
  }

  ghost predicate Lossless(c: Config, rs: seq<Resolved>, layout: Layout) {
    && c.Valid()
    && PoolShape(c, layout) && |layout.pages| == c.PoolRows()
    && (forall key :: c.InRange(key) ==> ReadsBack(c, rs, layout, key))
    && (forall a, b :: c.InRange(a) && c.InRange(b) && a != b ==> Apart(c, layout, a, b))
    && OnlyKeysHeld(c, layout)
  }

  // --- The pool, on the owner's own edges -----------------------------------------

  /** A stored edge, bit range by bit range. */
  ghost function CellOf(c: Config, e: RawEdge): int
    requires Known(c, e)
  {
    var w := c.EdgeWidths();
    c.entities[e.target]
    + Pow2(w.slotBits) * (c.relations[e.relation] + Pow2(w.relationBits) * (e.evidence + Pow2(w.evidenceBits) * (e.score + Pow2(w.scoreBits) * 1)))
  }

  /** Cell `i` of a key's page `j`: the listed edge of that number, or zero past the last one. */
  ghost predicate CellHolds(c: Config, edges: seq<RawEdge>, at: seq<nat>, j: nat, i: nat, cell: nat) {
    var t := Times(j, c.pageSize) + i;
    if t < |at| then at[t] < |edges| && Known(c, edges[at[t]]) && cell == CellOf(c, edges[at[t]]) else cell == 0
  }

  /** The key's pages hold the listed edges in order, on as few pages as possible. */
  ghost predicate PagesHold(c: Config, edges: seq<RawEdge>, layout: Layout, key: Key, at: seq<nat>) {
    && c.pageSize >= 1 && c.pageBudget >= 1
    && var (base, count) := UnpackDescriptor(c, DescriptorOf(c, layout, key));
       && base + count <= |layout.pages| && |at| <= Times(count, c.pageSize) < |at| + c.pageSize
       && forall j: nat :: j < count ==> PageHolds(c, edges, layout, at, base, j)
  }

  ghost predicate PageHolds(c: Config, edges: seq<RawEdge>, layout: Layout, at: seq<nat>, base: nat, j: nat) {
    && base + j < |layout.pages| && |layout.pages[base + j]| == c.pageSize
    && var page := layout.pages[base + j];
       forall i :: 0 <= i < |page| ==> CellHolds(c, edges, at, j, i, page[i])
  }

  /** A key's edges, ascending by target, relation, evidence and score, fill its pages. */
  ghost predicate KeyStored(c: Config, edges: seq<RawEdge>, layout: Layout, key: Key) {
    exists at: seq<nat> :: Lists(c, edges, true, key, at) && PagesHold(c, edges, layout, key, at)
  }

  /** Of two keys with pages, the one with the smaller source, or smaller relation, comes first in the pool. */
  ghost predicate PlacedInOrder(c: Config, layout: Layout, a: Key, b: Key) {
    && c.pageBudget >= 1
    && var (base, count) := UnpackDescriptor(c, DescriptorOf(c, layout, a));
       var (base', count') := UnpackDescriptor(c, DescriptorOf(c, layout, b));
       (a.source < b.source || (a.source == b.source && a.relation < b.relation)) && count > 0 && count' > 0 ==> base + count <= base'
  }

  /** A page of the realized pool belongs to a key. */
  ghost predicate PageTaken(c: Config, layout: Layout, p: nat) {
    c.pageBudget >= 1 && exists key ::
      c.InRange(key) && UnpackDescriptor(c, DescriptorOf(c, layout, key)).0 <= p
      < UnpackDescriptor(c, DescriptorOf(c, layout, key)).0 + UnpackDescriptor(c, DescriptorOf(c, layout, key)).1
  }

  /** The pool holds exactly the owner's edges: keys in ascending order from page 1 without gaps, zeros behind. */
  ghost predicate Orderly(c: Config, edges: seq<RawEdge>, layout: Layout) {
    && (forall key :: c.InRange(key) ==> KeyStored(c, edges, layout, key))
    && (forall a, b :: c.InRange(a) && c.InRange(b) ==> PlacedInOrder(c, layout, a, b))
    && 1 <= layout.realized <= |layout.pages|
    && (forall p: nat :: 1 <= p < layout.realized ==> PageTaken(c, layout, p))
    && forall p :: layout.realized <= p < |layout.pages| ==> layout.pages[p] == Zeros(c.pageSize)
  }

  /** The entries of an owner whose edges passed validation. */
  ghost predicate ProperEntries(c: Config, rs: seq<Resolved>, entries: seq<Entry>) {
    && entries == EntriesOf(rs)
    && Separate(entries)
    && (forall i :: 0 <= i < |entries| ==> c.InRange(entries[i].key))
    && (forall i, j :: 0 <= i < |entries| && 0 <= j < |entries[i].records| ==>
          RecordFits(c.EdgeWidths(), entries[i].records[j]))
  }

  lemma {:induction false} EntriesAreProper(c: Config, edges: seq<RawEdge>)
    requires c.Valid() && AllAcceptable(c, edges)
    ensures ProperEntries(c, ResolveAll(c, edges), EntriesOf(ResolveAll(c, edges)))
  {
    var rs := ResolveAll(c, edges);
    var entries := EntriesOf(rs);
    SortedKeysFacts(rs);
    OrdersAreTotal();
    forall i | 0 <= i < |entries|
      ensures c.InRange(entries[i].key)
    {
      KeyIsInRange(c, edges, entries[i].key);
    }
    forall i, j | 0 <= i < |entries| && 0 <= j < |entries[i].records|
      ensures RecordFits(c.EdgeWidths(), entries[i].records[j])
    {
      StoredRecordFacts(c, edges, entries[i].key, entries[i].records[j]);
    }
  }

  lemma {:induction false} KeyIsInRange(c: Config, edges: seq<RawEdge>, key: Key)
    requires c.Valid() && AllAcceptable(c, edges) && key in SortedKeys(ResolveAll(c, edges))
    ensures c.InRange(key)
  {
    var rs := ResolveAll(c, edges);
    OrdersAreTotal();
    SortByMembers(KeysOf(rs), KeyAtMost, key);
    KeysInUse(rs, key);
    var i :| 0 <= i < |rs| && rs[i].key == key;
    ResolvedFacts(c, edges, i);
  }

  /** Every stored record comes from an edge of its key. */
  lemma {:induction false} StoredRecordFacts(c: Config, edges: seq<RawEdge>, key: Key, e: Record)
    requires c.Valid() && AllAcceptable(c, edges) && e in SortedAt(ResolveAll(c, edges), key)
    ensures RecordFits(c.EdgeWidths(), e) && 1 <= e.target < c.EntityCount()
  {
    var rs := ResolveAll(c, edges);
    OrdersAreTotal();
    SortByMembers(RecordsAt(rs, key), RecordAtMost, e);
    RecordsAtMembers(rs, key, e);
    var i :| 0 <= i < |rs| && rs[i] == Resolved(key, e);
    ResolvedFacts(c, edges, i);
  }

  /** Place one entry; the bounds it must meet are checked in the source's order. */
  method PlaceEntry(c: Config, ghost entries: seq<Entry>, layout: Layout, n: nat, key: Key, unsorted: seq<Record>)
    returns (r: Result<Layout>)
    requires c.EdgeWidths().Bits() <= c.usableBits
    requires Progress(c, entries, layout, n) && n < |entries|
    requires Separate(entries) && forall i :: 0 <= i < |entries| ==> c.InRange(entries[i].key)
    requires unsorted != [] && entries[n] == Entry(key, SortBy(unsorted, RecordAtMost))
    requires forall j :: 0 <= j < |entries[n].records| ==> RecordFits(c.EdgeWidths(), entries[n].records[j])
    ensures r.Ok? <==> EntryFits(c, entries[n]) && 1 + PagesBefore(entries, n + 1, c.pageSize) <= c.pageBudget
    ensures r.Ok? ==> Progress(c, entries, r.value, n + 1)
  {
    var required := PagesNeeded(|unsorted|, c.pageSize);
    if required > c.pagesPerKey {
      return Err(TooManyPages);
    }
    if |unsorted| > c.OwnerFrontier() {
      return Err(FrontierExceeded);
    }
    var records := SortBy(unsorted, RecordAtMost);
    var base := |layout.pages|;
    if base + required > c.pageBudget {
      return Err(BudgetExceeded);
    }
    PagesNeededPositive(|unsorted|, c.pageSize);
    hide PagesNeeded, Progress;
    var pages := BuildPages(c, records);
    DescriptorRoundTrip(c, base, required);
    hide PackDescriptor;
    var descriptor := PackDescriptor(c, base, required).value;
    PlaceStep(c, entries, layout, n, descriptor, pages);
    r := Ok(Place(c, layout, key, descriptor, pages));
  }

  /** Pad the pool to its public height. */
  method PadPool(c: Config, ghost entries: seq<Entry>, layout: Layout) returns (r: Layout)
    requires Progress(c, entries, layout, |entries|) && |layout.pages| <= c.PoolRows()
    ensures r.directory == layout.directory && r.residual == layout.residual
    ensures PoolShape(c, r) && |r.pages| == c.PoolRows()
    ensures forall i :: 0 <= i < |entries| ==> Placed(c, entries, r, i)
    ensures OnlyUsed(c, entries, r, |entries|) && r.realized == |layout.pages| && c.pageSize >= 1
    ensures r.realized == 1 + PagesBefore(entries, |entries|, c.pageSize) <= |r.pages|
    ensures forall p :: r.realized <= p < |r.pages| ==> r.pages[p] == Zeros(c.pageSize)
  {
    var pages := layout.pages;
    while |pages| < c.PoolRows()
      invariant layout.pages <= pages && |pages| <= c.PoolRows()
      invariant forall p :: |layout.pages| <= p < |pages| ==> pages[p] == Zeros(c.pageSize)
      invariant forall j :: 0 <= j < |pages| ==> |pages[j]| == c.pageSize && SmallPage(c, pages[j])
    {
      pages := pages + [Zeros(c.pageSize)];
    }
    r := layout.(pages := pages, realized := |layout.pages|);
    forall i | 0 <= i < |entries|
      ensures Placed(c, entries, r, i)
    {
      assert Placed(c, entries, layout, i);
      hide PagesNeeded, PackDescriptor, KeyPage;
    }
  }

  lemma {:induction false} GroupedKeys(rs: seq<Resolved>, grouped: Grouped)
    requires Groups(grouped, rs)
    ensures SortBy(grouped.order, KeyAtMost) == SortedKeys(rs)
  {
    hide SortBy, KeysOf, RecordsAt;
  }

  lemma {:induction false} EntryCount(c: Config, rs: seq<Resolved>, entries: seq<Entry>)
    requires ProperEntries(c, rs, entries)
    ensures |entries| == |SortedKeys(rs)|
  {
    hide SortedKeys, SortedAt, RecordFits;
  }

  lemma {:induction false} FitsAll(c: Config, entries: seq<Entry>)
    ensures FittingUpTo(c, entries, |entries|) <==> Fitting(c, entries)
  {
    hide EntryFits, PagesBefore;
  }

  /** The `n`-th key in layout order. */
  method PlaceNext(c: Config, ghost rs: seq<Resolved>, ghost entries: seq<Entry>, grouped: Grouped, layout: Layout, n: nat, key: Key)
    returns (r: Result<Layout>)
    requires Groups(grouped, rs) && ProperEntries(c, rs, entries) && n < |SortedKeys(rs)| && key == SortedKeys(rs)[n]
    requires rs != [] ==> c.EdgeWidths().Bits() <= c.usableBits
    requires Progress(c, entries, layout, n) && FittingUpTo(c, entries, n)
    ensures r.Err? ==> !Fitting(c, entries)
    ensures r.Ok? ==> Progress(c, entries, r.value, n + 1) && FittingUpTo(c, entries, n + 1)
  {
    hide *;
    KeyIsGrouped(rs, grouped, key);
    ProperEntry(c, rs, entries, n);
    r := PlaceEntry(c, entries, layout, n, key, grouped.records[key]);
    FittingStep(c, entries, n);
  }

  /** Lay out the keys one after another. */
  method PlaceAll(c: Config, ghost rs: seq<Resolved>, ghost entries: seq<Entry>, grouped: Grouped)
    returns (r: Result<Layout>)
    requires c.Valid() && Groups(grouped, rs) && ProperEntries(c, rs, entries)
    requires rs != [] ==> c.EdgeWidths().Bits() <= c.usableBits
    ensures r.Ok? <==> Fitting(c, entries)
    ensures r.Ok? ==> Progress(c, entries, r.value, |entries|)
  {
    var keys := SortBy(grouped.order, KeyAtMost);
    StartProgress(c, entries);
    GroupedKeys(rs, grouped);
    EntryCount(c, rs, entries);
    FitsAll(c, entries);
    hide *;
    var layout := EmptyLayout(c);
    for n := 0 to |keys|
      invariant Progress(c, entries, layout, n)
      invariant FittingUpTo(c, entries, n)
    {
      var placed := PlaceNext(c, rs, entries, grouped, layout, n, keys[n]);
      if placed.Err? {
        return Err(placed.error);
      }
      layout := placed.value;
    }
    r := Ok(layout);
  }

  function EmptyLayout(c: Config): Layout {
    Layout(seq(c.DirectoryRows(), _ => 0), map[], [Zeros(c.pageSize)], 0)
  }

  lemma {:induction false} StartProgress(c: Config, entries: seq<Entry>)
    requires c.Valid()
    ensures Progress(c, entries, EmptyLayout(c), 0) && FittingUpTo(c, entries, 0)
  {
  }

  /** The first `n` entries fit the bounds. */
  ghost predicate FittingUpTo(c: Config, entries: seq<Entry>, n: nat) {
    && c.pageSize >= 1 && n <= |entries|
    && (forall i :: 0 <= i < n ==> EntryFits(c, entries[i]))
    && 1 + PagesBefore(entries, n, c.pageSize) <= c.pageBudget
  }

  lemma {:induction false} FittingStep(c: Config, entries: seq<Entry>, n: nat)
    requires FittingUpTo(c, entries, n) && n < |entries|
    ensures c.pageSize >= 1
    ensures FittingUpTo(c, entries, n + 1)
       <==> EntryFits(c, entries[n]) && 1 + PagesBefore(entries, n + 1, c.pageSize) <= c.pageBudget
    ensures !FittingUpTo(c, entries, n + 1) ==> !Fitting(c, entries)
  {
    hide EntryFits;
    PagesBeforeMonotone(entries, n + 1, |entries|, c.pageSize);
  }

  lemma {:induction false} ProperEntry(c: Config, rs: seq<Resolved>, entries: seq<Entry>, n: nat)
    requires ProperEntries(c, rs, entries) && n < |SortedKeys(rs)|
    ensures |entries| == |SortedKeys(rs)| && Separate(entries)
    ensures forall i :: 0 <= i < |entries| ==> c.InRange(entries[i].key)
    ensures entries[n] == Entry(SortedKeys(rs)[n], SortedAt(rs, SortedKeys(rs)[n]))
    ensures forall j :: 0 <= j < |entries[n].records| ==> RecordFits(c.EdgeWidths(), entries[n].records[j])
  {
    hide SortBy, SortedAt, SortedKeys, RecordFits;
  }

  lemma {:induction false} KeyIsGrouped(rs: seq<Resolved>, grouped: Grouped, key: Key)
    requires Groups(grouped, rs) && key in SortedKeys(rs)
    ensures rs != [] && key in grouped.records
    ensures grouped.records[key] == RecordsAt(rs, key) != []
    ensures SortedAt(rs, key) == SortBy(grouped.records[key], RecordAtMost)
  {
    SortedKeysFacts(rs);
    KeysOfMembers(rs, key);
  }

  /**
   * Build one owner's layout.  It succeeds exactly when every edge is valid and
   * every public bound holds, and then no edge is lost.
   */
  method BuildOwnerPageLayout(c: Config, edges: seq<RawEdge>) returns (r: Result<Layout>)
    requires c.Valid()
    ensures r.Ok? <==> AllAcceptable(c, edges) && Fitting(c, EntriesOf(ResolveAll(c, edges)))
    ensures r.Ok? ==> Lossless(c, ResolveAll(c, edges), r.value)
    ensures r.Ok? ==> Orderly(c, edges, r.value)
  {
    var grouped := GroupEdges(c, edges);
    if grouped.Err? {
      return Err(grouped.error);
    }
    ghost var rs := ResolveAll(c, edges);
    ghost var entries := EntriesOf(rs);
    EntriesAreProper(c, edges);
    assert edges != [] ==> Acceptable(c, edges[0]);
    hide ProperEntries, Groups, Progress, EntriesOf, Orderly;
    var placed := PlaceAll(c, rs, entries, grouped.value);
    if placed.Err? {
      return Err(placed.error);
    }
    var padded := Finish(c, edges, rs, entries, placed.value);
    r := Ok(padded);
  }

  method Finish(c: Config, ghost edges: seq<RawEdge>, ghost rs: seq<Resolved>, ghost entries: seq<Entry>, layout: Layout) returns (r: Layout)
    requires c.Valid() && ProperEntries(c, rs, entries) && AllAcceptable(c, edges) && rs == ResolveAll(c, edges)
    requires Fitting(c, entries) && Progress(c, entries, layout, |entries|)
    ensures Lossless(c, rs, r) && Orderly(c, edges, r)
  {
    r := PadPool(c, entries, layout);
    FinishedIsLossless(c, rs, entries, r);
    hide Lossless, ProperEntries, Fitting, PoolShape, Placed, AllAcceptable;
    FinishedIsOrderly(c, edges, rs, entries, r);
  }

  lemma {:induction false} FinishedIsLossless(c: Config, rs: seq<Resolved>, entries: seq<Entry>, layout: Layout)
    requires c.Valid() && ProperEntries(c, rs, entries)
    requires PoolShape(c, layout) && |layout.pages| == c.PoolRows()
    requires forall i :: 0 <= i < |entries| ==> Placed(c, entries, layout, i) && EntryFits(c, entries[i])
    requires OnlyUsed(c, entries, layout, |entries|)
    ensures Lossless(c, rs, layout)
  {
    forall key | c.InRange(key)
      ensures ReadsBack(c, rs, layout, key)
    {
      KeyReadsBack(c, rs, entries, layout, key);
    }
    forall a, b | c.InRange(a) && c.InRange(b) && a != b
      ensures Apart(c, layout, a, b)
    {
      KeysApart(c, rs, entries, layout, a, b);
    }
    forall row | 0 <= row < |layout.directory| && layout.directory[row] != 0
      ensures exists key :: c.InRange(key) && c.Address(key) == Some(row)
    {
      assert RowUsed(c, entries, |entries|, row);
      var i :| 0 <= i < |entries| && c.Address(entries[i].key) == Some(row);
      assert c.InRange(entries[i].key);
    }
    forall tag | tag in layout.residual
      ensures exists key :: c.InRange(key) && c.Address(key) == None && c.Tag(key) == tag
    {
      assert TagUsed(c, entries, |entries|, tag);
      var i :| 0 <= i < |entries| && c.Address(entries[i].key) == None && c.Tag(entries[i].key) == tag;
      assert c.InRange(entries[i].key);
    }
  }

  /** The layout position of a key, or that it holds nothing. */
  lemma {:induction false} FindEntry(c: Config, rs: seq<Resolved>, entries: seq<Entry>, layout: Layout, key: Key) returns (i: int)
    requires c.Valid() && ProperEntries(c, rs, entries) && c.InRange(key)
    requires |layout.directory| == c.DirectoryRows() && OnlyUsed(c, entries, layout, |entries|)
    ensures -1 <= i < |entries|
    ensures i >= 0 ==> entries[i] == Entry(key, SortedAt(rs, key))
    ensures i < 0 ==> SortedAt(rs, key) == [] && DescriptorOf(c, layout, key) == 0
  {
    SortedKeysFacts(rs);
    if key in SortedKeys(rs) {
      i :| 0 <= i < |SortedKeys(rs)| && SortedKeys(rs)[i] == key;
    } else {
      i := -1;
      forall j | 0 <= j < |entries|
        ensures c.Address(entries[j].key) != c.Address(key) || c.Address(key) == None
        ensures c.Tag(entries[j].key) != c.Tag(key)
      {
        assert entries[j].key == SortedKeys(rs)[j] != key;
        TagInjective(c, entries[j].key, key);
        if c.Address(key).Some? && c.Address(entries[j].key) == c.Address(key) {
          AddressInjective(c, entries[j].key, key);
        }
      }
      NothingStored(c, entries, layout, key);
    }
  }

  lemma {:induction false} NothingStored(c: Config, entries: seq<Entry>, layout: Layout, key: Key)
    requires OnlyUsed(c, entries, layout, |entries|)
    requires forall j :: 0 <= j < |entries| ==>
      (c.Address(entries[j].key) != c.Address(key) || c.Address(key) == None) && c.Tag(entries[j].key) != c.Tag(key)
    ensures DescriptorOf(c, layout, key) == 0
  {
    if c.Address(key).Some? {
      assert !RowUsed(c, entries, |entries|, c.Address(key).value);
    } else {
      assert !TagUsed(c, entries, |entries|, c.Tag(key));
    }
  }

  lemma {:induction false} PagesNeededZero(size: nat)
    requires size >= 1
    ensures PagesNeeded(0, size) == 0
  {
    SmallQuotient(size - 1, size);
  }

  /** The window a key's descriptor denotes, and which entry it belongs to, if any. */
  lemma {:induction false} KeyWindow(c: Config, rs: seq<Resolved>, entries: seq<Entry>, layout: Layout, key: Key)
    returns (i: int, base: nat, count: nat)
    requires c.Valid() && ProperEntries(c, rs, entries) && c.InRange(key)
    requires PoolShape(c, layout) && |layout.pages| == c.PoolRows()
    requires forall i :: 0 <= i < |entries| ==> Placed(c, entries, layout, i)
    requires OnlyUsed(c, entries, layout, |entries|)
    ensures -1 <= i < |entries|
    ensures i >= 0 ==> entries[i] == Entry(key, SortedAt(rs, key)) && base == 1 + PagesBefore(entries, i, c.pageSize)
    ensures i < 0 ==> SortedAt(rs, key) == []
    ensures count == PagesNeeded(|SortedAt(rs, key)|, c.pageSize)
    ensures UnpackDescriptor(c, DescriptorOf(c, layout, key)) == (base, count)
    ensures DescriptorOf(c, layout, key) < Pow2(c.DescriptorBits())
    ensures base < c.pageBudget && count <= c.pagesPerKey && base + count <= c.pageBudget && (count > 0 ==> base >= 1)
    ensures Holds(c.EdgeWidths(), layout.pages, base, count, SortedAt(rs, key), c.pageSize)
  {
    i := FindEntry(c, rs, entries, layout, key);
    base, count := 0, 0;
    if i >= 0 {
      hide *;
      base, count := PlacedWindow(c, entries, layout, i);
    } else {
      PagesNeededZero(c.pageSize);
      EmptyDescriptor(c);
      hide PagesNeeded, ProperEntries, OnlyUsed, PoolShape, DescriptorOf, KeyPage, UnpackDescriptor, SortedAt;
    }
  }

  lemma {:induction false} PlacedWindow(c: Config, entries: seq<Entry>, layout: Layout, i: nat) returns (base: nat, count: nat)
    requires Placed(c, entries, layout, i)
    ensures i < |entries| && c.pageSize >= 1 && c.pageBudget >= 1
    ensures base == 1 + PagesBefore(entries, i, c.pageSize)
    ensures count == PagesNeeded(|entries[i].records|, c.pageSize)
    ensures UnpackDescriptor(c, DescriptorOf(c, layout, entries[i].key)) == (base, count)
    ensures DescriptorOf(c, layout, entries[i].key) < Pow2(c.DescriptorBits())
    ensures base < c.pageBudget && count <= c.pagesPerKey && base + count <= c.pageBudget
    ensures Holds(c.EdgeWidths(), layout.pages, base, count, entries[i].records, c.pageSize)
  {
    base, count := 1 + PagesBefore(entries, i, c.pageSize), PagesNeeded(|entries[i].records|, c.pageSize);
    DescriptorRoundTrip(c, base, count);
    hide UnpackDescriptor, DescriptorOf, Holds, PagesNeeded;
  }

  lemma {:induction false} KeyReadsBack(c: Config, rs: seq<Resolved>, entries: seq<Entry>, layout: Layout, key: Key)
    requires c.Valid() && ProperEntries(c, rs, entries) && c.InRange(key)
    requires PoolShape(c, layout) && |layout.pages| == c.PoolRows()
    requires forall i :: 0 <= i < |entries| ==> Placed(c, entries, layout, i) && EntryFits(c, entries[i])
    requires OnlyUsed(c, entries, layout, |entries|)
    ensures ReadsBack(c, rs, layout, key)
  {
    hide PagesNeeded, Placed, ProperEntries, OnlyUsed;
    var i, base, count := KeyWindow(c, rs, entries, layout, key);
    var records := SortedAt(rs, key);
    PagesNeededCovers(|records|, c.pageSize);
    TimesMonotone(count, c.pagesPerKey, c.pageSize);
    WindowContents(c.EdgeWidths(), layout.pages, base, count, records, c.pageSize, c.pagesPerKey);
  }

  lemma {:induction false} KeysApart(c: Config, rs: seq<Resolved>, entries: seq<Entry>, layout: Layout, a: Key, b: Key)
    requires c.Valid() && ProperEntries(c, rs, entries) && c.InRange(a) && c.InRange(b) && a != b
    requires PoolShape(c, layout) && |layout.pages| == c.PoolRows()
    requires forall i :: 0 <= i < |entries| ==> Placed(c, entries, layout, i)
    requires OnlyUsed(c, entries, layout, |entries|)
    ensures Apart(c, layout, a, b)
  {
    hide Placed, ProperEntries, OnlyUsed, PoolShape, UnpackDescriptor, Holds;
    var i, base, count := KeyWindow(c, rs, entries, layout, a);
    var j, base', count' := KeyWindow(c, rs, entries, layout, b);
    PagesNeededZero(c.pageSize);
    if 0 <= i < j {
      PagesBeforeMonotone(entries, i + 1, j, c.pageSize);
    } else if 0 <= j < i {
      PagesBeforeMonotone(entries, j + 1, i, c.pageSize);
    }
  }

  // --- The finished pool, on the owner's own edges ---------------------------------------------------

  lemma {:induction false} CellIsPacked(c: Config, e: RawEdge, r: Record)
    requires RecordIs(c, e, r)
    ensures CellOf(c, e) == PackedRecord(c.EdgeWidths(), r)
  {
    PackedFormat(c.EdgeWidths(), r);
    hide PackedRecord, Pow2;
  }

  /** A page of listed records, cell by cell. */
  lemma {:induction false} PageCell(c: Config, edges: seq<RawEdge>, records: seq<Record>, at: seq<nat>, j: nat, i: nat)
    requires RecordsAre(c, edges, at, records) && Times(j, c.pageSize) < |records| && i < c.pageSize
    ensures CellHolds(c, edges, at, j, i, KeyPage(c.EdgeWidths(), records, c.pageSize, j)[i])
  {
    var t := Times(j, c.pageSize) + i;
    if t < |at| {
      assert RecordIs(c, edges[at[t]], records[t]);
      CellIsPacked(c, edges[at[t]], records[t]);
    }
    hide CellOf, PackedRecord, Times;
  }

  lemma {:induction false} HeldPage(c: Config, edges: seq<RawEdge>, layout: Layout, base: nat, records: seq<Record>, at: seq<nat>, j: nat)
    requires RecordsAre(c, edges, at, records) && Times(j, c.pageSize) < |records| && base + j < |layout.pages|
    requires layout.pages[base + j] == KeyPage(c.EdgeWidths(), records, c.pageSize, j)
    ensures PageHolds(c, edges, layout, at, base, j)
  {
    var page := layout.pages[base + j];
    hide KeyPage, CellHolds, Times, RecordsAre;
    forall i | 0 <= i < |page|
      ensures CellHolds(c, edges, at, j, i, page[i])
    {
      PageCell(c, edges, records, at, j, i);
    }
  }

  lemma {:induction false} HeldPages(c: Config, edges: seq<RawEdge>, layout: Layout, key: Key, base: nat, count: nat, records: seq<Record>, at: seq<nat>)
    requires c.pageSize >= 1 && c.pageBudget >= 1 && RecordsAre(c, edges, at, records)
    requires UnpackDescriptor(c, DescriptorOf(c, layout, key)) == (base, count) && count == PagesNeeded(|records|, c.pageSize)
    requires Holds(c.EdgeWidths(), layout.pages, base, count, records, c.pageSize)
    ensures PagesHold(c, edges, layout, key, at)
  {
    PagesNeededCovers(|records|, c.pageSize);
    assert base + count <= |layout.pages|;
    forall j: nat | j < count
      ensures PageHolds(c, edges, layout, at, base, j)
    {
      assert Times(j, c.pageSize) < |records| && layout.pages[base + j] == KeyPage(c.EdgeWidths(), records, c.pageSize, j);
      HeldPage(c, edges, layout, base, records, at, j);
    }
    hide PageHolds, PagesNeeded, UnpackDescriptor, DescriptorOf, Times, Holds;
  }

  lemma {:induction false} AcceptableUsable(c: Config, edges: seq<RawEdge>)
    requires AllAcceptable(c, edges)
    ensures Usable(c, edges)
  {
  }

  lemma {:induction false} KeyIsStored(c: Config, edges: seq<RawEdge>, rs: seq<Resolved>, entries: seq<Entry>, layout: Layout, key: Key)
    requires c.Valid() && ProperEntries(c, rs, entries) && c.InRange(key) && AllAcceptable(c, edges) && rs == ResolveAll(c, edges)
    requires PoolShape(c, layout) && |layout.pages| == c.PoolRows()
    requires forall i :: 0 <= i < |entries| ==> Placed(c, entries, layout, i)
    requires OnlyUsed(c, entries, layout, |entries|)
    ensures KeyStored(c, edges, layout, key)
  {
    assert c.pageSize >= 1 && c.pageBudget >= 1;
    AcceptableUsable(c, edges);
    hide *;
    var i, base, count := KeyWindow(c, rs, entries, layout, key);
    var at := StoredListing(c, edges, key);
    HeldPages(c, edges, layout, key, base, count, SortedAt(rs, key), at);
    StoredIs(c, edges, layout, key, at);
  }

  lemma {:induction false} StoredIs(c: Config, edges: seq<RawEdge>, layout: Layout, key: Key, at: seq<nat>)
    requires Lists(c, edges, true, key, at) && PagesHold(c, edges, layout, key, at)
    ensures KeyStored(c, edges, layout, key)
  {
    hide Lists, PagesHold;
  }

  lemma {:induction false} SortedPair(keys: seq<Key>, i: nat, j: nat)
    requires SortedBy(keys, KeyAtMost) && i < j < |keys|
    ensures KeyAtMost(keys[i], keys[j])
  {
  }

  /** Entries are laid out by ascending key. */
  lemma {:induction false} EntriesAscend(c: Config, rs: seq<Resolved>, entries: seq<Entry>, i: nat, j: nat)
    requires ProperEntries(c, rs, entries) && i < |entries| && j < |entries| && i != j
    requires entries[i].key.source < entries[j].key.source
          || (entries[i].key.source == entries[j].key.source && entries[i].key.relation < entries[j].key.relation)
    ensures i < j
  {
    OrdersAreTotal();
    SortBySorted(KeysOf(rs), KeyAtMost);
    var keys := SortedKeys(rs);
    assert entries[i].key == keys[i] && entries[j].key == keys[j];
    hide SortedAt, KeysOf, SortBy, ProperEntries;
    if j < i {
      SortedPair(keys, j, i);
    }
  }

  lemma {:induction false} KeysInOrder(c: Config, rs: seq<Resolved>, entries: seq<Entry>, layout: Layout, a: Key, b: Key)
    requires c.Valid() && ProperEntries(c, rs, entries) && c.InRange(a) && c.InRange(b)
    requires PoolShape(c, layout) && |layout.pages| == c.PoolRows()
    requires forall i :: 0 <= i < |entries| ==> Placed(c, entries, layout, i)
    requires OnlyUsed(c, entries, layout, |entries|)
    ensures PlacedInOrder(c, layout, a, b)
  {
    PagesNeededZero(c.pageSize);
    assert c.pageSize >= 1 && c.pageBudget >= 1;
    hide *;
    var i, base, count := KeyWindow(c, rs, entries, layout, a);
    var j, base', count' := KeyWindow(c, rs, entries, layout, b);
    WindowsInOrder(c, rs, entries, layout, a, i, base, count, b, j, base', count');
  }

  lemma {:induction false} WindowsInOrder(c: Config, rs: seq<Resolved>, entries: seq<Entry>, layout: Layout,
                                          a: Key, i: int, base: nat, count: nat, b: Key, j: int, base': nat, count': nat)
    requires c.pageBudget >= 1 && c.pageSize >= 1 && ProperEntries(c, rs, entries) && -1 <= i < |entries| && -1 <= j < |entries|
    requires UnpackDescriptor(c, DescriptorOf(c, layout, a)) == (base, count)
    requires UnpackDescriptor(c, DescriptorOf(c, layout, b)) == (base', count')
    requires i >= 0 ==> entries[i].key == a && entries[i].records == SortedAt(rs, a) && base == 1 + PagesBefore(entries, i, c.pageSize)
    requires j >= 0 ==> entries[j].key == b && base' == 1 + PagesBefore(entries, j, c.pageSize)
    requires count == PagesNeeded(|SortedAt(rs, a)|, c.pageSize) && count' == PagesNeeded(|SortedAt(rs, b)|, c.pageSize)
    requires i < 0 ==> SortedAt(rs, a) == []
    requires j < 0 ==> SortedAt(rs, b) == []
    requires PagesNeeded(0, c.pageSize) == 0
    ensures PlacedInOrder(c, layout, a, b)
  {
    hide ProperEntries, UnpackDescriptor, DescriptorOf, SortedAt, PagesNeeded;
    if (a.source < b.source || (a.source == b.source && a.relation < b.relation)) && count > 0 && count' > 0 {
      EntriesAscend(c, rs, entries, i, j);
      PagesBeforeMonotone(entries, i + 1, j, c.pageSize);
    }
  }

  /** The entry whose pages hold a position. */
  lemma {:induction false} EntryAround(entries: seq<Entry>, n: nat, p: nat, size: nat) returns (i: nat)
    requires n <= |entries| && size >= 1 && p < PagesBefore(entries, n, size)
    ensures i < n && PagesBefore(entries, i, size) <= p < PagesBefore(entries, i, size) + PagesNeeded(|entries[i].records|, size)
  {
    hide PagesNeeded;
    if PagesBefore(entries, n - 1, size) <= p {
      i := n - 1;
    } else {
      i := EntryAround(entries, n - 1, p, size);
    }
  }

  lemma {:induction false} PageIsTaken(c: Config, rs: seq<Resolved>, entries: seq<Entry>, layout: Layout, p: nat)
    requires c.Valid() && ProperEntries(c, rs, entries)
    requires forall i :: 0 <= i < |entries| ==> Placed(c, entries, layout, i)
    requires 1 <= p < 1 + PagesBefore(entries, |entries|, c.pageSize)
    ensures PageTaken(c, layout, p)
  {
    var i := EntryAround(entries, |entries|, p - 1, c.pageSize);
    assert Placed(c, entries, layout, i) && c.InRange(entries[i].key);
    hide ProperEntries, Placed, PagesNeeded, PagesBefore, UnpackDescriptor, DescriptorOf;
    var base, count := PlacedWindow(c, entries, layout, i);
  }

  lemma {:induction false} FinishedIsOrderly(c: Config, edges: seq<RawEdge>, rs: seq<Resolved>, entries: seq<Entry>, layout: Layout)
    requires c.Valid() && ProperEntries(c, rs, entries) && AllAcceptable(c, edges) && rs == ResolveAll(c, edges)
    requires PoolShape(c, layout) && |layout.pages| == c.PoolRows()
    requires forall i :: 0 <= i < |entries| ==> Placed(c, entries, layout, i)
    requires OnlyUsed(c, entries, layout, |entries|)
    requires layout.realized == 1 + PagesBefore(entries, |entries|, c.pageSize) <= |layout.pages|
    requires forall p :: layout.realized <= p < |layout.pages| ==> layout.pages[p] == Zeros(c.pageSize)
    ensures Orderly(c, edges, layout)
  {
    hide ProperEntries, AllAcceptable, PoolShape, Placed, OnlyUsed, Config.Valid, KeyStored, PlacedInOrder, PageTaken, PagesBefore;
    forall key | c.InRange(key)
      ensures KeyStored(c, edges, layout, key)
    {
      KeyIsStored(c, edges, rs, entries, layout, key);
    }
    forall a, b | c.InRange(a) && c.InRange(b)
      ensures PlacedInOrder(c, layout, a, b)
    {
      KeysInOrder(c, rs, entries, layout, a, b);
    }
    forall p: nat | 1 <= p < layout.realized
      ensures PageTaken(c, layout, p)
    {
      PageIsTaken(c, rs, entries, layout, p);
    }
  }
}
