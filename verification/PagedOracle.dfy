// The cleartext evaluator over built layouts: it reads fixed-width windows,
// compacts, forms candidates, sorts, and pads -- and thereby computes the
// query's meaning on the raw edges.
module PagedOracle {
  import opened Wrappers
  import opened Bits
  import opened FieldPacking
  import opened PackedEdges
  import opened PageConfig
  import opened OwnerEdges
  import opened PageLayout

  /** The all-zero tuple of an unused slot. */
  const EMPTY_RECORD := Record(0, 0, 0, 0)

  /** The matches among read slots. */
  function Matches(slots: seq<Record>): (r: seq<Record>)
    ensures |r| <= |slots|
  {
    if slots == [] then []
    else
      var n := |slots| - 1;
      Matches(slots[..n]) + if slots[n].target != 0 then [slots[n]] else []
  }

  lemma {:induction false} MatchesConcat(a: seq<Record>, b: seq<Record>)
    ensures Matches(a + b) == Matches(a) + Matches(b)
  {
    if b == [] {
      assert a + b == a;
    } else {
      var n := |b| - 1;
      MatchesConcat(a, b[..n]);
      assert (a + b)[..|a| + n] == a + b[..n];
    }
  }

  lemma {:induction false} MatchesOfReal(records: seq<Record>)
    requires forall i :: 0 <= i < |records| ==> records[i].target != 0
    ensures Matches(records) == records
  {
    if records != [] {
      MatchesOfReal(records[..|records| - 1]);
    }
  }

  lemma {:induction false} MatchesAreReal(slots: seq<Record>)
    ensures forall i :: 0 <= i < |Matches(slots)| ==> Matches(slots)[i].target != 0
  {
    if slots != [] {
      MatchesAreReal(slots[..|slots| - 1]);
    }
  }

  function Blank(n: nat): (r: seq<Record>)
    ensures |r| == n
  {
    seq(n, _ => EMPTY_RECORD)
  }

  lemma {:induction false} MatchesOfBlank(n: nat)
    ensures Matches(Blank(n)) == []
  {
    if n > 0 {
      MatchesOfBlank(n - 1);
      assert Blank(n)[..n - 1] == Blank(n - 1);
    }
  }

  /** Compaction to a declared width, which raises when the width is too small. */
  function CompactTo(slots: seq<Record>, width: nat): (r: Result<seq<Record>>)
    ensures r.Ok? <==> |Matches(slots)| <= width
  {
    var matches := Matches(slots);
    if |matches| > width then Err(FrontierExceeded) else Ok(matches + Blank(width - |matches|))
  }

  lemma {:induction false} CompactKeepsMatches(slots: seq<Record>, width: nat)
    requires |Matches(slots)| <= width
    ensures Matches(CompactTo(slots, width).value) == Matches(slots)
  {
    MatchesAreReal(slots);
    MatchesOfReal(Matches(slots));
    MatchesOfBlank(width - |Matches(slots)|);
    MatchesConcat(Matches(slots), Blank(width - |Matches(slots)|));
  }

  // --- Reading one owner's window ---------------------------------------------

  /** The tuple a stored value decodes to. */
  function Decode(w: Widths, value: nat): Record {
    if value == 0 then EMPTY_RECORD
    else
      var f := Unpack(value, w.List());
      if f[4] == 0 || f[0] == 0 then EMPTY_RECORD else Record(f[0], f[1], f[2], f[3])
  }

  function DecodeAll(w: Widths, values: seq<nat>): (r: seq<Record>)
    ensures |r| == |values| && forall i :: 0 <= i < |r| ==> r[i] == Decode(w, values[i])
  {
    seq(|values|, i requires 0 <= i < |values| => Decode(w, values[i]))
  }

  /** The value can be decoded without an error. */
  ghost predicate Decodable(w: Widths, value: nat) {
    value != 0 ==> w.Bits() <= w.usableBits && value < Pow2(w.Bits())
  }

  method DecodeValue(w: Widths, value: nat) returns (slot: Record)
    requires Decodable(w, value)
    ensures slot == Decode(w, value)
  {
    if value == 0 {
      return EMPTY_RECORD;
    }
    var fields := UnpackEdge(w, value);
    var f := fields.value;
    if f[4] == 0 || f[0] == 0 {
      return EMPTY_RECORD;
    }
    slot := Record(f[0], f[1], f[2], f[3]);
  }

  /** Every stored value of an accepted owner decodes to the edge it came from. */
  lemma {:induction false} WindowDecodes(c: Config, edges: seq<RawEdge>, key: Key)
    requires c.Valid() && AllAcceptable(c, edges)
    requires |SortedAt(ResolveAll(c, edges), key)| <= c.SlotsPerKey()
    ensures var records := SortedAt(ResolveAll(c, edges), key);
      var window := PaddedPrefix(c.EdgeWidths(), records, c.SlotsPerKey());
      && AllDecodable(c.EdgeWidths(), window)
      && Matches(DecodeAll(c.EdgeWidths(), window)) == records
  {
    var w, records := c.EdgeWidths(), SortedAt(ResolveAll(c, edges), key);
    var n := c.SlotsPerKey();
    var window := PaddedPrefix(w, records, n);
    assert edges != [] ==> Acceptable(c, edges[0]);
    SortedAtEmpty(c, edges, key);
    forall i | 0 <= i < |records|
      ensures Decode(w, window[i]) == records[i] && Decodable(w, window[i]) && records[i].target != 0
    {
      StoredRecordFacts(c, edges, key, records[i]);
      assert window[i] == PackedRecord(w, records[i]);
      PackedRecordReads(w, records[i]);
    }
    assert forall i :: |records| <= i < n ==> window[i] == 0;
    assert DecodeAll(w, window) == records + Blank(n - |records|);
    MatchesOfReal(records);
    MatchesOfBlank(n - |records|);
    MatchesConcat(records, Blank(n - |records|));
  }

  lemma {:induction false} SortedAtEmpty(c: Config, edges: seq<RawEdge>, key: Key)
    requires c.Valid() && AllAcceptable(c, edges)
    ensures edges == [] ==> SortedAt(ResolveAll(c, edges), key) == []
  {
  }

  /** One owner's fixed-width read of a key: page-major, slot-major, inactive pages masked. */
  method ReadOwner(c: Config, ghost edges: seq<RawEdge>, layout: Layout, key: Key) returns (slots: seq<Record>)
    requires c.Valid() && AllAcceptable(c, edges) && Lossless(c, ResolveAll(c, edges), layout)
    requires key.source < c.EntityCount() && 1 <= key.relation <= c.RelationCount()
    ensures |slots| == c.SlotsPerKey()
    ensures Matches(slots) == SortedAt(ResolveAll(c, edges), key)
    ensures |Matches(slots)| <= c.OwnerFrontier()
  {
    var descriptor := if key.source == 0 then 0 else DescriptorOf(c, layout, key);
    var (base, count) := UnpackDescriptor(c, descriptor);
    hide *;
    KeyWindowContents(c, edges, layout, key, base, count);
    WindowDecodes(c, edges, key);
    slots := ReadWindow(c.EdgeWidths(), layout.pages, base, count, c.pagesPerKey, c.pageSize);
  }

  /** Decode the `p` pages of a window in order. */
  method ReadWindow(w: Widths, pages: seq<seq<nat>>, base: nat, count: nat, p: nat, size: nat)
    returns (slots: seq<Record>)
    requires base + count <= |pages|
    requires AllDecodable(w, Window(pages, base, count, p, size))
    ensures slots == DecodeAll(w, Window(pages, base, count, p, size))
  {
    slots := [];
    for number := 0 to p
      invariant slots == DecodeAll(w, Window(pages, base, count, number, size))
    {
      var active := number < count;
      var values := if active then pages[base + number] else Zeros(size);
      WindowPage(w, pages, base, count, number, p, size);
      hide Window, Decode, AllDecodable;
      var read := DecodePage(w, values);
      DecodeAllConcat(w, Window(pages, base, count, number, size), values);
      slots := slots + read;
    }
  }

  lemma {:induction false} WindowPage(w: Widths, pages: seq<seq<nat>>, base: nat, count: nat, number: nat, p: nat, size: nat)
    requires base + count <= |pages| && number < p
    requires AllDecodable(w, Window(pages, base, count, p, size))
    ensures var values := if number < count then pages[base + number] else Zeros(size);
      && Window(pages, base, count, number + 1, size) == Window(pages, base, count, number, size) + values
      && AllDecodable(w, values)
  {
    WindowPrefix(pages, base, count, number + 1, p, size);
    var values := if number < count then pages[base + number] else Zeros(size);
    var before, all := Window(pages, base, count, number, size), Window(pages, base, count, p, size);
    assert before + values <= all;
    forall i | 0 <= i < |values|
      ensures Decodable(w, values[i])
    {
      assert values[i] == all[|before| + i];
    }
  }

  ghost predicate AllDecodable(w: Widths, values: seq<nat>) {
    forall i :: 0 <= i < |values| ==> Decodable(w, values[i])
  }

  /** Decode a page's values; a masked page is passed in as zeros. */
  method DecodePage(w: Widths, values: seq<nat>) returns (slots: seq<Record>)
    requires AllDecodable(w, values)
    ensures slots == DecodeAll(w, values)
  {
    slots := [];
    for i := 0 to |values|
      invariant slots == DecodeAll(w, values[..i])
    {
      var slot := DecodeValue(w, values[i]);
      slots := slots + [slot];
    }
    assert values[..|values|] == values;
  }

  lemma {:induction false} DecodeAllConcat(w: Widths, a: seq<nat>, b: seq<nat>)
    ensures DecodeAll(w, a + b) == DecodeAll(w, a) + DecodeAll(w, b)
  {
    hide Decode;
  }

  /** The first pages of a window are a prefix of it. */
  lemma {:induction false} WindowPrefix(pages: seq<seq<nat>>, base: nat, count: nat, p: nat, q: nat, size: nat)
    requires base + count <= |pages| && p <= q
    ensures Window(pages, base, count, p, size) <= Window(pages, base, count, q, size)
    decreases q
  {
    if p < q {
      WindowPrefix(pages, base, count, p, q - 1, size);
    }
  }

  /** The window an oracle read walks over, for any key including the dummy entity's. */
  lemma {:induction false} KeyWindowContents(c: Config, edges: seq<RawEdge>, layout: Layout, key: Key, base: nat, count: nat)
    requires c.Valid() && AllAcceptable(c, edges) && Lossless(c, ResolveAll(c, edges), layout)
    requires key.source < c.EntityCount() && 1 <= key.relation <= c.RelationCount()
    requires (base, count) == UnpackDescriptor(c, if key.source == 0 then 0 else DescriptorOf(c, layout, key))
    ensures base + count <= c.pageBudget <= |layout.pages| && count <= c.pagesPerKey
    ensures forall j :: 0 <= j < |layout.pages| ==> |layout.pages[j]| == c.pageSize
    ensures var records := SortedAt(ResolveAll(c, edges), key);
      && |records| <= c.SlotsPerKey() && |records| <= c.OwnerFrontier()
      && Window(layout.pages, base, count, c.pagesPerKey, c.pageSize) == PaddedPrefix(c.EdgeWidths(), records, c.SlotsPerKey())
  {
    if key.source == 0 {
      DummyKeyIsEmpty(c, edges, key);
      EmptyDescriptor(c);
      PagesNeededZero(c.pageSize);
      WindowContents(c.EdgeWidths(), layout.pages, base, count, [], c.pageSize, c.pagesPerKey);
    } else {
      assert ReadsBack(c, ResolveAll(c, edges), layout, key);
    }
  }

  /** No edge leaves the reserved entity. */
  lemma {:induction false} DummyKeyIsEmpty(c: Config, edges: seq<RawEdge>, key: Key)
    requires c.Valid() && AllAcceptable(c, edges) && !c.InRange(key)
    ensures SortedAt(ResolveAll(c, edges), key) == []
  {
    var rs := ResolveAll(c, edges);
    if RecordsAt(rs, key) != [] {
      SortedKeysFacts(rs);
      KeyIsInRange(c, edges, key);
    }
  }
}
