// Building the type-blocked layout from the public catalogue: it is refused
// exactly when a type is not contiguous in the numbering or a domain is empty,
// and otherwise every (entity, relation) pair the ontology allows has its row.
module TypeBlockBuilder {
  import opened Wrappers
  import opened Sorting
  import opened PageConfig

  /** The public type map: names to identifiers, entities to types, relations to domains. */
  datatype Ontology = Ontology(entityIds: map<string, nat>, relationIds: map<string, nat>,
                               entityTypes: map<string, string>, relationDomains: map<string, string>)

  /** Identifiers are unique and contiguous from 1, as the public configuration enforces. */
  ghost predicate Numbered(ids: map<string, nat>) {
    && (forall name :: name in ids ==> 1 <= ids[name] <= |ids|)
    && (forall a, b :: a in ids && b in ids && ids[a] == ids[b] ==> a == b)
    && forall id: nat :: 1 <= id <= |ids| ==> Named(ids, id)
  }

  ghost predicate Named(ids: map<string, nat>, id: nat) {
    exists name :: name in ids && ids[name] == id
  }

  /** The entity named `name` is of type `t`. */
  predicate Typed(o: Ontology, name: string, t: string) {
    name in o.entityIds && name in o.entityTypes && o.entityTypes[name] == t
  }

  /** A type's entities occupy exactly the slots from `start` on. */
  ghost predicate Occupies(o: Ontology, t: string, start: nat, width: nat) {
    width >= 1 && forall name :: name in o.entityIds ==> (Typed(o, name, t) <==> start <= o.entityIds[name] < start + width)
  }

  /** The slots all belong to entities. */
  ghost predicate Spans(o: Ontology, t: string, start: nat, width: nat) {
    Occupies(o, t, start, width) && start >= 1 && start + width <= |o.entityIds| + 1
  }

  /** A type whose entities are contiguous in the public numbering. */
  ghost predicate Contiguous(o: Ontology, t: string) {
    exists start: nat, width: nat :: Spans(o, t, start, width)
  }

  /** What the builder demands of the public map. */
  ghost predicate WellTyped(o: Ontology) {
    && Covers(o) && !HasBlank(o.entityTypes) && !HasBlank(o.relationDomains)
    && TypesContiguous(o) && DomainsInhabited(o)
  }

  /** Every entity has one type and every relation one domain. */
  predicate Covers(o: Ontology) {
    o.entityTypes.Keys == o.entityIds.Keys && o.relationDomains.Keys == o.relationIds.Keys
  }

  predicate HasBlank(m: map<string, string>) {
    exists name :: name in m && m[name] == ""
  }

  ghost predicate TypesContiguous(o: Ontology) {
    forall name :: name in o.entityTypes ==> Contiguous(o, o.entityTypes[name])
  }

  ghost predicate DomainsInhabited(o: Ontology) {
    forall name :: name in o.relationDomains ==> HasEntity(o, o.relationDomains[name])
  }

  ghost predicate HasEntity(o: Ontology, t: string) {
    exists name :: Typed(o, name, t)
  }

  // --- One type ------------------------------------------------------------------------------

  predicate NatAtMost(a: nat, b: nat) {
    a <= b
  }

  /** The type's slots, in some order. */
  ghost predicate SlotsOf(o: Ontology, t: string, slots: seq<nat>) {
    && Distinct(slots)
    && forall id: nat :: id in slots <==> HasSlot(o, t, id)
  }

  ghost predicate HasSlot(o: Ontology, t: string, id: nat) {
    exists name :: Typed(o, name, t) && o.entityIds[name] == id
  }

  /** The loop over the entities: those outside `pending` have been collected. */
  ghost predicate Collected(o: Ontology, t: string, pending: set<string>, slots: seq<nat>) {
    && Distinct(slots)
    && forall id: nat :: id in slots <==> exists name :: name !in pending && Typed(o, name, t) && o.entityIds[name] == id
  }

  /** `by_type[t]`, sorted. */
  method SortedSlots(o: Ontology, t: string) returns (slots: seq<nat>)
    requires Numbered(o.entityIds) && o.entityTypes.Keys == o.entityIds.Keys
    ensures SlotsOf(o, t, slots) && SortedBy(slots, NatAtMost)
  {
    var pending := o.entityIds.Keys;
    var all: seq<nat> := [];
    while pending != {}
      invariant pending <= o.entityIds.Keys && Collected(o, t, pending, all)
      decreases pending
    {
      var name :| name in pending;
      if o.entityTypes[name] == t {
        CollectTyped(o, t, pending, all, name);
        all := all + [o.entityIds[name]];
      } else {
        CollectOther(o, t, pending, all, name);
      }
      pending := pending - {name};
    }
    SortBySorted(all, NatAtMost);
    SortByDistinct(all, NatAtMost);
    slots := SortBy(all, NatAtMost);
    forall id: nat
      ensures id in slots <==> HasSlot(o, t, id)
    {
      SortByMembers(all, NatAtMost, id);
    }
  }

  lemma {:induction false} CollectTyped(o: Ontology, t: string, pending: set<string>, slots: seq<nat>, name: string)
    requires Numbered(o.entityIds) && Collected(o, t, pending, slots) && name in pending && Typed(o, name, t)
    ensures Collected(o, t, pending - {name}, slots + [o.entityIds[name]])
  {
    var id, more := o.entityIds[name], slots + [o.entityIds[name]];
    forall other: nat
      ensures other in more <==> exists n :: n !in pending - {name} && Typed(o, n, t) && o.entityIds[n] == other
    {
      if other in slots {
        var n :| n !in pending && Typed(o, n, t) && o.entityIds[n] == other;
        assert n !in pending - {name};
      }
    }
    assert id !in slots;
  }

  lemma {:induction false} CollectOther(o: Ontology, t: string, pending: set<string>, slots: seq<nat>, name: string)
    requires Collected(o, t, pending, slots) && name in pending && !Typed(o, name, t)
    ensures Collected(o, t, pending - {name}, slots)
  {
    forall other: nat
      ensures other in slots <==> exists n :: n !in pending - {name} && Typed(o, n, t) && o.entityIds[n] == other
    {
      if other in slots {
        var n :| n !in pending && Typed(o, n, t) && o.entityIds[n] == other;
        assert n !in pending - {name};
      }
    }
  }

  /** `range(start, start + n)`. */
  function RangeFrom(start: nat, n: nat): (r: seq<nat>)
    ensures |r| == n && forall i :: 0 <= i < n ==> r[i] == start + i
  {
    if n == 0 then [] else RangeFrom(start, n - 1) + [start + n - 1]
  }

  lemma {:induction false} InRangeFrom(start: nat, n: nat, x: nat)
    ensures x in RangeFrom(start, n) <==> start <= x < start + n
  {
    if start <= x < start + n {
      assert RangeFrom(start, n)[x - start] == x;
    }
  }

  /** A sorted list of distinct slots equals its range exactly when no slot is skipped. */
  lemma {:induction false} SortedRange(slots: seq<nat>, start: nat, n: nat)
    requires Distinct(slots) && SortedBy(slots, NatAtMost)
    ensures slots == RangeFrom(start, n) <==> forall x: nat :: x in slots <==> start <= x < start + n
  {
    forall x: nat
      ensures x in RangeFrom(start, n) <==> start <= x < start + n
    {
      InRangeFrom(start, n, x);
    }
    if forall x: nat :: x in slots <==> start <= x < start + n {
      DistinctCounts(slots);
      RangeDistinct(start, n);
      forall x: nat
        ensures multiset(slots)[x] == multiset(RangeFrom(start, n))[x]
      {
        assert x in slots <==> x in multiset(slots);
        assert x in RangeFrom(start, n) <==> x in multiset(RangeFrom(start, n));
      }
      SortedUnique(slots, RangeFrom(start, n), NatAtMost);
    }
  }

  lemma {:induction false} RangeDistinct(start: nat, n: nat)
    ensures SortedBy(RangeFrom(start, n), NatAtMost) && TotalOrder(NatAtMost)
    ensures forall x :: x in RangeFrom(start, n) ==> multiset(RangeFrom(start, n))[x] == 1
  {
    DistinctCounts(RangeFrom(start, n));
  }

  /** The type's start and width, or nothing when a slot is skipped. */
  method TypeSpan(o: Ontology, t: string) returns (r: Option<(nat, nat)>)
    requires Numbered(o.entityIds) && o.entityTypes.Keys == o.entityIds.Keys && HasEntity(o, t)
    ensures r.Some? <==> Contiguous(o, t)
    ensures r.Some? ==> Spans(o, t, r.value.0, r.value.1)
  {
    var slots := SortedSlots(o, t);
    SlotsNotEmpty(o, t, slots);
    var start, width := slots[0], |slots|;
    SortedRange(slots, start, width);
    if slots == RangeFrom(start, width) {
      RangeSpans(o, t, slots, start, width);
      r := Some((start, width));
    } else {
      GapNotContiguous(o, t, slots);
      r := None;
    }
  }

  lemma {:induction false} SlotsNotEmpty(o: Ontology, t: string, slots: seq<nat>)
    requires SlotsOf(o, t, slots) && HasEntity(o, t)
    ensures slots != []
  {
    var name :| Typed(o, name, t);
    assert HasSlot(o, t, o.entityIds[name]);
    assert o.entityIds[name] in slots;
  }

  /** With unique identifiers, a slot belongs to a type exactly when its entity does. */
  lemma {:induction false} SlotTyped(o: Ontology, t: string, name: string)
    requires Numbered(o.entityIds) && name in o.entityIds
    ensures HasSlot(o, t, o.entityIds[name]) <==> Typed(o, name, t)
  {
  }

  lemma {:induction false} RangeSpans(o: Ontology, t: string, slots: seq<nat>, start: nat, width: nat)
    requires Numbered(o.entityIds) && SlotsOf(o, t, slots) && slots != [] && |slots| == width
    requires slots == RangeFrom(start, width)
    ensures Spans(o, t, start, width) && Contiguous(o, t)
  {
    forall name | name in o.entityIds
      ensures Typed(o, name, t) <==> start <= o.entityIds[name] < start + width
    {
      InRangeFrom(start, width, o.entityIds[name]);
      SlotTyped(o, t, name);
      assert o.entityIds[name] in slots <==> HasSlot(o, t, o.entityIds[name]);
    }
    InRangeFrom(start, width, start);
    InRangeFrom(start, width, start + width - 1);
    assert HasSlot(o, t, start) && HasSlot(o, t, start + width - 1);
    assert Occupies(o, t, start, width);
    assert Spans(o, t, start, width);
  }

  /** A type that spans a range has exactly the slots of that range. */
  lemma {:induction false} SpanIsRange(o: Ontology, t: string, slots: seq<nat>, start: nat, width: nat)
    requires Numbered(o.entityIds) && o.entityTypes.Keys == o.entityIds.Keys
    requires SlotsOf(o, t, slots) && SortedBy(slots, NatAtMost) && Spans(o, t, start, width)
    ensures slots == RangeFrom(start, width)
  {
    forall x: nat
      ensures x in slots <==> start <= x < start + width
    {
      if start <= x < start + width {
        assert Named(o.entityIds, x);
        var name :| name in o.entityIds && o.entityIds[name] == x;
        assert Typed(o, name, t);
        assert HasSlot(o, t, x);
      }
      if x in slots {
        assert HasSlot(o, t, x);
      }
    }
    SortedRange(slots, start, width);
  }

  lemma {:induction false} GapNotContiguous(o: Ontology, t: string, slots: seq<nat>)
    requires Numbered(o.entityIds) && o.entityTypes.Keys == o.entityIds.Keys
    requires SlotsOf(o, t, slots) && SortedBy(slots, NatAtMost) && slots != [] && slots != RangeFrom(slots[0], |slots|)
    ensures !Contiguous(o, t)
  {
    forall start: nat, width: nat
      ensures Spans(o, t, start, width) ==> slots == RangeFrom(slots[0], |slots|)
    {
      if Spans(o, t, start, width) {
        SpanIsRange(o, t, slots, start, width);
      }
    }
  }

  // --- The whole layout ------------------------------------------------------------------------

  /** The spans of the types seen so far. */
  ghost predicate SpansKnown(o: Ontology, pending: set<string>, spans: map<string, (nat, nat)>) {
    && (forall t :: t in spans ==> HasEntity(o, t) && Spans(o, t, spans[t].0, spans[t].1))
    && forall name :: name in o.entityTypes && o.entityTypes[name] !in pending ==> o.entityTypes[name] in spans
  }

  /** Every type's span, or nothing when some type is not contiguous. */
  method AllSpans(o: Ontology) returns (r: Option<map<string, (nat, nat)>>)
    requires Numbered(o.entityIds) && o.entityTypes.Keys == o.entityIds.Keys
    ensures r.Some? <==> TypesContiguous(o)
    ensures r.Some? ==> SpansKnown(o, {}, r.value)
  {
    var types := set name | name in o.entityTypes :: o.entityTypes[name];
    var pending := types;
    var spans: map<string, (nat, nat)> := map[];
    while pending != {}
      invariant pending <= types && SpansKnown(o, pending, spans)
      decreases pending
    {
      var t :| t in pending;
      TypeHasEntity(o, t);
      hide *;
      var span := TypeSpan(o, t);
      if span.None? {
        SomeGap(o, t);
        return None;
      }
      AddSpan(o, pending, spans, t, span.value);
      spans := spans[t := span.value];
      pending := pending - {t};
    }
    AllContiguous(o, spans);
    r := Some(spans);
  }

  lemma {:induction false} SomeGap(o: Ontology, t: string)
    requires !Contiguous(o, t) && t in (set name | name in o.entityTypes :: o.entityTypes[name])
    ensures !TypesContiguous(o)
  {
    hide Contiguous;
  }

  lemma {:induction false} AddSpan(o: Ontology, pending: set<string>, spans: map<string, (nat, nat)>, t: string, span: (nat, nat))
    requires SpansKnown(o, pending, spans) && HasEntity(o, t) && Spans(o, t, span.0, span.1)
    ensures SpansKnown(o, pending - {t}, spans[t := span])
  {
    hide Spans, HasEntity;
  }

  lemma {:induction false} AllContiguous(o: Ontology, spans: map<string, (nat, nat)>)
    requires SpansKnown(o, {}, spans)
    ensures TypesContiguous(o)
  {
    hide Spans;
    forall name | name in o.entityTypes
      ensures Contiguous(o, o.entityTypes[name])
    {
      assert o.entityTypes[name] in spans;
    }
  }

  lemma {:induction false} TypeHasEntity(o: Ontology, t: string)
    requires o.entityTypes.Keys == o.entityIds.Keys && t in (set name | name in o.entityTypes :: o.entityTypes[name])
    ensures HasEntity(o, t)
  {
    var name :| name in o.entityTypes && o.entityTypes[name] == t;
    assert name in o.entityIds.Keys;
    assert Typed(o, name, t);
  }

  /** A domain has a span exactly when some entity has that type. */
  lemma {:induction false} KnownDomain(o: Ontology, spans: map<string, (nat, nat)>, t: string)
    requires o.entityTypes.Keys == o.entityIds.Keys && SpansKnown(o, {}, spans)
    ensures t in spans <==> HasEntity(o, t)
  {
    if HasEntity(o, t) {
      var name :| Typed(o, name, t);
      assert o.entityTypes[name] in spans;
    }
  }

  /** The block of relation `r` stores the keys of its domain's entities. */
  ghost predicate BlockFor(o: Ontology, b: Block, relation: nat) {
    forall name :: name in o.relationIds && o.relationIds[name] == relation ==>
      name in o.relationDomains && Spans(o, o.relationDomains[name], b.typeStart, b.width)
  }

  ghost predicate InCatalogue(o: Ontology, b: Block) {
    b.width >= 1 && 1 <= b.typeStart && b.typeStart + b.width <= |o.entityIds| + 1
  }

  /** The first blocks, end to end. */
  ghost predicate BlocksSoFar(o: Ontology, blocks: seq<Block>, cursor: nat) {
    && (forall r :: 0 <= r < |blocks| ==> BlockFor(o, blocks[r], r + 1) && InCatalogue(o, blocks[r]))
    && (blocks != [] ==> blocks[0].blockStart == 1)
    && (forall r :: 0 < r < |blocks| ==> blocks[r].blockStart == blocks[r - 1].blockStart + blocks[r - 1].width)
    && cursor == if blocks == [] then 1 else blocks[|blocks| - 1].blockStart + blocks[|blocks| - 1].width
  }

  lemma {:induction false} NextBlock(o: Ontology, blocks: seq<Block>, cursor: nat, name: string, start: nat, width: nat)
    requires Numbered(o.relationIds) && o.relationDomains.Keys == o.relationIds.Keys && BlocksSoFar(o, blocks, cursor)
    requires name in o.relationIds && o.relationIds[name] == |blocks| + 1 && Spans(o, o.relationDomains[name], start, width)
    ensures BlocksSoFar(o, blocks + [Block(start, width, cursor)], cursor + width)
  {
    var b := Block(start, width, cursor);
    forall other | other in o.relationIds && o.relationIds[other] == |blocks| + 1
      ensures other in o.relationDomains && Spans(o, o.relationDomains[other], start, width)
    {
      assert other == name;
    }
    assert BlockFor(o, b, |blocks| + 1);
    assert Occupies(o, o.relationDomains[name], start, width);
    hide BlockFor, Occupies;
  }

  lemma {:induction false} NoBlocks(o: Ontology)
    ensures BlocksSoFar(o, [], 1)
  {
  }

  lemma {:induction false} LaidOutWith(o: Ontology, blocks: seq<Block>, cursor: nat)
    requires BlocksSoFar(o, blocks, cursor)
    ensures LaidOut(o, blocks)
  {
  }

  ghost predicate LaidOut(o: Ontology, blocks: seq<Block>) {
    exists cursor :: BlocksSoFar(o, blocks, cursor)
  }

  /** The name at a position of the identifier order. */
  method NameOf(ids: map<string, nat>, id: nat) returns (name: string)
    requires Numbered(ids) && 1 <= id <= |ids|
    ensures name in ids && ids[name] == id
  {
    assert Named(ids, id);
    name :| name in ids && ids[name] == id;
  }

  lemma {:induction false} SpanOf(o: Ontology, spans: map<string, (nat, nat)>, name: string)
    requires o.relationDomains.Keys == o.relationIds.Keys && SpansKnown(o, {}, spans) && DomainsKnown(o, spans) && name in o.relationIds
    ensures name in o.relationDomains && o.relationDomains[name] in spans
    ensures var span := spans[o.relationDomains[name]]; Spans(o, o.relationDomains[name], span.0, span.1)
  {
    assert name in o.relationDomains.Keys;
    hide Spans;
  }

  /** `block_start[relation] = cursor; cursor += type_size[domain]`, in relation-identifier order. */
  method LayBlocks(o: Ontology, spans: map<string, (nat, nat)>) returns (blocks: seq<Block>)
    requires Numbered(o.relationIds) && o.relationDomains.Keys == o.relationIds.Keys && SpansKnown(o, {}, spans)
    requires DomainsKnown(o, spans)
    ensures |blocks| == |o.relationIds| && LaidOut(o, blocks)
  {
    blocks := [];
    var cursor := 1;
    NoBlocks(o);
    hide *;
    for r := 0 to |o.relationIds|
      invariant |blocks| == r && BlocksSoFar(o, blocks, cursor)
    {
      var name := NameOf(o.relationIds, r + 1);
      SpanOf(o, spans, name);
      var span := spans[o.relationDomains[name]];
      NextBlock(o, blocks, cursor, name, span.0, span.1);
      blocks := blocks + [Block(span.0, span.1, cursor)];
      cursor := cursor + span.1;
    }
    LaidOutWith(o, blocks, cursor);
  }

  /** Every named pair has a row exactly when the entity's type is the relation's domain. */
  ghost predicate PlacesByType(o: Ontology, t: TypeBlocks) {
    forall entity, relation :: entity in o.entityIds && relation in o.relationIds ==> Places(o, t, entity, relation)
  }

  ghost predicate Places(o: Ontology, t: TypeBlocks, entity: string, relation: string) {
    && entity in o.entityIds && relation in o.relationIds && relation in o.relationDomains
    && (t.Address(Key(o.entityIds[entity], o.relationIds[relation])).Some? <==> Typed(o, entity, o.relationDomains[relation]))
  }

  lemma {:induction false} BlocksAreLayout(o: Ontology, blocks: seq<Block>)
    requires Numbered(o.relationIds) && Numbered(o.entityIds) && o.relationDomains.Keys == o.relationIds.Keys
    requires |blocks| == |o.relationIds| && LaidOut(o, blocks)
    ensures TypeBlocks(blocks).Valid(|o.entityIds| + 1, |o.relationIds|) && PlacesByType(o, TypeBlocks(blocks))
  {
    var cursor :| BlocksSoFar(o, blocks, cursor);
    forall entity, relation | entity in o.entityIds && relation in o.relationIds
      ensures Places(o, TypeBlocks(blocks), entity, relation)
    {
      var r := o.relationIds[relation] - 1;
      assert BlockFor(o, blocks[r], r + 1);
      assert Occupies(o, o.relationDomains[relation], blocks[r].typeStart, blocks[r].width);
    }
    hide BlockFor, Places;
  }

  /**
   * `build_layout_from_public_ids`: accepted exactly when the maps cover the catalogue, every
   * type is named and contiguous in the public numbering, and every domain has an entity; the
   * layout is then well formed, and places precisely the pairs the ontology allows.
   */
  method BuildLayout(o: Ontology) returns (r: Result<TypeBlocks>)
    requires Numbered(o.entityIds) && Numbered(o.relationIds)
    ensures r.Ok? <==> WellTyped(o)
    ensures r.Ok? ==> r.value.Valid(|o.entityIds| + 1, |o.relationIds|) && PlacesByType(o, r.value)
  {
    hide *;
    WellTypedParts(o);
    if !Covers(o) {
      return Err(UnknownItem);
    }
    if HasBlank(o.entityTypes) || HasBlank(o.relationDomains) {
      return Err(BadValue);
    }
    var spans := AllSpans(o);
    if spans.None? {
      return Err(NotPlaced);
    }
    DomainsKnownIff(o, spans.value);
    if !DomainsKnown(o, spans.value) {
      return Err(UnknownItem);
    }
    var blocks := LayBlocks(o, spans.value);
    BlocksAreLayout(o, blocks);
    r := Ok(TypeBlocks(blocks));
  }

  lemma {:induction false} WellTypedParts(o: Ontology)
    ensures WellTyped(o) <==>
      Covers(o) && !HasBlank(o.entityTypes) && !HasBlank(o.relationDomains) && TypesContiguous(o) && DomainsInhabited(o)
    ensures Covers(o) ==> o.entityTypes.Keys == o.entityIds.Keys && o.relationDomains.Keys == o.relationIds.Keys
  {
  }

  predicate DomainsKnown(o: Ontology, spans: map<string, (nat, nat)>) {
    forall name :: name in o.relationDomains ==> o.relationDomains[name] in spans
  }

  lemma {:induction false} DomainsKnownIff(o: Ontology, spans: map<string, (nat, nat)>)
    requires o.entityTypes.Keys == o.entityIds.Keys && SpansKnown(o, {}, spans)
    ensures DomainsKnown(o, spans) <==> DomainsInhabited(o)
  {
    forall t
      ensures t in spans <==> HasEntity(o, t)
    {
      KnownDomain(o, spans, t);
    }
    hide SpansKnown, HasEntity;
  }
}
