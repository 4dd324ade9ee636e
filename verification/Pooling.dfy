// Pooling every owner's pages behind one secret block permutation: whatever the
// random choices, the permutation is accepted and every lookup is preserved.
module Pooling {
  import opened Wrappers
  import opened Sorting

  type Page = seq<nat>

  /** One key's place in a pool: `(base, count)`. */
  datatype Entry = Entry(key: nat, base: nat, count: nat)

  /** The concatenated pool, its descriptors in insertion order, and each slot's owner. */
  datatype Pool = Pool(pages: seq<Page>, entries: seq<Entry>, provenance: seq<nat>)

  function TotalOf(entries: seq<Entry>): nat {
    if entries == [] then 0 else TotalOf(entries[..|entries| - 1]) + entries[|entries| - 1].count
  }

  /** The entries are laid end to end, none empty, and cover the pool exactly. */
  ghost predicate Tiles(entries: seq<Entry>, size: nat) {
    && TotalOf(entries) == size
    && forall i :: 0 <= i < |entries| ==> entries[i].count >= 1 && entries[i].base == TotalOf(entries[..i])
  }

  ghost predicate KeysDiffer(entries: seq<Entry>) {
    forall i, j :: 0 <= i < j < |entries| ==> entries[i].key != entries[j].key
  }

  lemma {:induction false} TotalGrows(entries: seq<Entry>, i: nat, j: nat)
    requires i <= j <= |entries|
    ensures TotalOf(entries[..i]) <= TotalOf(entries[..j])
    ensures i < j ==> TotalOf(entries[..i]) + entries[i].count <= TotalOf(entries[..j])
    decreases j
  {
    if i < j {
      assert entries[..j][..j - 1] == entries[..j - 1];
      if i < j - 1 {
        TotalGrows(entries, i, j - 1);
      }
    }
  }

  /** Blocks are disjoint and inside the pool. */
  lemma {:induction false} BlocksApart(entries: seq<Entry>, size: nat, i: nat, j: nat)
    requires Tiles(entries, size) && i < |entries|
    ensures entries[i].base + entries[i].count <= size
    ensures i < j < |entries| ==> entries[i].base + entries[i].count <= entries[j].base
  {
    TotalGrows(entries, i, |entries|);
    assert entries[..|entries|] == entries;
    if i < j < |entries| {
      TotalGrows(entries, i, j);
    }
  }

  // --- Concatenation -------------------------------------------------------------------------

  /** What the owners hold. */
  type Holdings = seq<map<nat, seq<Page>>>

  ghost predicate Holds(owners: Holdings, o: int, key: nat) {
    0 <= o < |owners| && key in owners[o] && owners[o][key] != []
  }

  /** No key is held by two owners. */
  ghost predicate Partitioned(owners: Holdings) {
    forall o, p, key :: Holds(owners, o, key) && Holds(owners, p, key) ==> o == p
  }

  /** An entry describes its owner's pages, in order, at slots that came from that owner. */
  ghost predicate Describes(owners: Holdings, pool: Pool, e: Entry, o: int) {
    && Holds(owners, o, e.key) && e.base + e.count <= |pool.pages| == |pool.provenance|
    && pool.pages[e.base..e.base + e.count] == owners[o][e.key]
    && forall p :: e.base <= p < e.base + e.count ==> pool.provenance[p] == o
  }

  ghost predicate AllDescribed(owners: Holdings, pool: Pool) {
    && |pool.pages| == |pool.provenance| && Tiles(pool.entries, |pool.pages|) && KeysDiffer(pool.entries)
    && forall i :: 0 <= i < |pool.entries| ==> Described(owners, pool, pool.entries[i])
  }

  ghost predicate Described(owners: Holdings, pool: Pool, e: Entry) {
    exists o :: Describes(owners, pool, e, o)
  }

  predicate HasKey(entries: seq<Entry>, key: nat) {
    exists i :: 0 <= i < |entries| && entries[i].key == key
  }

  function Repeat(o: nat, n: nat): (r: seq<nat>)
    ensures |r| == n && forall i :: 0 <= i < n ==> r[i] == o
  {
    seq(n, _ => o)
  }

  /** `descriptors[key] = (len(pool), len(pages)); pool.extend(pages)`. */
  function Extended(pool: Pool, key: nat, pages: seq<Page>, o: nat): Pool {
    Pool(pool.pages + pages, pool.entries + [Entry(key, |pool.pages|, |pages|)], pool.provenance + Repeat(o, |pages|))
  }

  lemma {:induction false} TilesExtend(entries: seq<Entry>, size: nat, e: Entry)
    requires Tiles(entries, size) && e.base == size && e.count >= 1
    ensures Tiles(entries + [e], size + e.count)
  {
    var more := entries + [e];
    assert more[..|entries|] == entries;
    forall i | 0 <= i < |more|
      ensures more[i].count >= 1 && more[i].base == TotalOf(more[..i])
    {
      if i < |entries| {
        assert more[..i] == entries[..i];
      }
    }
  }

  lemma {:induction false} ExtendStep(owners: Holdings, pool: Pool, o: nat, key: nat)
    requires AllDescribed(owners, pool) && Holds(owners, o, key) && !HasKey(pool.entries, key)
    ensures AllDescribed(owners, Extended(pool, key, owners[o][key], o))
  {
    var next := Extended(pool, key, owners[o][key], o);
    var e := Entry(key, |pool.pages|, |owners[o][key]|);
    TilesExtend(pool.entries, |pool.pages|, e);
    NewDescribed(owners, pool, o, key);
    forall i | 0 <= i < |pool.entries|
      ensures Described(owners, next, pool.entries[i]) && pool.entries[i].key != key
    {
      OldDescribed(owners, pool, o, key, pool.entries[i]);
    }
    hide Tiles, Described, Holds;
  }

  lemma {:induction false} NewDescribed(owners: Holdings, pool: Pool, o: nat, key: nat)
    requires Holds(owners, o, key) && |pool.pages| == |pool.provenance|
    ensures Described(owners, Extended(pool, key, owners[o][key], o), Entry(key, |pool.pages|, |owners[o][key]|))
  {
    var next, e := Extended(pool, key, owners[o][key], o), Entry(key, |pool.pages|, |owners[o][key]|);
    assert next.pages[e.base..e.base + e.count] == owners[o][key];
    assert Describes(owners, next, e, o);
  }

  lemma {:induction false} OldDescribed(owners: Holdings, pool: Pool, o: nat, key: nat, e: Entry)
    requires Described(owners, pool, e) && Holds(owners, o, key)
    ensures Described(owners, Extended(pool, key, owners[o][key], o), e)
  {
    var next := Extended(pool, key, owners[o][key], o);
    var p :| Describes(owners, pool, e, p);
    assert next.pages[e.base..e.base + e.count] == pool.pages[e.base..e.base + e.count];
    assert Describes(owners, next, e, p);
  }

  /** Keys of the entries are exactly the keys already visited that hold pages. */
  ghost predicate Covers(owners: Holdings, entries: seq<Entry>, n: nat, keys: seq<nat>) {
    && (forall o, key :: o < n && Holds(owners, o, key) ==> HasKey(entries, key))
    && (forall i :: 0 <= i < |keys| && Holds(owners, n, keys[i]) ==> HasKey(entries, keys[i]))
    && forall i :: 0 <= i < |entries| ==> HeldBefore(owners, entries[i].key, n, keys)
  }

  /** Held by an earlier owner, or by this one under a key already visited. */
  ghost predicate HeldBefore(owners: Holdings, key: nat, n: nat, keys: seq<nat>) {
    exists o :: o <= n && Holds(owners, o, key) && (o == n ==> key in keys)
  }

  predicate AtMost(a: nat, b: nat) {
    a <= b
  }

  /** `sorted(pages_by_key)`. */
  method SortedKeysOf(m: map<nat, seq<Page>>) returns (keys: seq<nat>)
    ensures SortedBy(keys, AtMost) && Distinct(keys) && KeysOf(m, keys)
  {
    var pending := m.Keys;
    var all: seq<nat> := [];
    while pending != {}
      invariant Distinct(all) && pending <= m.Keys
      invariant forall k :: k in all <==> k in m && k !in pending
      decreases pending
    {
      var key :| key in pending;
      all := all + [key];
      pending := pending - {key};
    }
    SortBySorted(all, AtMost);
    SortByDistinct(all, AtMost);
    keys := SortBy(all, AtMost);
    forall k
      ensures k in keys <==> k in m
    {
      SortByMembers(all, AtMost, k);
    }
  }

  lemma {:induction false} HasSnoc(entries: seq<Entry>, e: Entry, key: nat)
    ensures HasKey(entries + [e], key) <==> HasKey(entries, key) || e.key == key
  {
    if HasKey(entries, key) {
      var i :| 0 <= i < |entries| && entries[i].key == key;
      assert (entries + [e])[i].key == key;
    }
    assert (entries + [e])[|entries|] == e;
  }

  /** Visiting one more key, whether it holds pages or not. */
  lemma {:induction false} CoverStep(owners: Holdings, entries: seq<Entry>, n: nat, keys: seq<nat>, key: nat, more: seq<Entry>)
    requires Covers(owners, entries, n, keys)
    requires if Holds(owners, n, key) then exists e: Entry :: e.key == key && more == entries + [e] else more == entries
    ensures Covers(owners, more, n, keys + [key])
  {
    if Holds(owners, n, key) {
      var e: Entry :| e.key == key && more == entries + [e];
      forall k
        ensures HasKey(more, k) <==> HasKey(entries, k) || k == key
      {
        HasSnoc(entries, e, k);
      }
    }
    forall i | 0 <= i < |more|
      ensures HeldBefore(owners, more[i].key, n, keys + [key])
    {
      if i < |entries| {
        assert HeldBefore(owners, entries[i].key, n, keys);
        var o :| o <= n && Holds(owners, o, entries[i].key) && (o == n ==> entries[i].key in keys);
        assert o <= n && Holds(owners, o, more[i].key) && (o == n ==> more[i].key in keys + [key]);
      } else {
        assert Holds(owners, n, more[i].key) && more[i].key in keys + [key];
      }
    }
    hide HasKey, HeldBefore, Holds;
  }

  /** A key met again shows that two owners hold it. */
  lemma {:induction false} MetTwice(owners: Holdings, entries: seq<Entry>, n: nat, keys: seq<nat>, key: nat)
    requires Covers(owners, entries, n, keys) && Holds(owners, n, key) && key !in keys && HasKey(entries, key)
    ensures !Partitioned(owners)
  {
    var i :| 0 <= i < |entries| && entries[i].key == key;
    assert HeldBefore(owners, key, n, keys);
    var o :| o <= n && Holds(owners, o, key) && (o == n ==> key in keys);
    assert o != n;
  }

  lemma {:induction false} NextOwner(owners: Holdings, entries: seq<Entry>, n: nat, keys: seq<nat>)
    requires n < |owners| && Covers(owners, entries, n, keys) && forall k :: k in owners[n] ==> k in keys
    ensures Covers(owners, entries, n + 1, [])
  {
    forall o, key | o < n + 1 && Holds(owners, o, key)
      ensures HasKey(entries, key)
    {
      if o == n {
        assert key in keys;
        var i :| 0 <= i < |keys| && keys[i] == key;
      }
    }
    forall i | 0 <= i < |entries|
      ensures HeldBefore(owners, entries[i].key, n + 1, [])
    {
      var key := entries[i].key;
      assert HeldBefore(owners, key, n, keys);
      var o :| o <= n && Holds(owners, o, key) && (o == n ==> key in keys);
      assert o <= n + 1 && Holds(owners, o, key) && (o == n + 1 ==> key in []);
    }
    hide HasKey, HeldBefore;
  }

  /** Each key seen so far came from one owner only. */
  ghost predicate SoFarPartitioned(owners: Holdings, n: nat) {
    forall o, p, key :: o < n && p < n && Holds(owners, o, key) && Holds(owners, p, key) ==> o == p
  }

  /** The visited keys of owner `o` were not in the pool before it. */
  ghost predicate Fresh(owners: Holdings, o: nat, before: seq<Entry>, keys: seq<nat>) {
    forall key :: key in keys && Holds(owners, o, key) ==> !HasKey(before, key)
  }

  /** The pool while owner `o`'s keys are being visited. */
  ghost predicate Visiting(owners: Holdings, o: nat, before: seq<Entry>, pool: Pool, keys: seq<nat>) {
    && AllDescribed(owners, pool) && Covers(owners, pool.entries, o, keys)
    && Fresh(owners, o, before, keys) && before <= pool.entries
  }

  // --- The order of the pool ------------------------------------------------------------------

  /** Two blocks, in order: an earlier owner, or the same owner and a smaller key. */
  ghost predicate Precedes(pool: Pool, a: Entry, b: Entry) {
    && a.base < |pool.provenance| && b.base < |pool.provenance|
    && (pool.provenance[a.base] < pool.provenance[b.base]
        || (pool.provenance[a.base] == pool.provenance[b.base] && a.key < b.key))
  }

  ghost predicate InOrder(pool: Pool) {
    forall i, j :: 0 <= i < j < |pool.entries| ==> Precedes(pool, pool.entries[i], pool.entries[j])
  }

  /** No block lies beyond key `key` of owner `o`. */
  ghost predicate UpTo(pool: Pool, o: nat, key: int) {
    forall i :: 0 <= i < |pool.entries| ==> Reached(pool, pool.entries[i], o, key)
  }

  ghost predicate Reached(pool: Pool, e: Entry, o: nat, key: int) {
    && e.base < |pool.provenance|
    && (pool.provenance[e.base] < o || (pool.provenance[e.base] == o && e.key <= key))
  }

  lemma {:induction false} OrderStep(pool: Pool, o: nat, last: int, key: nat, pages: seq<Page>)
    requires InOrder(pool) && UpTo(pool, o, last) && last < key && pages != [] && |pool.pages| == |pool.provenance|
    ensures InOrder(Extended(pool, key, pages, o)) && UpTo(Extended(pool, key, pages, o), o, key)
  {
    var next := Extended(pool, key, pages, o);
    forall i | 0 <= i < |pool.entries|
      ensures Reached(next, pool.entries[i], o, key) && Precedes(next, pool.entries[i], next.entries[|pool.entries|])
    {
      assert Reached(pool, pool.entries[i], o, last);
    }
    forall i, j | 0 <= i < j < |pool.entries|
      ensures Precedes(next, pool.entries[i], pool.entries[j])
    {
      assert Precedes(pool, pool.entries[i], pool.entries[j]);
    }
    hide Reached, Precedes;
  }

  lemma {:induction false} ReachFurther(pool: Pool, o: nat, last: int, key: int)
    requires UpTo(pool, o, last) && last <= key
    ensures UpTo(pool, o, key)
  {
    forall i | 0 <= i < |pool.entries|
      ensures Reached(pool, pool.entries[i], o, key)
    {
      assert Reached(pool, pool.entries[i], o, last);
    }
  }

  lemma {:induction false} ReachNext(pool: Pool, o: nat, last: int)
    requires UpTo(pool, o, last)
    ensures UpTo(pool, o + 1, -1)
  {
    forall i | 0 <= i < |pool.entries|
      ensures Reached(pool, pool.entries[i], o + 1, -1)
    {
      assert Reached(pool, pool.entries[i], o, last);
    }
  }

  function LastOf(keys: seq<nat>, i: nat): int
    requires i <= |keys|
  {
    if i == 0 then -1 else keys[i - 1]
  }

  lemma {:induction false} LastGrows(keys: seq<nat>, i: nat)
    requires SortedBy(keys, AtMost) && Distinct(keys) && i < |keys|
    ensures LastOf(keys, i) < keys[i] == LastOf(keys, i + 1)
  {
  }

  /** One key of one owner. */
  method VisitKey(owners: Holdings, o: nat, ghost before: seq<Entry>, pool0: Pool, ghost keys: seq<nat>, key: nat) returns (r: Option<Pool>)
    requires o < |owners| && key in owners[o] && key !in keys && Visiting(owners, o, before, pool0, keys)
    ensures r.None? ==> !Partitioned(owners)
    ensures r.Some? ==> Visiting(owners, o, before, r.value, keys + [key])
    ensures r.Some? ==> r.value == if owners[o][key] == [] then pool0 else Extended(pool0, key, owners[o][key], o)
  {
    var pages := owners[o][key];
    if pages == [] {
      CoverStep(owners, pool0.entries, o, keys, key, pool0.entries);
      hide AllDescribed, Covers, HasKey;
      r := Some(pool0);
    } else {
      assert Holds(owners, o, key);
      if HasKey(pool0.entries, key) {
        MetTwice(owners, pool0.entries, o, keys, key);
        return None;
      }
      StillNew(before, pool0.entries, key);
      ExtendStep(owners, pool0, o, key);
      var next := Extended(pool0, key, pages, o);
      assert next.entries == pool0.entries + [Entry(key, |pool0.pages|, |pages|)];
      CoverStep(owners, pool0.entries, o, keys, key, next.entries);
      hide AllDescribed, Covers, HasKey, Holds;
      r := Some(next);
    }
  }

  /** One owner's pages appended, or the key another owner already holds. */
  method AppendOwner(owners: Holdings, o: nat, pool0: Pool) returns (r: Option<Pool>)
    requires o < |owners| && AllDescribed(owners, pool0) && Covers(owners, pool0.entries, o, []) && SoFarPartitioned(owners, o)
    requires InOrder(pool0) && UpTo(pool0, o, -1)
    ensures r.None? ==> !Partitioned(owners)
    ensures r.Some? ==> AllDescribed(owners, r.value) && Covers(owners, r.value.entries, o + 1, []) && SoFarPartitioned(owners, o + 1)
    ensures r.Some? ==> InOrder(r.value) && UpTo(r.value, o + 1, -1)
  {
    VisitStarts(owners, o, pool0);
    hide *;
    var keys := SortedKeysOf(owners[o]);
    r := VisitKeys(owners, o, pool0, keys);
    if r.Some? {
      VisitEnds(owners, o, pool0.entries, r.value, keys);
    }
  }

  method VisitKeys(owners: Holdings, o: nat, pool0: Pool, keys: seq<nat>) returns (r: Option<Pool>)
    requires o < |owners| && Distinct(keys) && KeysOf(owners[o], keys) && Visiting(owners, o, pool0.entries, pool0, [])
    requires SortedBy(keys, AtMost) && InOrder(pool0) && UpTo(pool0, o, -1)
    ensures r.None? ==> !Partitioned(owners)
    ensures r.Some? ==> Visiting(owners, o, pool0.entries, r.value, keys)
    ensures r.Some? ==> InOrder(r.value) && UpTo(r.value, o + 1, -1)
  {
    assert LastOf(keys, 0) == -1;
    hide *;
    ghost var before := pool0.entries;
    var pool := pool0;
    assert keys[..0] == [];
    for i := 0 to |keys|
      invariant Visiting(owners, o, before, pool, keys[..i])
      invariant InOrder(pool) && UpTo(pool, o, LastOf(keys, i))
    {
      NextKey(owners[o], keys, i);
      LastGrows(keys, i);
      ReachFurther(pool, o, LastOf(keys, i), LastOf(keys, i + 1));
      VisitedSize(owners, o, before, pool, keys[..i]);
      if owners[o][keys[i]] != [] {
        OrderStep(pool, o, LastOf(keys, i), keys[i], owners[o][keys[i]]);
      }
      var next := VisitKey(owners, o, before, pool, keys[..i], keys[i]);
      if next.None? {
        return None;
      }
      pool := next.value;
    }
    assert keys[..|keys|] == keys;
    ReachNext(pool, o, LastOf(keys, |keys|));
    r := Some(pool);
  }

  lemma {:induction false} VisitedSize(owners: Holdings, o: nat, before: seq<Entry>, pool: Pool, keys: seq<nat>)
    requires Visiting(owners, o, before, pool, keys)
    ensures |pool.pages| == |pool.provenance|
  {
    hide Tiles, Described, Covers, Fresh;
  }

  ghost predicate KeysOf(m: map<nat, seq<Page>>, keys: seq<nat>) {
    forall k :: k in keys <==> k in m
  }

  lemma {:induction false} NextKey(m: map<nat, seq<Page>>, keys: seq<nat>, i: nat)
    requires Distinct(keys) && KeysOf(m, keys) && i < |keys|
    ensures keys[i] in m && keys[i] !in keys[..i] && keys[..i + 1] == keys[..i] + [keys[i]]
  {
  }

  lemma {:induction false} VisitStarts(owners: Holdings, o: nat, pool: Pool)
    requires AllDescribed(owners, pool) && Covers(owners, pool.entries, o, [])
    ensures Visiting(owners, o, pool.entries, pool, [])
  {
    hide AllDescribed, Covers;
  }

  lemma {:induction false} VisitEnds(owners: Holdings, o: nat, before: seq<Entry>, pool: Pool, keys: seq<nat>)
    requires o < |owners| && Visiting(owners, o, before, pool, keys) && KeysOf(owners[o], keys)
    requires Covers(owners, before, o, []) && SoFarPartitioned(owners, o)
    ensures AllDescribed(owners, pool) && Covers(owners, pool.entries, o + 1, []) && SoFarPartitioned(owners, o + 1)
  {
    NextOwner(owners, pool.entries, o, keys);
    OwnerIsNew(owners, o, before, keys);
    hide AllDescribed, Covers, SoFarPartitioned;
  }

  lemma {:induction false} StillNew(before: seq<Entry>, entries: seq<Entry>, key: nat)
    requires before <= entries && !HasKey(entries, key)
    ensures !HasKey(before, key)
  {
    forall i | 0 <= i < |before|
      ensures before[i].key != key
    {
      assert entries[i] == before[i];
    }
  }

  lemma {:induction false} OwnerIsNew(owners: Holdings, o: nat, before: seq<Entry>, keys: seq<nat>)
    requires o < |owners| && Covers(owners, before, o, []) && SoFarPartitioned(owners, o) && Fresh(owners, o, before, keys)
    requires forall k :: k in owners[o] ==> k in keys
    ensures SoFarPartitioned(owners, o + 1)
  {
    forall p, key | p < o && Holds(owners, p, key)
      ensures !Holds(owners, o, key)
    {
      assert HasKey(before, key);
    }
    hide HasKey, Covers;
  }

  /** `concatenate_owner_pools`: accepted exactly when no key is held by two owners. */
  method ConcatenateOwnerPools(owners: Holdings) returns (r: Result<Pool>)
    ensures r.Ok? <==> Partitioned(owners)
    ensures r.Ok? ==> AllDescribed(owners, r.value)
    ensures r.Ok? ==> forall o, key :: Holds(owners, o, key) ==> HasKey(r.value.entries, key)
    ensures r.Ok? ==> InOrder(r.value)
  {
    var pool := Pool([], [], []);
    for o := 0 to |owners|
      invariant AllDescribed(owners, pool) && Covers(owners, pool.entries, o, []) && SoFarPartitioned(owners, o)
      invariant InOrder(pool) && UpTo(pool, o, -1)
    {
      hide AllDescribed, Covers, SoFarPartitioned, Partitioned, InOrder, UpTo;
      var next := AppendOwner(owners, o, pool);
      if next.None? {
        return Err(Duplicate);
      }
      pool := next.value;
    }
    r := Ok(pool);
  }
}
