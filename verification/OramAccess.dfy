// A run of accesses against a read-only stack: a per-level stash replaces
// eviction, and a repeated record is hidden behind a dummy path.
module OramAccess {
  import opened Wrappers
  import opened Bits
  import opened OramTree
  import opened OramStack

  // --- What a run must do -----------------------------------------------------------

  /** The records of a level that the accesses `history` have needed. */
  ghost function Touched(chi: nat, history: seq<nat>, level: nat): set<nat>
    requires chi > 0
  {
    if history == [] then {}
    else Touched(chi, history[..|history| - 1], level) + {LevelIndex(chi, history[|history| - 1], level)}
  }

  /** Access `t` needs a record of this level that an earlier access already fetched. */
  ghost predicate Repeats(chi: nat, indices: seq<nat>, t: nat, level: nat)
    requires chi > 0 && t < |indices|
  {
    LevelIndex(chi, indices[t], level) in Touched(chi, indices[..t], level)
  }

  lemma {:induction false} TouchedMembers(chi: nat, history: seq<nat>, level: nat, k: nat)
    requires chi > 0
    ensures k in Touched(chi, history, level) <==> exists u :: 0 <= u < |history| && LevelIndex(chi, history[u], level) == k
  {
    hide LevelIndex;
    if history != [] {
      var n := |history| - 1;
      TouchedMembers(chi, history[..n], level, k);
      assert forall u :: 0 <= u < n ==> history[..n][u] == history[u];
    }
  }

  lemma {:induction false} TouchedSnoc(chi: nat, history: seq<nat>, a: nat, level: nat)
    requires chi > 0
    ensures Touched(chi, history + [a], level) == Touched(chi, history, level) + {LevelIndex(chi, a, level)}
  {
    assert (history + [a])[..|history|] == history;
  }

  /** At most one new record per access. */
  lemma {:induction false} TouchedBound(chi: nat, history: seq<nat>, level: nat)
    requires chi > 0
    ensures |Touched(chi, history, level)| <= |history|
  {
    if history != [] {
      TouchedBound(chi, history[..|history| - 1], level);
    }
  }

  /** No record of a level is opened through its real leaf twice. */
  lemma {:induction false} OpenedOnce(chi: nat, indices: seq<nat>, t: nat, u: nat, level: nat)
    requires chi > 0 && t < u < |indices| && !Repeats(chi, indices, u, level)
    ensures LevelIndex(chi, indices[t], level) != LevelIndex(chi, indices[u], level)
  {
    TouchedMembers(chi, indices[..u], level, LevelIndex(chi, indices[u], level));
    assert indices[..u][t] == indices[t];
    hide LevelIndex;
  }

  /** A level that repeats forces every level above it to repeat: dummies form an upper segment. */
  lemma {:induction false} RepeatsUpward(chi: nat, indices: seq<nat>, t: nat, level: nat)
    requires chi > 0 && t < |indices| && Repeats(chi, indices, t, level)
    ensures Repeats(chi, indices, t, level + 1)
  {
    TouchedMembers(chi, indices[..t], level, LevelIndex(chi, indices[t], level));
    var u :| 0 <= u < t && LevelIndex(chi, indices[..t][u], level) == LevelIndex(chi, indices[t], level);
    LevelIndexStep(chi, indices[u], level);
    LevelIndexStep(chi, indices[t], level);
    TouchedMembers(chi, indices[..t], level + 1, LevelIndex(chi, indices[t], level + 1));
    assert LevelIndex(chi, indices[..t][u], level + 1) == LevelIndex(chi, indices[t], level + 1);
  }

  /** The leaf a level shows for access `t`: its real one, or a fresh dummy for a repeat. */
  ghost function Shown(stack: Stack, indices: seq<nat>, dummy: (nat, nat) -> nat, t: nat, level: nat): nat
    requires stack.chi > 0 && t < |indices| && level < |stack.levels|
    requires LevelIndex(stack.chi, indices[t], level) < |stack.levels[level].positionMap|
  {
    if Repeats(stack.chi, indices, t, level) then Remainder(dummy(t, level), Pow2(stack.levels[level].depth))
    else stack.levels[level].positionMap[LevelIndex(stack.chi, indices[t], level)]
  }

  /** One level of one access behaves as it must. */
  ghost predicate LevelShows(stack: Stack, indices: seq<nat>, dummy: (nat, nat) -> nat, t: nat, level: nat, leaf: nat, isDummy: bool) {
    && stack.chi > 0 && t < |indices| && level < |stack.levels|
    && LevelIndex(stack.chi, indices[t], level) < |stack.levels[level].positionMap|
    && isDummy == Repeats(stack.chi, indices, t, level)
    && leaf == Shown(stack, indices, dummy, t, level)
  }

  ghost predicate AccessShows(stack: Stack, indices: seq<nat>, dummy: (nat, nat) -> nat, t: nat, leaves: seq<nat>, dummies: seq<bool>) {
    && |leaves| == |dummies| == |stack.levels|
    && forall level :: 0 <= level < |leaves| ==> LevelShows(stack, indices, dummy, t, level, leaves[level], dummies[level])
  }

  // --- The dictionary stash ----------------------------------------------------------

  /** The stash of a level holds exactly the records fetched so far, unaltered. */
  ghost predicate StashHolds(chi: nat, history: seq<nat>, level: nat, records: seq<seq<int>>, stash: map<nat, seq<int>>) {
    && chi > 0 && stash.Keys == Touched(chi, history, level)
    && forall k :: k in stash ==> k < |records| && stash[k] == records[k]
  }

  /** The read at one level: from the stash behind a dummy path, or from the tree along the real one. */
  method AccessLevel(stack: Stack, ghost stored: seq<seq<seq<int>>>, ghost history: seq<nat>, index: nat, level: nat,
                     leaf: nat, dummy: nat, stash: map<nat, seq<int>>)
    returns (value: seq<int>, stash': map<nat, seq<int>>, shown: nat, isDummy: bool)
    requires StackHolds(stack, stored) && index < stack.Size() && level < |stored| && IsLeafOf(stack, index, level, leaf)
    requires StashHolds(stack.chi, history, level, stored[level], stash)
    ensures LevelIndex(stack.chi, index, level) < |stored[level]|
    ensures value == stored[level][LevelIndex(stack.chi, index, level)]
    ensures StashHolds(stack.chi, history + [index], level, stored[level], stash')
    ensures isDummy <==> LevelIndex(stack.chi, index, level) in Touched(stack.chi, history, level)
    ensures shown == if isDummy then Remainder(dummy, Pow2(stack.levels[level].depth)) else leaf
  {
    TouchedSnoc(stack.chi, history, index, level);
    LevelIndexInRange(stack, stored, index, level);
    LevelFacts(stack, stored, level);
    hide LevelIndex, Holds, StackHolds, IsLeafOf, Touched;
    var levelIndex := LevelIndex(stack.chi, index, level);
    if levelIndex in stash {
      shown := Remainder(dummy, Pow2(stack.levels[level].depth));
      isDummy := true;
      value := stash[levelIndex];
      stash' := stash;
    } else {
      shown := leaf;
      isDummy := false;
      value := LevelLookup(stack, stored, level, levelIndex);
      stash' := stash[levelIndex := value];
    }
    assert stash'.Keys == Touched(stack.chi, history, level) + {levelIndex};
  }

  /** All stashes; the levels from `from` on have already served the current access. */
  ghost predicate Stashes(stack: Stack, stored: seq<seq<seq<int>>>, history: seq<nat>, index: nat, from: nat, stashes: seq<map<nat, seq<int>>>) {
    && |stashes| == |stored|
    && forall l :: 0 <= l < |stashes| ==>
      StashHolds(stack.chi, if l >= from then history + [index] else history, l, stored[l], stashes[l])
  }

  /** The trace of the current access from `from` up, top level first. */
  ghost predicate Descended(stack: Stack, indices: seq<nat>, dummy: (nat, nat) -> nat, t: nat, from: nat, leaves: seq<nat>, dummies: seq<bool>) {
    && from <= |stack.levels| && |leaves| == |dummies| == |stack.levels| - from
    && forall i :: 0 <= i < |leaves| ==>
      LevelShows(stack, indices, dummy, t, |stack.levels| - 1 - i, leaves[i], dummies[i])
  }

  lemma {:induction false} DescendedStep(stack: Stack, indices: seq<nat>, dummy: (nat, nat) -> nat, t: nat, level: nat,
                                         leaves: seq<nat>, dummies: seq<bool>, leaf: nat, isDummy: bool)
    requires Descended(stack, indices, dummy, t, level + 1, leaves, dummies) && level < |stack.levels|
    requires LevelShows(stack, indices, dummy, t, level, leaf, isDummy)
    ensures Descended(stack, indices, dummy, t, level, leaves + [leaf], dummies + [isDummy])
  {
    hide LevelShows;
  }

  lemma {:induction false} DescendedAll(stack: Stack, indices: seq<nat>, dummy: (nat, nat) -> nat, t: nat, leaves: seq<nat>, dummies: seq<bool>)
    requires Descended(stack, indices, dummy, t, 0, leaves, dummies)
    ensures AccessShows(stack, indices, dummy, t, Reversed(leaves), Reversed(dummies))
  {
    hide LevelShows;
    var n := |stack.levels|;
    forall level | 0 <= level < n
      ensures LevelShows(stack, indices, dummy, t, level, Reversed(leaves)[level], Reversed(dummies)[level])
    {
      assert LevelShows(stack, indices, dummy, t, n - 1 - (n - 1 - level), leaves[n - 1 - level], dummies[n - 1 - level]);
    }
  }

  lemma {:induction false} ShowsLevel(stack: Stack, indices: seq<nat>, dummy: (nat, nat) -> nat, t: nat, level: nat,
                                      leaf: nat, shown: nat, isDummy: bool)
    requires t < |indices| && IsLeafOf(stack, indices[t], level, leaf)
    requires isDummy <==> LevelIndex(stack.chi, indices[t], level) in Touched(stack.chi, indices[..t], level)
    requires shown == if isDummy then Remainder(dummy(t, level), Pow2(stack.levels[level].depth)) else leaf
    ensures LevelShows(stack, indices, dummy, t, level, shown, isDummy)
  {
    hide LevelIndex, Touched;
  }

  lemma {:induction false} StashesStep(stack: Stack, stored: seq<seq<seq<int>>>, history: seq<nat>, index: nat, level: nat,
                                       stashes: seq<map<nat, seq<int>>>, stash: map<nat, seq<int>>)
    requires level < |stored| && Stashes(stack, stored, history, index, level + 1, stashes)
    requires StashHolds(stack.chi, history + [index], level, stored[level], stash)
    ensures Stashes(stack, stored, history, index, level, stashes[level := stash])
  {
    hide StashHolds;
  }

  lemma {:induction false} StashOf(stack: Stack, stored: seq<seq<seq<int>>>, history: seq<nat>, index: nat, from: nat,
                                   stashes: seq<map<nat, seq<int>>>, level: nat)
    requires Stashes(stack, stored, history, index, from, stashes) && level < from && level < |stored|
    ensures |stashes| == |stored| && StashHolds(stack.chi, history, level, stored[level], stashes[level])
  {
    hide StashHolds;
  }

  /** The state of one access once the levels from `level` up have been read; `leaf` opens the next. */
  ghost predicate Descending(stack: Stack, stored: seq<seq<seq<int>>>, indices: seq<nat>, t: nat, dummy: (nat, nat) -> nat,
                             level: nat, leaf: int, stashes: seq<map<nat, seq<int>>>, leaves: seq<nat>, dummies: seq<bool>)
  {
    && StackHolds(stack, stored) && t < |indices| && indices[t] < stack.Size() && level <= |stored|
    && (level > 0 ==> IsLeafOf(stack, indices[t], level - 1, leaf))
    && Stashes(stack, stored, indices[..t], indices[t], level, stashes)
    && Descended(stack, indices, dummy, t, level, leaves, dummies)
  }

  lemma {:induction false} DescendingFacts(stack: Stack, stored: seq<seq<seq<int>>>, indices: seq<nat>, t: nat, dummy: (nat, nat) -> nat,
                                           level: nat, leaf: int, stashes: seq<map<nat, seq<int>>>, leaves: seq<nat>, dummies: seq<bool>)
    requires Descending(stack, stored, indices, t, dummy, level + 1, leaf, stashes, leaves, dummies)
    ensures StackHolds(stack, stored) && indices[t] < stack.Size() && level < |stored| == |stack.levels| == |stashes|
    ensures leaf >= 0 && IsLeafOf(stack, indices[t], level, leaf)
    ensures StashHolds(stack.chi, indices[..t], level, stored[level], stashes[level])
  {
    StackShape(stack, stored);
    StashOf(stack, stored, indices[..t], indices[t], level + 1, stashes, level);
    hide StackHolds, StashHolds, Descended, Stashes, LevelIndex;
  }

  lemma {:induction false} DescendingStep(stack: Stack, stored: seq<seq<seq<int>>>, indices: seq<nat>, t: nat, dummy: (nat, nat) -> nat,
                                          level: nat, leaf: nat, stashes: seq<map<nat, seq<int>>>, leaves: seq<nat>, dummies: seq<bool>,
                                          value: seq<int>, stash: map<nat, seq<int>>, shown: nat, isDummy: bool)
    requires Descending(stack, stored, indices, t, dummy, level + 1, leaf, stashes, leaves, dummies)
    requires level < |stored| && stack.chi > 0 && level < |stack.levels| && level < |stashes|
    requires LevelIndex(stack.chi, indices[t], level) < |stored[level]|
    requires value == stored[level][LevelIndex(stack.chi, indices[t], level)]
    requires StashHolds(stack.chi, indices[..t] + [indices[t]], level, stored[level], stash)
    requires isDummy <==> LevelIndex(stack.chi, indices[t], level) in Touched(stack.chi, indices[..t], level)
    requires shown == if isDummy then Remainder(dummy(t, level), Pow2(stack.levels[level].depth)) else leaf
    ensures level > 0 ==> Remainder(LevelIndex(stack.chi, indices[t], level - 1), stack.chi) < |value|
    ensures var digit := if level > 0 then Remainder(LevelIndex(stack.chi, indices[t], level - 1), stack.chi) else 0;
      Descending(stack, stored, indices, t, dummy, level, if level > 0 then value[digit] else 0,
                 stashes[level := stash], leaves + [shown], dummies + [isDummy])
  {
    ShowsLevel(stack, indices, dummy, t, level, leaf, shown, isDummy);
    DescendedStep(stack, indices, dummy, t, level, leaves, dummies, shown, isDummy);
    StashesStep(stack, stored, indices[..t], indices[t], level, stashes, stash);
    if level > 0 {
      DescentStep(stack, stored, indices[t], level);
    }
    hide StackHolds, StashHolds, Descended, Stashes, LevelIndex, Touched, LevelShows, IsLeafOf;
  }

  /** One level of one access. */
  method Descend(stack: Stack, ghost stored: seq<seq<seq<int>>>, ghost indices: seq<nat>, t: nat, index: nat, dummy: (nat, nat) -> nat,
                 level: nat, leaf: int, stashes: seq<map<nat, seq<int>>>, leaves: seq<nat>, dummies: seq<bool>)
    returns (value: seq<int>, leaf': int, stashes': seq<map<nat, seq<int>>>, leaves': seq<nat>, dummies': seq<bool>)
    requires t < |indices| && index == indices[t]
    requires Descending(stack, stored, indices, t, dummy, level + 1, leaf, stashes, leaves, dummies)
    ensures Descending(stack, stored, indices, t, dummy, level, leaf', stashes', leaves', dummies')
    ensures level == 0 ==> stored != [] && index < |stored[0]| && value == stored[0][index]
  {
    DescendingFacts(stack, stored, indices, t, dummy, level, leaf, stashes, leaves, dummies);
    StackShape(stack, stored);
    hide *;
    var stash, shown, isDummy;
    value, stash, shown, isDummy := AccessLevel(stack, stored, indices[..t], index, level, leaf, dummy(t, level), stashes[level]);
    DescendingStep(stack, stored, indices, t, dummy, level, leaf, stashes, leaves, dummies, value, stash, shown, isDummy);
    stashes', leaves', dummies' := stashes[level := stash], leaves + [shown], dummies + [isDummy];
    if level > 0 {
      leaf' := value[Remainder(LevelIndex(stack.chi, index, level - 1), stack.chi)];
    } else {
      leaf' := 0;
      LevelIndexStep(stack.chi, index, 0);
    }
  }

  lemma {:induction false} DescendingStarts(stack: Stack, stored: seq<seq<seq<int>>>, indices: seq<nat>, t: nat, dummy: (nat, nat) -> nat,
                                            stashes: seq<map<nat, seq<int>>>)
    requires StackHolds(stack, stored) && t < |indices| && indices[t] < stack.Size()
    requires AllStashes(stack, stored, indices[..t], stashes)
    ensures |stack.levels| == |stored| > 0 && stack.chi > 0
    ensures LevelIndex(stack.chi, indices[t], |stack.levels| - 1) < |stack.base|
    ensures Descending(stack, stored, indices, t, dummy, |stored|,
                       stack.base[LevelIndex(stack.chi, indices[t], |stack.levels| - 1)], stashes, [], [])
  {
    StackShape(stack, stored);
    BaseLeaf(stack, stored, indices[t]);
    StashesBetween(stack, stored, indices[..t], indices[t], stashes);
    hide StackHolds, Stashes, AllStashes, LevelIndex, IsLeafOf;
  }

  lemma {:induction false} DescendingEnds(stack: Stack, stored: seq<seq<seq<int>>>, indices: seq<nat>, t: nat, dummy: (nat, nat) -> nat,
                                          leaf: int, stashes: seq<map<nat, seq<int>>>, leaves: seq<nat>, dummies: seq<bool>)
    requires Descending(stack, stored, indices, t, dummy, 0, leaf, stashes, leaves, dummies)
    ensures AllStashes(stack, stored, indices[..t + 1], stashes)
    ensures AccessShows(stack, indices, dummy, t, Reversed(leaves), Reversed(dummies))
  {
    StashesBetween(stack, stored, indices[..t], indices[t], stashes);
    assert indices[..t + 1] == indices[..t] + [indices[t]];
    DescendedAll(stack, indices, dummy, t, leaves, dummies);
  }

  /** One access: descend from the base to the data tree. */
  method Access(stack: Stack, ghost stored: seq<seq<seq<int>>>, ghost indices: seq<nat>, t: nat, index: nat,
                dummy: (nat, nat) -> nat, stashes0: seq<map<nat, seq<int>>>)
    returns (value: seq<int>, stashes: seq<map<nat, seq<int>>>, leaves: seq<nat>, dummies: seq<bool>)
    requires StackHolds(stack, stored) && t < |indices| && index == indices[t] && index < stack.Size()
    requires AllStashes(stack, stored, indices[..t], stashes0)
    ensures stored != [] && index < |stored[0]| && value == stored[0][index]
    ensures AllStashes(stack, stored, indices[..t + 1], stashes)
    ensures AccessShows(stack, indices, dummy, t, leaves, dummies)
  {
    DescendingStarts(stack, stored, indices, t, dummy, stashes0);
    hide *;
    stashes, leaves, dummies, value := stashes0, [], [], [];
    var leaf: int := stack.base[LevelIndex(stack.chi, index, |stack.levels| - 1)];
    for level := |stack.levels| downto 0
      invariant Descending(stack, stored, indices, t, dummy, level, leaf, stashes, leaves, dummies)
      invariant level == 0 ==> index < |stored[0]| && value == stored[0][index]
    {
      value, leaf, stashes, leaves, dummies :=
        Descend(stack, stored, indices, t, index, dummy, level, leaf, stashes, leaves, dummies);
    }
    DescendingEnds(stack, stored, indices, t, dummy, leaf, stashes, leaves, dummies);
    leaves, dummies := Reversed(leaves), Reversed(dummies);
  }

  datatype Trace = Trace(results: seq<seq<int>>, revealed: seq<seq<nat>>, dummyLevels: seq<seq<bool>>, stashHighWater: nat)

  /** The trace of a run: every answer is the stored record, and every level shows what it must. */
  ghost predicate Faithful(stack: Stack, stored: seq<seq<seq<int>>>, indices: seq<nat>, dummy: (nat, nat) -> nat, trace: Trace) {
    && stack.chi > 0 && |stored| > 0
    && |trace.results| == |trace.revealed| == |trace.dummyLevels| == |indices|
    && (forall t :: 0 <= t < |indices| ==> indices[t] < |stored[0]| && trace.results[t] == stored[0][indices[t]])
    && (forall t :: 0 <= t < |indices| ==> AccessShows(stack, indices, dummy, t, trace.revealed[t], trace.dummyLevels[t]))
    && (forall l :: 0 <= l < |stored| ==> |Touched(stack.chi, indices, l)| <= trace.stashHighWater)
    && (exists l :: 0 <= l < |stored| && |Touched(stack.chi, indices, l)| == trace.stashHighWater)
    && trace.stashHighWater <= |indices|
  }

  lemma {:induction false} RepeatsAbove(chi: nat, indices: seq<nat>, t: nat, level: nat, upper: nat)
    requires chi > 0 && t < |indices| && level <= upper && Repeats(chi, indices, t, level)
    ensures Repeats(chi, indices, t, upper)
    decreases upper - level
  {
    if level < upper {
      RepeatsUpward(chi, indices, t, level);
      RepeatsAbove(chi, indices, t, level + 1, upper);
    }
  }

  /**
   * What a faithful run reveals: a level answered from the stash has every level above it
   * answered from the stash too, and a level opened for real opens a record not opened before.
   */
  lemma {:induction false} RevealedOnce(stack: Stack, stored: seq<seq<seq<int>>>, indices: seq<nat>, dummy: (nat, nat) -> nat, trace: Trace, t: nat, level: nat)
    requires Faithful(stack, stored, indices, dummy, trace) && t < |indices| && level < |stack.levels|
    ensures |trace.dummyLevels[t]| == |stack.levels|
    ensures trace.dummyLevels[t][level] ==> forall upper :: level <= upper < |stack.levels| ==> trace.dummyLevels[t][upper]
    ensures !trace.dummyLevels[t][level] ==> forall u: nat :: u < t ==> LevelIndex(stack.chi, indices[u], level) != LevelIndex(stack.chi, indices[t], level)
  {
    assert AccessShows(stack, indices, dummy, t, trace.revealed[t], trace.dummyLevels[t]);
    assert LevelShows(stack, indices, dummy, t, level, trace.revealed[t][level], trace.dummyLevels[t][level]);
    hide Faithful, Repeats, Shown, LevelIndex;
    if trace.dummyLevels[t][level] {
      forall upper | level <= upper < |stack.levels|
        ensures trace.dummyLevels[t][upper]
      {
        assert LevelShows(stack, indices, dummy, t, upper, trace.revealed[t][upper], trace.dummyLevels[t][upper]);
        RepeatsAbove(stack.chi, indices, t, level, upper);
      }
    } else {
      forall u: nat | u < t
        ensures LevelIndex(stack.chi, indices[u], level) != LevelIndex(stack.chi, indices[t], level)
      {
        OpenedOnce(stack.chi, indices, u, t, level);
      }
    }
  }

  /** The part of the trace produced by the first `t` accesses. */
  ghost predicate FaithfulUpTo(stack: Stack, stored: seq<seq<seq<int>>>, indices: seq<nat>, dummy: (nat, nat) -> nat, t: nat,
                               results: seq<seq<int>>, revealed: seq<seq<nat>>, dummyLevels: seq<seq<bool>>)
  {
    && t <= |indices| && |stored| > 0 && |results| == |revealed| == |dummyLevels| == t
    && (forall i :: 0 <= i < t ==> indices[i] < |stored[0]| && results[i] == stored[0][indices[i]])
    && forall i :: 0 <= i < t ==> AccessShows(stack, indices, dummy, i, revealed[i], dummyLevels[i])
  }

  lemma {:induction false} FaithfulStep(stack: Stack, stored: seq<seq<seq<int>>>, indices: seq<nat>, dummy: (nat, nat) -> nat, t: nat,
                                        results: seq<seq<int>>, revealed: seq<seq<nat>>, dummyLevels: seq<seq<bool>>,
                                        value: seq<int>, leaves: seq<nat>, dummies: seq<bool>)
    requires FaithfulUpTo(stack, stored, indices, dummy, t, results, revealed, dummyLevels) && t < |indices|
    requires indices[t] < |stored[0]| && value == stored[0][indices[t]]
    requires AccessShows(stack, indices, dummy, t, leaves, dummies)
    ensures FaithfulUpTo(stack, stored, indices, dummy, t + 1, results + [value], revealed + [leaves], dummyLevels + [dummies])
  {
    hide AccessShows;
  }

  /** The stashes between accesses. */
  ghost predicate AllStashes(stack: Stack, stored: seq<seq<seq<int>>>, history: seq<nat>, stashes: seq<map<nat, seq<int>>>) {
    && |stashes| == |stored|
    && forall l :: 0 <= l < |stashes| ==> StashHolds(stack.chi, history, l, stored[l], stashes[l])
  }

  lemma {:induction false} StashesBetween(stack: Stack, stored: seq<seq<seq<int>>>, history: seq<nat>, index: nat, stashes: seq<map<nat, seq<int>>>)
    ensures AllStashes(stack, stored, history, stashes) ==> Stashes(stack, stored, history, index, |stored|, stashes)
    ensures Stashes(stack, stored, history, index, 0, stashes) ==> AllStashes(stack, stored, history + [index], stashes)
  {
    hide StashHolds;
  }

  lemma {:induction false} EmptyStashes(stack: Stack, stored: seq<seq<seq<int>>>)
    requires stack.chi > 0
    ensures AllStashes(stack, stored, [], seq(|stored|, _ => map[]))
  {
  }

  /** `max(len(stash) for stash in stashes)`. */
  method HighWater(stack: Stack, ghost stored: seq<seq<seq<int>>>, ghost history: seq<nat>, stashes: seq<map<nat, seq<int>>>) returns (m: nat)
    requires stack.chi > 0 && |stored| > 0 && AllStashes(stack, stored, history, stashes)
    ensures forall l :: 0 <= l < |stored| ==> |Touched(stack.chi, history, l)| <= m
    ensures exists l :: 0 <= l < |stored| && |Touched(stack.chi, history, l)| == m
    ensures m <= |history|
  {
    m := |stashes[0].Keys|;
    assert StashHolds(stack.chi, history, 0, stored[0], stashes[0]);
    ghost var at := 0;
    for l := 1 to |stashes|
      invariant forall i :: 0 <= i < l ==> |Touched(stack.chi, history, i)| <= m
      invariant 0 <= at < l && |Touched(stack.chi, history, at)| == m
    {
      assert StashHolds(stack.chi, history, l, stored[l], stashes[l]);
      if |stashes[l].Keys| > m {
        m := |stashes[l].Keys|;
        at := l;
      }
    }
    TouchedBound(stack.chi, history, at);
  }

  predicate InBudget(stack: Stack, indices: seq<int>, maxAccesses: int)
    requires |stack.levels| > 0
  {
    maxAccesses >= 1 && |indices| <= maxAccesses && forall t :: 0 <= t < |indices| ==> 0 <= indices[t] < stack.Size()
  }

  /** The accesses as natural numbers; out-of-range ones never get used. */
  function Naturals(s: seq<int>): (r: seq<nat>)
    ensures |r| == |s| && forall i :: 0 <= i < |r| ==> (s[i] >= 0 ==> r[i] == s[i])
  {
    if s == [] then [] else Naturals(s[..|s| - 1]) + [if s[|s| - 1] >= 0 then s[|s| - 1] else 0]
  }

  /**
   * `simulate_access_sequence`: runs exactly the sequences within the declared budget and
   * range, and every run is faithful.
   */
  method Simulate(stack: Stack, ghost stored: seq<seq<seq<int>>>, indices: seq<int>, maxAccesses: int, dummy: (nat, nat) -> nat)
    returns (r: Result<Trace>)
    requires StackHolds(stack, stored)
    ensures |stack.levels| > 0 && (r.Ok? <==> InBudget(stack, indices, maxAccesses))
    ensures r.Ok? ==> Faithful(stack, stored, Naturals(indices), dummy, r.value)
  {
    StackShape(stack, stored);
    if maxAccesses < 1 {
      return Err(BadValue);
    }
    if |indices| > maxAccesses {
      return Err(EpochExhausted);
    }
    ghost var all := Naturals(indices);
    var results: seq<seq<int>>, revealed: seq<seq<nat>>, dummyLevels: seq<seq<bool>> := [], [], [];
    var stashes: seq<map<nat, seq<int>>> := seq(|stack.levels|, _ => map[]);
    RunStarts(stack, stored, indices, dummy);
    hide *;
    for t := 0 to |indices|
      invariant Running(stack, stored, indices, dummy, t, stashes, results, revealed, dummyLevels)
    {
      if !(0 <= indices[t] < stack.Size()) {
        OutOfBudget(stack, indices, maxAccesses, t);
        return Err(OutOfRange);
      }
      stashes, results, revealed, dummyLevels :=
        RunStep(stack, stored, indices, dummy, t, stashes, results, revealed, dummyLevels);
    }
    r := RunEnd(stack, stored, indices, dummy, stashes, results, revealed, dummyLevels);
    WithinBudget(stack, stored, indices, dummy, stashes, results, revealed, dummyLevels, maxAccesses);
  }

  /** The state between accesses. */
  ghost predicate Running(stack: Stack, stored: seq<seq<seq<int>>>, indices: seq<int>, dummy: (nat, nat) -> nat, t: nat,
                          stashes: seq<map<nat, seq<int>>>, results: seq<seq<int>>, revealed: seq<seq<nat>>, dummyLevels: seq<seq<bool>>)
  {
    && StackHolds(stack, stored) && t <= |indices|
    && (forall i :: 0 <= i < t ==> 0 <= indices[i] < stack.Size())
    && AllStashes(stack, stored, Naturals(indices)[..t], stashes)
    && FaithfulUpTo(stack, stored, Naturals(indices), dummy, t, results, revealed, dummyLevels)
  }

  lemma {:induction false} RunStarts(stack: Stack, stored: seq<seq<seq<int>>>, indices: seq<int>, dummy: (nat, nat) -> nat)
    requires StackHolds(stack, stored)
    ensures Running(stack, stored, indices, dummy, 0, seq(|stack.levels|, _ => map[]), [], [], [])
  {
    StackShape(stack, stored);
    EmptyStashes(stack, stored);
    assert Naturals(indices)[..0] == [];
    hide StackHolds, AllStashes;
  }

  lemma {:induction false} RunFacts(stack: Stack, stored: seq<seq<seq<int>>>, indices: seq<int>, dummy: (nat, nat) -> nat, t: nat,
                                    stashes: seq<map<nat, seq<int>>>, results: seq<seq<int>>, revealed: seq<seq<nat>>, dummyLevels: seq<seq<bool>>)
    requires Running(stack, stored, indices, dummy, t, stashes, results, revealed, dummyLevels)
    requires t < |indices| && indices[t] >= 0
    ensures StackHolds(stack, stored) && t < |Naturals(indices)| && Naturals(indices)[t] == indices[t]
    ensures AllStashes(stack, stored, Naturals(indices)[..t], stashes)
  {
    hide StackHolds, AllStashes, FaithfulUpTo;
  }

  lemma {:induction false} RunNext(stack: Stack, stored: seq<seq<seq<int>>>, indices: seq<int>, dummy: (nat, nat) -> nat, t: nat,
                                   stashes: seq<map<nat, seq<int>>>, results: seq<seq<int>>, revealed: seq<seq<nat>>, dummyLevels: seq<seq<bool>>,
                                   stashes': seq<map<nat, seq<int>>>, value: seq<int>, leaves: seq<nat>, dummies: seq<bool>)
    requires Running(stack, stored, indices, dummy, t, stashes, results, revealed, dummyLevels)
    requires t < |indices| && stored != [] && 0 <= indices[t] < stack.Size() && indices[t] < |stored[0]| && value == stored[0][indices[t]]
    requires AllStashes(stack, stored, Naturals(indices)[..t + 1], stashes')
    requires AccessShows(stack, Naturals(indices), dummy, t, leaves, dummies)
    ensures Running(stack, stored, indices, dummy, t + 1, stashes', results + [value], revealed + [leaves], dummyLevels + [dummies])
  {
    FaithfulStep(stack, stored, Naturals(indices), dummy, t, results, revealed, dummyLevels, value, leaves, dummies);
    hide StackHolds, AllStashes, FaithfulUpTo, AccessShows;
  }

  method RunStep(stack: Stack, ghost stored: seq<seq<seq<int>>>, indices: seq<int>, dummy: (nat, nat) -> nat, t: nat,
                 stashes: seq<map<nat, seq<int>>>, results: seq<seq<int>>, revealed: seq<seq<nat>>, dummyLevels: seq<seq<bool>>)
    returns (stashes': seq<map<nat, seq<int>>>, results': seq<seq<int>>, revealed': seq<seq<nat>>, dummyLevels': seq<seq<bool>>)
    requires Running(stack, stored, indices, dummy, t, stashes, results, revealed, dummyLevels)
    requires t < |indices| && |stack.levels| > 0 && 0 <= indices[t] < stack.Size()
    ensures Running(stack, stored, indices, dummy, t + 1, stashes', results', revealed', dummyLevels')
  {
    RunFacts(stack, stored, indices, dummy, t, stashes, results, revealed, dummyLevels);
    hide *;
    var value, leaves, dummies;
    value, stashes', leaves, dummies := Access(stack, stored, Naturals(indices), t, indices[t], dummy, stashes);
    RunNext(stack, stored, indices, dummy, t, stashes, results, revealed, dummyLevels, stashes', value, leaves, dummies);
    results', revealed', dummyLevels' := results + [value], revealed + [leaves], dummyLevels + [dummies];
  }

  method RunEnd(stack: Stack, ghost stored: seq<seq<seq<int>>>, ghost indices: seq<int>, ghost dummy: (nat, nat) -> nat,
                stashes: seq<map<nat, seq<int>>>, results: seq<seq<int>>, revealed: seq<seq<nat>>, dummyLevels: seq<seq<bool>>)
    returns (r: Result<Trace>)
    requires Running(stack, stored, indices, dummy, |indices|, stashes, results, revealed, dummyLevels)
    ensures r.Ok? && Faithful(stack, stored, Naturals(indices), dummy, r.value)
  {
    StackShape(stack, stored);
    assert Naturals(indices)[..|indices|] == Naturals(indices);
    hide StackHolds, AllStashes, FaithfulUpTo, Touched;
    var high := HighWater(stack, stored, Naturals(indices), stashes);
    FaithfulEnd(stack, stored, Naturals(indices), dummy, results, revealed, dummyLevels, high);
    r := Ok(Trace(results, revealed, dummyLevels, high));
  }

  lemma {:induction false} OutOfBudget(stack: Stack, indices: seq<int>, maxAccesses: int, t: nat)
    requires |stack.levels| > 0 && t < |indices| && !(0 <= indices[t] < stack.Size())
    ensures !InBudget(stack, indices, maxAccesses)
  {
  }

  lemma {:induction false} WithinBudget(stack: Stack, stored: seq<seq<seq<int>>>, indices: seq<int>, dummy: (nat, nat) -> nat,
                                        stashes: seq<map<nat, seq<int>>>, results: seq<seq<int>>, revealed: seq<seq<nat>>,
                                        dummyLevels: seq<seq<bool>>, maxAccesses: int)
    requires Running(stack, stored, indices, dummy, |indices|, stashes, results, revealed, dummyLevels)
    requires maxAccesses >= 1 && |indices| <= maxAccesses
    ensures |stack.levels| > 0 && InBudget(stack, indices, maxAccesses)
  {
    StackShape(stack, stored);
  }

  lemma {:induction false} FaithfulEnd(stack: Stack, stored: seq<seq<seq<int>>>, indices: seq<nat>, dummy: (nat, nat) -> nat,
                                       results: seq<seq<int>>, revealed: seq<seq<nat>>, dummyLevels: seq<seq<bool>>, high: nat)
    requires stack.chi > 0 && FaithfulUpTo(stack, stored, indices, dummy, |indices|, results, revealed, dummyLevels)
    requires forall l :: 0 <= l < |stored| ==> |Touched(stack.chi, indices, l)| <= high
    requires exists l :: 0 <= l < |stored| && |Touched(stack.chi, indices, l)| == high
    requires high <= |indices|
    ensures Faithful(stack, stored, indices, dummy, Trace(results, revealed, dummyLevels, high))
  {
    hide AccessShows, Touched;
  }
}
