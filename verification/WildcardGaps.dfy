/** Inputs for which find_match_wc un-wildcards too few bits, so that some flow that shares
    them has another answer. */
module WildcardGaps {
  import opened Bits
  import opened Flows
  import opened Subtables
  import opened StagedLookup

  function Rule(id: RuleId, flow: BitSet): ClsMatch { ClsMatch(id, 5, flow, 0, CLS_NOT_REMOVED_VERSION, []) }

  /** A hash that counts 1-bits: flows that differ often have the same. */
  const COUNT_BITS: Hasher := Hasher((b: nat, w: BitSet) => b + |w|, (h: nat, n: nat) => h)

  lemma WordOfSmall(s: BitSet)
    requires forall b :: b in s ==> b < WORD_BITS
    ensures Word(s, 0) == s && forall w: nat :: w > 0 ==> Word(s, w) == {}
  {
  }

  // ---- The exit at an index with one list ----

  function IndexConfig(big: bool): Config { Config(COUNT_BITS, 2, [1], 1000, [], big) }

  const SPLIT: BitSet := {0, 1, 2, 64}

  /** Two lists, {0} and {1, 2}, with hashes 1 and 2 over the first word. */
  function TwoLists(): Subtable
  {
    Subtable(SPLIT, [[0], [1]], [], 0, 5, 2, map[1 := [Rule(1, {0})], 2 := [Rule(2, {1, 2})]],
             [{(1, 1), (2, 2)}], {(1, 1), (2, 2)}, T.Null)
  }

  lemma CountedBits(big: bool, f: BitSet, i: nat)
    requires f <= {0, 1, 2} && i < 2
    ensures StageHash(IndexConfig(big), SPLIT, TwoLists().stages, i, f) == |f|
  {
    WordOfSmall(f);
    assert f * SPLIT == f;
    assert Upto(TwoLists().stages, 1) == [0] && Upto(TwoLists().stages, 2) == [0, 1];
    assert [0, 1][1..] == [1] && [1][1..] == [] && [0][1..] == [];
  }

  lemma TwoStatic(big: bool)
    ensures StaticOk(IndexConfig(big), TwoLists()) && PortsOk(IndexConfig(big), TwoLists())
  {
    assert Upto(TwoLists().stages, 1) == [0] && Upto(TwoLists().stages, 2) == [0, 1];
    assert 0 in Word(SPLIT, 0) && 0 in Word(SPLIT, 1);
    assert MapInRange(SPLIT, 2, 2) == [] && MapInRange(SPLIT, 1, 2) == [1] && MapInRange(SPLIT, 0, 2) == [0, 1];
  }

  lemma TwoChains()
    ensures ChainsOk(TwoLists()) && TwoLists().chains.Keys == {1, 2}
    ensures TwoLists().Head(1).flow == {0} && TwoLists().Head(2).flow == {1, 2}
  {
    assert 0 in TwoLists().Head(1).flow && 0 !in TwoLists().Head(2).flow;
  }

  lemma TwoHashes(big: bool, i: nat)
    requires i < 2
    ensures StageHash(IndexConfig(big), SPLIT, TwoLists().stages, i, {0}) == 1
    ensures StageHash(IndexConfig(big), SPLIT, TwoLists().stages, i, {1, 2}) == 2
  {
    hide StageHash;
    var a: BitSet, b: BitSet := {0}, {1, 2};
    assert |a| == 1 && |b| == 2;
    CountedBits(big, a, i);
    CountedBits(big, b, i);
  }

  lemma TwoMaps(big: bool)
    ensures MapsOk(IndexConfig(big), TwoLists())
  {
    hide StageHash;
    TwoHashes(big, 0);
    TwoHashes(big, 1);
    TwoChains();
  }

  lemma TwoListsOk(big: bool)
    ensures SubtableOk(IndexConfig(big), TwoLists())
  {
    hide TwoLists, StaticOk, ChainsOk, MapsOk, PortsOk;
    TwoStatic(big);
    TwoChains();
    TwoMaps(big);
  }

  /** The flow {1} has the hash of list {0} and differs from it in bits 0 and 1, of which
      the exit keeps bit 1. */
  lemma KeepsBitOne(big: bool)
    ensures CompareFolds(IndexConfig(big), TwoLists(), {1}, {}, 1) == {1}
  {
    var ws, g: BitSet, f: BitSet := MaskWords(TwoLists()), {0}, {1};
    assert Upto(TwoLists().stages, 1) == [0] && ws == [0, 1] && ws[..0] == [];
    var word := InWords(SPLIT, [0]);
    assert word == {0, 1, 2};
    var diff := Diff(word, g, f);
    forall b: nat ensures b in diff <==> b == 0 || b == 1 { DiffMembers(word, g, f, b); }
    assert diff == {0, 1};
    assert Significance(big, 1) <= Significance(big, 0);
    RightmostIs(big, diff, 0, 0, 1);
  }

  lemma OneInBucket(big: bool)
    ensures Bucket(IndexConfig(big), TwoLists(), 0, {1}) == {1}
  {
    var a: BitSet, b: BitSet, f: BitSet := {0}, {1, 2}, {1};
    CountedBits(big, a, 0);
    CountedBits(big, b, 0);
    CountedBits(big, f, 0);
    assert |a| == 1 && |b| == 2 && |f| == 1;
  }

  lemma NoTries(c: Config, st: Subtable)
    requires SubtableOk(c, st) && c.fields == []
    ensures TriesOk(c, []) && HeadsInTries(c, [], st) && |st.stages| == |st.indices| + 1
  {
    hide MapsOk, PortsOk, ChainOk;
  }

  lemma FirstExit(c: Config, st: Subtable, f: BitSet, only: RuleId)
    requires StaticOk(c, st) && c.fields == [] && |st.indices| > 0 && Bucket(c, st, 0, f) == {only}
    ensures ExitOf(c, [], st, f, {}) == OneList(0, only)
  {
    hide Bucket, Skips;
    var e := ExitOf(c, [], st, f, {});
    assert only in Bucket(c, st, 0, f);
  }

  lemma LastExit(c: Config, st: Subtable, f: BitSet)
    requires StaticOk(c, st) && c.fields == [] && st.indices == []
    ensures ExitOf(c, [], st, f, {}) == LastStage
  {
    hide Bucket, Skips;
  }

  /** Another list that agrees on what the exit at the first index keeps. */
  lemma FirstIndexMisleads(c: Config, st: Subtable, version: nat, f: BitSet, only: RuleId, other: RuleId)
    requires SubtableOk(c, st) && c.fields == [] && |st.indices| > 0 && only in st.chains && other in st.chains
    requires Bucket(c, st, 0, f) == {only} && !HeadMatches(st, only, f) && FirstVisible(st.chains[other], version) != []
    requires Agree(CompareFolds(c, st, f, {}, only) * st.mask, st.Head(other).flow, f)
    ensures TriesOk(c, []) && HeadsInTries(c, [], st) && ExitOf(c, [], st, f, {}) == OneList(0, only)
    ensures !Safe(c, [], st, version, f, {})
    ensures !Sound(st, version, f, Folded(c, [], st, version, f, {}), FindSpec(st, version, f))
  {
    hide CompareFolds, FindSpec, StaticOk, MapsOk, PortsOk, ChainOk, Sound, Folded, Bucket, ExitOf, TriesOk, HeadsInTries, Agree;
    NonEmptyChains(st);
    NoTries(c, st);
    FirstExit(c, st, f, only);
    assert !Clear(st, version, f, CompareFolds(c, st, f, {}, only));
    SoundExactly(c, [], st, version, f, {});
  }

  lemma SecondAgrees(version: nat)
    requires version <= CLS_MAX_VERSION
    ensures TwoLists().chains.Keys == {1, 2} && TwoLists().chains[1] != [] && TwoLists().chains[2] != []
    ensures !HeadMatches(TwoLists(), 1, {1}) && FirstVisible(TwoLists().chains[2], version) != []
    ensures Agree({1} * TwoLists().mask, TwoLists().Head(2).flow, {1}) && |TwoLists().indices| == 1
  {
    assert 0 in SPLIT && 0 in TwoLists().Head(1).flow;
  }

  /** The exit at an index can un-wildcard too little: the flow {1, 2} agrees with {1} on
      the bit kept, and matches the second list. */
  lemma IndexExitGap(big: bool, version: nat)
    requires version <= CLS_MAX_VERSION
    ensures var c, st := IndexConfig(big), TwoLists();
            && SubtableOk(c, st) && TriesOk(c, []) && HeadsInTries(c, [], st) && ExitOf(c, [], st, {1}, {}) == OneList(0, 1)
            && !Safe(c, [], st, version, {1}, {})
            && !Sound(st, version, {1}, Folded(c, [], st, version, {1}, {}), FindSpec(st, version, {1}))
  {
    hide TwoLists, StaticOk, ChainsOk, MapsOk, PortsOk, TriesOk, HeadsInTries, ExitOf, Safe, Sound, Folded, FindSpec, Bucket, CompareFolds,
         HeadMatches, FirstVisible, Agree;
    TwoListsOk(big);
    KeepsBitOne(big);
    OneInBucket(big);
    SecondAgrees(version);
    FirstIndexMisleads(IndexConfig(big), TwoLists(), version, {1}, 1, 2);
  }

  // ---- The exit with ports ----

  function PortsConfig(big: bool): Config { Config(COUNT_BITS, 1, [], 0, [], big) }

  const MIXED: BitSet := {0, 40}

  /** One list, {0, 40}, in a stage that masks a port bit and a bit that is not of a
      port. */
  function MixedList(): Subtable
  {
    Subtable(MIXED, [[0]], [], 1, 5, 1, map[1 := [Rule(1, MIXED)]], [], {(2, 1)}, T.Node([true], 1, T.Null, T.Null))
  }

  lemma MixedHash(big: bool)
    ensures StageHash(PortsConfig(big), MIXED, MixedList().stages, 0, MIXED) == 2
  {
    WordOfSmall(MIXED);
    assert Upto(MixedList().stages, 1) == [0] && [0][1..] == [];
    assert MIXED * MIXED == MIXED && |MIXED| == 2;
  }

  lemma MixedStatic(big: bool)
    ensures StaticOk(PortsConfig(big), MixedList()) && ChainsOk(MixedList())
  {
    assert Upto(MixedList().stages, 1) == [0];
    assert 0 in Word(MIXED, 0) && MapInRange(MIXED, 1, 1) == [] && MapInRange(MIXED, 0, 1) == [0];
  }

  lemma MixedMaps(big: bool)
    ensures MapsOk(PortsConfig(big), MixedList())
  {
    hide StageHash;
    MixedHash(big);
    var c, st := PortsConfig(big), MixedList();
    assert st.chains.Keys == {1} && st.Head(1).flow == MIXED;
    forall n: (nat, RuleId) ensures n in st.rules <==> IsNode(c, st, 0, n) { }
  }

  lemma MixedPorts(big: bool)
    ensures PortsOk(PortsConfig(big), MixedList())
  {
    var c, st := PortsConfig(big), MixedList();
    var flows := HeadFlows(st);
    assert 1 in st.chains && st.chains[1] != [] && st.Head(1).flow == MIXED;
    assert flows == {MIXED};
    assert PortsPrefix(c, MIXED, 1, MIXED) == [true];
    forall q: BitString ensures T.Count(st.portsTrie, q) == |FlowsAtPorts(c, MIXED, 1, flows, q)| {
      assert FlowsAtPorts(c, MIXED, 1, flows, q) == if q == [true] then {MIXED} else {};
    }
  }

  lemma OneListOk(big: bool)
    ensures SubtableOk(PortsConfig(big), MixedList())
  {
    hide MixedList, StaticOk, ChainsOk, MapsOk, PortsOk;
    MixedStatic(big);
    MixedMaps(big);
    MixedPorts(big);
  }

  lemma OnePortBit(big: bool)
    ensures T.DecidingBits(MixedList().portsTrie, Ports(PortsConfig(big), MIXED, {0})) == 1
  {
    var t, v := MixedList().portsTrie, Ports(PortsConfig(big), MIXED, {0});
    forall q: BitString | T.Count(t, q) > 0 ensures q == [true] { }
    assert T.Count(t, [true]) > 0 && [true][..0] == v[..0];
    assert !T.Settles(t, v, 0) && T.Settles(t, v, 1);
    T.SettlingIs(t, v, 1, 0);
  }

  /** A list that agrees on what the exit with ports keeps, in a table of one stage. */
  lemma LastStageMisleads(c: Config, st: Subtable, version: nat, f: BitSet, id: RuleId)
    requires SubtableOk(c, st) && c.fields == [] && st.indices == [] && st.portsMaskLen > 0 && id in st.chains
    requires FindSpec(st, version, f) == [] && FirstVisible(st.chains[id], version) != []
    requires Agree(PortsFold(c, st, f, {}) * st.mask, st.Head(id).flow, f)
    ensures TriesOk(c, []) && HeadsInTries(c, [], st) && ExitOf(c, [], st, f, {}) == LastStage
    ensures !Safe(c, [], st, version, f, {})
    ensures !Sound(st, version, f, Folded(c, [], st, version, f, {}), FindSpec(st, version, f))
  {
    hide PortsFold, FindSpec, StaticOk, MapsOk, PortsOk, ChainOk, Sound, Folded, Bucket, ExitOf, TriesOk, HeadsInTries, Agree;
    NonEmptyChains(st);
    NoTries(c, st);
    LastExit(c, st, f);
    assert !Clear(st, version, f, PortsFold(c, st, f, {}));
    SoundExactly(c, [], st, version, f, {});
  }

  lemma KeepsPortBit(big: bool)
    ensures MixedList().stages != [] && forall b: nat :: b in PortsFold(PortsConfig(big), MixedList(), {0}, {}) ==> b == 0
  {
    hide T.DecidingBits, Ports;
    OnePortBit(big);
    assert Upto(MixedList().stages, 0) == [];
  }

  lemma ListAgrees(big: bool, version: nat)
    requires version <= CLS_MAX_VERSION && ChainsOk(MixedList())
    ensures var st := MixedList();
            && 1 in st.chains && st.indices == [] && st.portsMaskLen > 0 && st.stages != [] && st.chains[1] != []
            && FindSpec(st, version, {0}) == [] && FirstVisible(st.chains[1], version) != []
            && Agree(PortsFold(PortsConfig(big), st, {0}, {}) * st.mask, st.Head(1).flow, {0})
  {
    hide PortsFold, ChainsOk;
    var st := MixedList();
    KeepsPortBit(big);
    assert 40 in st.mask && 40 in st.Head(1).flow;
  }

  /** The exit with ports can un-wildcard too little: the flow {0, 40} agrees with {0} on
      the deciding port bit, and matches the list. */
  lemma PortsExitGap(big: bool, version: nat)
    requires version <= CLS_MAX_VERSION
    ensures var c, st := PortsConfig(big), MixedList();
            && SubtableOk(c, st) && TriesOk(c, []) && HeadsInTries(c, [], st) && ExitOf(c, [], st, {0}, {}) == LastStage
            && !Safe(c, [], st, version, {0}, {})
            && !Sound(st, version, {0}, Folded(c, [], st, version, {0}, {}), FindSpec(st, version, {0}))
  {
    hide MixedList, StaticOk, ChainsOk, MapsOk, PortsOk, TriesOk, HeadsInTries, ExitOf, Safe, Sound, Folded, FindSpec, PortsFold,
         FirstVisible, Agree;
    OneListOk(big);
    ListAgrees(big, version);
    LastStageMisleads(PortsConfig(big), MixedList(), version, {0}, 1);
  }
}
