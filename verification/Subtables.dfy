/** One subtable of the flow classifier: the rules that share a mask, with the
    plain lookup of find_match and the staged, wildcard-tracking lookup of
    find_match_wc. */
module Subtables {
  import opened Bits
  import opened Flows
  import T = Trie

  type RuleId = nat

  const INT_MIN: int := -0x8000_0000
  const CLS_NOT_REMOVED_VERSION: nat := 0xFFFF_FFFF_FFFF_FFFF
  const CLS_MAX_VERSION: nat := CLS_NOT_REMOVED_VERSION - 1

  datatype Conjunction = Conjunction(id: nat, clause: nat, nClauses: nat)

  /** A rule as the classifier stores it.  `conj` is empty unless the rule is
      part of conjunctive matches. */
  datatype ClsMatch = ClsMatch(rule: RuleId, priority: int, flow: BitSet,
                               addVersion: nat, removeVersion: nat, conj: seq<Conjunction>)
  {
    predicate Visible(version: nat) { addVersion <= version < removeVersion }

    predicate EventuallyInvisible() { removeVersion <= CLS_MAX_VERSION }
  }

  /** A trie field: where it is in the flow, and which flows have it. */
  datatype Field = Field(ofs: nat, nBits: nat, prereqs: BitSet -> bool)

  /** What is fixed for the life of a classifier. */
  datatype Config = Config(hasher: Hasher, nWords: nat, segments: seq<nat>, portsOfs: nat, fields: seq<Field>, bigEndian: bool)

  datatype Subtable = Subtable(
    mask: BitSet,
    stages: seq<seq<nat>>,                // index_maps: one per index, then the final stage
    triePlen: seq<nat>,
    portsMaskLen: nat,
    maxPriority: int,
    maxCount: nat,
    chains: map<RuleId, seq<ClsMatch>>,   // head rule -> its list of equal rules
    indices: seq<set<(nat, RuleId)>>,     // (hash, head) nodes of each index
    rules: set<(nat, RuleId)>,            // (hash, head) nodes of the rules map
    portsTrie: T.Trie)
  {
    function Head(id: RuleId): ClsMatch
      requires id in chains && chains[id] != []
    {
      chains[id][0]
    }
  }

  /** The words of the first `i` stages. */
  function Upto(stages: seq<seq<nat>>, i: nat): seq<nat>
    requires i <= |stages|
  {
    if i == 0 then [] else Upto(stages, i - 1) + stages[i - 1]
  }

  /** The hash a flow has at stage `i`, over all words up to that stage. */
  function StageHash(c: Config, mask: BitSet, stages: seq<seq<nat>>, i: nat, f: BitSet): nat
    requires i < |stages|
  {
    var ws := Upto(stages, i + 1);
    c.hasher.finish(HashWords(c.hasher, f, mask, ws, 0), |ws| * 8)
  }

  /** flow_hash_in_minimask: one hash over all words of the mask. */
  function OneShotHash(c: Config, mask: BitSet, f: BitSet): nat
  {
    var ws := MapInRange(mask, 0, c.nWords);
    c.hasher.finish(HashWords(c.hasher, f, mask, ws, 0), |ws| * 8)
  }

  /** The masked ports of a flow. */
  function Ports(c: Config, mask: BitSet, f: BitSet): (v: BitString)
    ensures |v| == 32
  {
    FieldValue(f * mask, c.portsOfs, 32)
  }

  function PortsPrefix(c: Config, mask: BitSet, len: nat, f: BitSet): BitString
    requires len <= 32
  {
    Ports(c, mask, f)[..len]
  }

  function FieldPrefix(c: Config, j: nat, plen: nat, f: BitSet): BitString
    requires j < |c.fields| && plen <= c.fields[j].nBits
  {
    FieldValue(f, c.fields[j].ofs, c.fields[j].nBits)[..plen]
  }

  // ---- Invariants ----

  /** The part of a subtable that its mask determines. */
  ghost predicate StaticOk(c: Config, st: Subtable)
  {
    && |st.stages| >= 1 && |st.indices| == |st.stages| - 1
    && Upto(st.stages, |st.stages|) == MapInRange(st.mask, 0, c.nWords)
    && (forall b: nat :: b in st.mask ==> b < WORD_BITS * c.nWords)
    && |st.triePlen| == |c.fields|
    && (forall j :: 0 <= j < |c.fields| ==>
          st.triePlen[j] <= c.fields[j].nBits
          && PrefixBits(c.fields[j].ofs, st.triePlen[j]) <= st.mask)
    && st.portsMaskLen <= 32 && (st.portsMaskLen > 0 ==> c.portsOfs + st.portsMaskLen - 1 in st.mask)
    && (forall b: nat :: b in st.mask && c.portsOfs <= b < c.portsOfs + 32 ==> b < c.portsOfs + st.portsMaskLen)
  }

  /** Lists of equal rules: non-empty, in non-increasing priority, one list per
      match value. */
  ghost predicate ChainOk(mask: BitSet, id: RuleId, chain: seq<ClsMatch>)
  {
    && chain != [] && chain[0].rule == id && chain[0].flow <= mask
    && (forall i :: 0 <= i < |chain| ==> chain[i].flow == chain[0].flow && chain[i].priority > INT_MIN)
    && (forall i, j :: 0 <= i < j < |chain| ==> chain[i].priority >= chain[j].priority)
    && (forall i, j :: 0 <= i < j < |chain| ==> chain[i].rule != chain[j].rule)
  }

  ghost predicate ChainsOk(st: Subtable)
  {
    && (forall id :: id in st.chains ==> ChainOk(st.mask, id, st.chains[id]))
    && (forall a, b :: a in st.chains && b in st.chains && st.Head(a).flow == st.Head(b).flow ==> a == b)
  }

  lemma NonEmptyChains(st: Subtable)
    requires ChainsOk(st)
    ensures forall id :: id in st.chains ==> st.chains[id] != []
  {
    forall id | id in st.chains ensures st.chains[id] != [] { assert ChainOk(st.mask, id, st.chains[id]); }
  }

  /** `n` is the map node of a head at stage `i`. */
  ghost predicate IsNode(c: Config, st: Subtable, i: nat, n: (nat, RuleId))
    requires i < |st.stages|
  {
    n.1 in st.chains && st.chains[n.1] != [] && n.0 == StageHash(c, st.mask, st.stages, i, st.Head(n.1).flow)
  }

  /** The index and rule maps hold each head once, under its hash. */
  ghost predicate MapsOk(c: Config, st: Subtable)
  {
    && |st.indices| + 1 == |st.stages|
    && (forall i, n :: 0 <= i < |st.indices| ==> (n in st.indices[i] <==> IsNode(c, st, i, n)))
    && (forall n :: n in st.rules <==> IsNode(c, st, |st.stages| - 1, n))
  }

  /** The match values of the heads. */
  ghost function HeadFlows(st: Subtable): set<BitSet>
  {
    set id | id in st.chains && st.chains[id] != [] :: st.Head(id).flow
  }

  ghost function FlowsAtPorts(c: Config, mask: BitSet, len: nat, flows: set<BitSet>, q: BitString): set<BitSet>
    requires len <= 32
  {
    set f | f in flows && PortsPrefix(c, mask, len, f) == q
  }

  /** The ports trie counts the heads with each masked port prefix. */
  ghost predicate PortsOk(c: Config, st: Subtable)
  {
    && st.portsMaskLen <= 32
    && (st.portsMaskLen == 0 ==> st.portsTrie.Null?)
    && (st.portsMaskLen > 0 ==>
          && T.Shaped(st.portsTrie, true)
          && forall q: BitString ::
               T.Count(st.portsTrie, q) == |FlowsAtPorts(c, st.mask, st.portsMaskLen, HeadFlows(st), q)|)
  }

  ghost predicate SubtableOk(c: Config, st: Subtable)
  {
    StaticOk(c, st) && ChainsOk(st) && MapsOk(c, st) && PortsOk(c, st)
  }

  // ---- Plain lookup ----

  ghost predicate HeadMatches(st: Subtable, id: RuleId, f: BitSet)
    requires id in st.chains && st.chains[id] != []
  {
    Agree(st.mask, st.Head(id).flow, f)
  }

  /** A pointer to a rule in a list of equal rules: the list from that rule on,
      or the empty list for a null pointer. */
  type RulePtr = seq<ClsMatch>

  /** The first visible rule of a list, which is the highest-priority one. */
  function FirstVisible(chain: seq<ClsMatch>, version: nat): (r: RulePtr)
    ensures |r| <= |chain| && r == chain[|chain| - |r|..]
    ensures r != [] ==> r[0].Visible(version)
    ensures forall i :: 0 <= i < |chain| - |r| ==> !chain[i].Visible(version)
    decreases |chain|
  {
    if chain == [] || chain[0].Visible(version) then chain
    else FirstVisible(chain[1..], version)
  }

  /** The reference: the first visible rule of the list whose match the flow
      satisfies. */
  ghost function FindSpec(st: Subtable, version: nat, f: BitSet): RulePtr
    requires ChainsOk(st)
  {
    if exists id :: id in st.chains && HeadMatches(st, id, f) then
      var id :| id in st.chains && HeadMatches(st, id, f);
      FirstVisible(st.chains[id], version)
    else []
  }

  /** Two lists cannot both match a flow. */
  lemma OneHeadMatches(st: Subtable, a: RuleId, b: RuleId, f: BitSet)
    requires ChainsOk(st) && a in st.chains && b in st.chains
    requires HeadMatches(st, a, f) && HeadMatches(st, b, f)
    ensures a == b
  {
    assert ChainOk(st.mask, a, st.chains[a]) && ChainOk(st.mask, b, st.chains[b]);
    assert st.Head(a).flow == st.Head(b).flow;
  }

  lemma FindSpecIs(st: Subtable, version: nat, f: BitSet, id: RuleId)
    requires ChainsOk(st) && id in st.chains && HeadMatches(st, id, f)
    ensures FindSpec(st, version, f) == FirstVisible(st.chains[id], version)
  {
    forall a | a in st.chains && HeadMatches(st, a, f) ensures a == id { OneHeadMatches(st, a, id, f); }
  }

  /** A flow satisfying a head's match has the head's hash at every stage. */
  lemma MatchGivesHash(c: Config, st: Subtable, i: nat, f: BitSet, g: BitSet)
    requires i < |st.stages| && Agree(InWords(st.mask, Upto(st.stages, i + 1)), f, g)
    ensures StageHash(c, st.mask, st.stages, i, f) == StageHash(c, st.mask, st.stages, i, g)
  {
    HashWordsAgree(c.hasher, f, g, st.mask, Upto(st.stages, i + 1), 0);
  }

  /** The last stage hash is the one-shot hash over the whole mask. */
  lemma FinalStageIsOneShot(c: Config, st: Subtable, f: BitSet)
    requires StaticOk(c, st)
    ensures StageHash(c, st.mask, st.stages, |st.stages| - 1, f) == OneShotHash(c, st.mask, f)
  {
  }

  /** find_match: scans the rules map for the flow's hash. */
  method FindMatch(c: Config, st: Subtable, version: nat, f: BitSet, hash: nat)
    returns (r: RulePtr)
    requires SubtableOk(c, st)
    requires hash == StageHash(c, st.mask, st.stages, |st.stages| - 1, f)
    ensures r == FindSpec(st, version, f)
  {
    var nodes := set n | n in st.rules && n.0 == hash;
    ghost var seen: set<RuleId> := {};
    while nodes != {}
      invariant nodes <= st.rules && forall n :: n in nodes ==> n.0 == hash
      invariant forall n :: n in st.rules && n.0 == hash ==> n in nodes || n.1 in seen
      invariant forall id :: id in seen ==> id in st.chains && (HeadMatches(st, id, f) ==> FirstVisible(st.chains[id], version) == [])
      decreases nodes
    {
      var n :| n in nodes;
      assert ChainOk(st.mask, n.1, st.chains[n.1]);
      if Diff(st.mask, st.Head(n.1).flow, f) == {} {
        var v := FirstVisible(st.chains[n.1], version);
        FindSpecIs(st, version, f, n.1);
        if v != [] { return v; }
      }
      nodes, seen := nodes - {n}, seen + {n.1};
    }
    forall id | id in st.chains && HeadMatches(st, id, f) ensures FindSpec(st, version, f) == [] {
      MatchGivesHash(c, st, |st.stages| - 1, st.Head(id).flow, f);
      assert (hash, id) in st.rules;
      FindSpecIs(st, version, f, id);
    }
    r := [];
  }
}
