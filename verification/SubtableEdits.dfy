/** The three ways a rule insertion or removal changes a subtable: a new head
    rule, an edited list of equal rules (perhaps with a new head), and a head
    that goes away.  Each keeps the index maps, the rules map and the ports trie
    in step with the heads. */
module SubtableEdits {
  import opened Bits
  import opened Flows
  import opened Subtables

  /** All rules of a subtable. */
  ghost function All(st: Subtable): set<ClsMatch>
  {
    set h, m | h in st.chains && m in st.chains[h] :: m
  }

  /** A rule is in one list only. */
  ghost predicate IdsOk(st: Subtable)
  {
    forall h, h', m, m' ::
      h in st.chains && h' in st.chains && m in st.chains[h] && m' in st.chains[h'] && m.rule == m'.rule ==> h == h'
  }

  ghost function RulesAt(st: Subtable, p: int): set<ClsMatch>
  {
    set m | m in All(st) && m.priority == p
  }

  /** `maxPriority` is exact; `maxCount` may undercount the rules that have it,
      but is never zero. */
  ghost predicate MaxOk(st: Subtable)
  {
    && (exists m :: m in All(st) && m.priority == st.maxPriority)
    && (forall m :: m in All(st) ==> m.priority <= st.maxPriority)
    && 1 <= st.maxCount <= |RulesAt(st, st.maxPriority)|
  }

  ghost predicate TableOk(c: Config, st: Subtable)
  {
    SubtableOk(c, st) && IdsOk(st)
  }

  ghost predicate HashesAre(c: Config, st: Subtable, f: BitSet, ihash: seq<nat>, hash: nat)
    requires StaticOk(c, st)
  {
    && |ihash| == |st.indices|
    && (forall i :: 0 <= i < |ihash| ==> ihash[i] == StageHash(c, st.mask, st.stages, i, f))
    && hash == StageHash(c, st.mask, st.stages, |st.stages| - 1, f)
  }

  lemma StaticSame(c: Config, st: Subtable, st': Subtable)
    requires StaticOk(c, st) && st'.mask == st.mask && st'.stages == st.stages && |st'.indices| == |st.indices|
    requires st'.triePlen == st.triePlen && st'.portsMaskLen == st.portsMaskLen
    ensures StaticOk(c, st')
  {
  }

  // ---- A new head ----

  function AddHead(c: Config, st: Subtable, m: ClsMatch, ihash: seq<nat>, hash: nat): Subtable
    requires |ihash| == |st.indices| && st.portsMaskLen <= 32
  {
    var ports := PortsPrefix(c, st.mask, st.portsMaskLen, m.flow);
    st.(chains := st.chains[m.rule := [m]],
        portsTrie := if st.portsMaskLen > 0 then T.Insert(st.portsTrie, ports) else st.portsTrie,
        indices := seq(|st.indices|, i requires 0 <= i < |st.indices| => st.indices[i] + {(ihash[i], m.rule)}),
        rules := st.rules + {(hash, m.rule)})
  }

  lemma AddHeadOk(c: Config, st: Subtable, m: ClsMatch, ihash: seq<nat>, hash: nat)
    requires TableOk(c, st) && m.flow <= st.mask && m.priority > INT_MIN
    requires HashesAre(c, st, m.flow, ihash, hash)
    requires forall x :: x in All(st) ==> x.rule != m.rule
    requires m.flow !in HeadFlows(st)
    ensures TableOk(c, AddHead(c, st, m, ihash, hash))
    ensures HeadFlows(AddHead(c, st, m, ihash, hash)) == HeadFlows(st) + {m.flow}
    ensures All(AddHead(c, st, m, ihash, hash)) == All(st) + {m}
  {
    FreshIsNoHead(st, m);
    var st' := AddHead(c, st, m, ihash, hash);
    StaticSame(c, st, st');
    AddHeadChains(st, st', m);
    AddHeadAll(st, st', m);
    AddHeadFlows(st, st', m);
    AddHeadIds(st, st', m);
    AddHeadMaps(c, st, m, ihash, hash);
    AddHeadPorts(c, st, m, ihash, hash);
  }

  lemma FreshIsNoHead(st: Subtable, m: ClsMatch)
    requires ChainsOk(st) && forall x :: x in All(st) ==> x.rule != m.rule
    ensures m.rule !in st.chains
  {
    if m.rule in st.chains { HeadIsIn(st, m.rule); }
  }

  lemma HeadIsIn(st: Subtable, h: RuleId)
    requires ChainsOk(st) && h in st.chains
    ensures st.Head(h) in All(st) && st.Head(h).rule == h && st.Head(h) in st.chains[h]
  {
    assert ChainOk(st.mask, h, st.chains[h]);
    assert st.Head(h) in st.chains[h];
  }

  lemma AddHeadChains(st: Subtable, st': Subtable, m: ClsMatch)
    requires ChainsOk(st) && m.rule !in st.chains
    requires st'.mask == st.mask && st'.chains == st.chains[m.rule := [m]]
    requires m.flow <= st.mask && m.priority > INT_MIN
    requires m.flow !in HeadFlows(st)
    ensures ChainsOk(st')
  {
    assert ChainOk(st.mask, m.rule, [m]);
  }

  lemma AddHeadAll(st: Subtable, st': Subtable, m: ClsMatch)
    requires m.rule !in st.chains && st'.chains == st.chains[m.rule := [m]]
    ensures All(st') == All(st) + {m}
  {
    forall x ensures x in All(st') <==> x in All(st) + {m} {
      if x in All(st) {
        var h :| h in st.chains && x in st.chains[h];
        assert x in st'.chains[h];
      }
      assert m in st'.chains[m.rule];
    }
  }

  lemma AddHeadIds(st: Subtable, st': Subtable, m: ClsMatch)
    requires IdsOk(st) && m.rule !in st.chains && st'.chains == st.chains[m.rule := [m]]
    requires forall x :: x in All(st) ==> x.rule != m.rule
    ensures IdsOk(st')
  {
    forall h, x | h in st.chains && x in st.chains[h] ensures x.rule != m.rule { assert x in All(st); }
  }

  lemma AddHeadMaps(c: Config, st: Subtable, m: ClsMatch, ihash: seq<nat>, hash: nat)
    requires StaticOk(c, st) && MapsOk(c, st) && m.rule !in st.chains && HashesAre(c, st, m.flow, ihash, hash)
    ensures MapsOk(c, AddHead(c, st, m, ihash, hash))
  {
    var st' := AddHead(c, st, m, ihash, hash);
    forall i, n | 0 <= i < |st.stages|
      ensures IsNode(c, st', i, n) <==> IsNode(c, st, i, n) || n == (StageHash(c, st.mask, st.stages, i, m.flow), m.rule)
    {
    }
  }

  lemma AddHeadFlows(st: Subtable, st': Subtable, m: ClsMatch)
    requires m.rule !in st.chains && st'.chains == st.chains[m.rule := [m]]
    ensures HeadFlows(st') == HeadFlows(st) + {m.flow}
  {
    forall id | id in st.chains && st.chains[id] != [] ensures st.Head(id).flow in HeadFlows(st') {
      assert st'.chains[id] == st.chains[id];
    }
    assert st'.Head(m.rule).flow == m.flow;
  }

  lemma AddHeadPorts(c: Config, st: Subtable, m: ClsMatch, ihash: seq<nat>, hash: nat)
    requires PortsOk(c, st) && m.rule !in st.chains && |ihash| == |st.indices| && m.flow !in HeadFlows(st)
    ensures PortsOk(c, AddHead(c, st, m, ihash, hash))
  {
    var st' := AddHead(c, st, m, ihash, hash);
    AddHeadFlows(st, st', m);
    if st.portsMaskLen > 0 {
      var p := PortsPrefix(c, st.mask, st.portsMaskLen, m.flow);
      T.InsertShaped(st.portsTrie, p, true);
      forall q: BitString
        ensures T.Count(st'.portsTrie, q) == |FlowsAtPorts(c, st.mask, st.portsMaskLen, HeadFlows(st'), q)|
      {
        T.InsertCount(st.portsTrie, p, true, q);
        MoreAtPorts(c, st.mask, st.portsMaskLen, HeadFlows(st), m.flow, q);
      }
    }
  }

  lemma MoreAtPorts(c: Config, mask: BitSet, len: nat, flows: set<BitSet>, f: BitSet, q: BitString)
    requires len <= 32 && f !in flows
    ensures |FlowsAtPorts(c, mask, len, flows + {f}, q)| ==
            |FlowsAtPorts(c, mask, len, flows, q)| + if PortsPrefix(c, mask, len, f) == q then 1 else 0
  {
    var was, now := FlowsAtPorts(c, mask, len, flows, q), FlowsAtPorts(c, mask, len, flows + {f}, q);
    assert now == if PortsPrefix(c, mask, len, f) == q then was + {f} else was;
  }

  // ---- An edited list ----

  /** Gives the list headed by `h` the contents `chain`; when its head changes,
      the maps point to the new head. */
  function SetChain(st: Subtable, h: RuleId, chain: seq<ClsMatch>, ihash: seq<nat>, hash: nat): Subtable
    requires |ihash| == |st.indices| && chain != []
  {
    var h' := chain[0].rule;
    var chains := (st.chains - {h})[h' := chain];
    if h' == h then st.(chains := chains)
    else
      st.(chains := chains,
          indices := seq(|st.indices|, i requires 0 <= i < |st.indices| =>
                         st.indices[i] - {(ihash[i], h)} + {(ihash[i], h')}),
          rules := st.rules - {(hash, h)} + {(hash, h')})
  }

  lemma SetChainOk(c: Config, st: Subtable, h: RuleId, chain: seq<ClsMatch>, ihash: seq<nat>, hash: nat)
    requires TableOk(c, st) && h in st.chains && chain != []
    requires ChainOk(st.mask, chain[0].rule, chain) && chain[0].flow == st.Head(h).flow
    requires HashesAre(c, st, chain[0].flow, ihash, hash)
    requires FreshIn(st, h, chain)
    ensures TableOk(c, SetChain(st, h, chain, ihash, hash))
    ensures HeadFlows(SetChain(st, h, chain, ihash, hash)) == HeadFlows(st)
    ensures Rest(st, h, chain, SetChain(st, h, chain, ihash, hash))
  {
    NewHeadIsFresh(st, h, chain);
    var st' := SetChain(st, h, chain, ihash, hash);
    StaticSame(c, st, st');
    SetChainChains(st, st', h, chain);
    SetChainIds(st, st', h, chain);
    SetChainRest(st, st', h, chain);
    SetChainMaps(c, st, h, chain, ihash, hash);
    SetChainFlows(st, st', h, chain);
  }

  /** Rules of `chain` are in no other list than the one headed by `h`. */
  ghost predicate FreshIn(st: Subtable, h: RuleId, chain: seq<ClsMatch>)
  {
    forall x, y, h' :: x in chain && h' in st.chains && h' != h && y in st.chains[h'] ==> y.rule != x.rule
  }

  lemma NewHeadIsFresh(st: Subtable, h: RuleId, chain: seq<ClsMatch>)
    requires ChainsOk(st) && chain != [] && FreshIn(st, h, chain)
    ensures chain[0].rule != h ==> chain[0].rule !in st.chains
  {
    assert chain[0] in chain;
    if chain[0].rule in st.chains { HeadIsIn(st, chain[0].rule); }
  }

  lemma SetChainChains(st: Subtable, st': Subtable, h: RuleId, chain: seq<ClsMatch>)
    requires ChainsOk(st) && h in st.chains && chain != []
    requires st'.mask == st.mask && st'.chains == (st.chains - {h})[chain[0].rule := chain]
    requires chain[0].rule != h ==> chain[0].rule !in st.chains
    requires ChainOk(st.mask, chain[0].rule, chain) && chain[0].flow == st.Head(h).flow
    ensures ChainsOk(st')
  {
    var id := chain[0].rule;
    forall g | g in st'.chains ensures ChainOk(st.mask, g, st'.chains[g]) {
      assert g != id ==> g in st.chains && st'.chains[g] == st.chains[g];
    }
    forall a, b | a in st'.chains && b in st'.chains && st'.Head(a).flow == st'.Head(b).flow ensures a == b {
      var a', b' := if a == id then h else a, if b == id then h else b;
      assert st.Head(a').flow == st'.Head(a).flow && st.Head(b').flow == st'.Head(b).flow;
    }
  }

  lemma SetChainIds(st: Subtable, st': Subtable, h: RuleId, chain: seq<ClsMatch>)
    requires IdsOk(st) && chain != [] && FreshIn(st, h, chain)
    requires st'.chains == (st.chains - {h})[chain[0].rule := chain]
    ensures IdsOk(st')
  {
    forall g | g in st'.chains && g != chain[0].rule
      ensures g in st.chains && g != h && st'.chains[g] == st.chains[g]
    {
    }
  }

  lemma SetChainRest(st: Subtable, st': Subtable, h: RuleId, chain: seq<ClsMatch>)
    requires chain != [] && st'.chains == (st.chains - {h})[chain[0].rule := chain]
    requires chain[0].rule != h ==> chain[0].rule !in st.chains
    ensures Rest(st, h, chain, st')
  {
    forall x | x in All(st') ensures x in chain || InOther(st, h, x) {
      var g :| g in st'.chains && x in st'.chains[g];
    }
    forall x | x in chain ensures x in All(st') { assert x in st'.chains[chain[0].rule]; }
    forall x | InOther(st, h, x) ensures x in All(st') {
      var g :| g in st.chains && g != h && x in st.chains[g];
      assert x in st'.chains[g];
    }
  }

  /** `x` is in another list than the one headed by `h`. */
  ghost predicate InOther(st: Subtable, h: RuleId, x: ClsMatch)
  {
    exists g :: g in st.chains && g != h && x in st.chains[g]
  }

  /** The rules of `st'` are those of `chain` and of the other lists of `st`. */
  ghost predicate Rest(st: Subtable, h: RuleId, chain: seq<ClsMatch>, st': Subtable)
  {
    forall x :: x in All(st') <==> x in chain || InOther(st, h, x)
  }

  lemma SetChainMaps(c: Config, st: Subtable, h: RuleId, chain: seq<ClsMatch>, ihash: seq<nat>, hash: nat)
    requires StaticOk(c, st) && MapsOk(c, st) && h in st.chains && st.chains[h] != []
    requires chain != [] && chain[0].flow == st.Head(h).flow
    requires chain[0].rule != h ==> chain[0].rule !in st.chains
    requires HashesAre(c, st, chain[0].flow, ihash, hash)
    ensures MapsOk(c, SetChain(st, h, chain, ihash, hash))
  {
    var st' := SetChain(st, h, chain, ihash, hash);
    var id := chain[0].rule;
    forall i, n | 0 <= i < |st.stages|
      ensures IsNode(c, st', i, n) <==>
              (IsNode(c, st, i, n) && n.1 != h) || n == (StageHash(c, st.mask, st.stages, i, chain[0].flow), id)
    {
    }
  }

  lemma SetChainFlows(st: Subtable, st': Subtable, h: RuleId, chain: seq<ClsMatch>)
    requires h in st.chains && st.chains[h] != [] && chain != [] && chain[0].flow == st.Head(h).flow
    requires chain[0].rule != h ==> chain[0].rule !in st.chains
    requires st'.chains == (st.chains - {h})[chain[0].rule := chain]
    ensures HeadFlows(st') == HeadFlows(st)
  {
    assert st'.Head(chain[0].rule).flow == st.Head(h).flow;
    forall id | id in st.chains && st.chains[id] != [] && id != h ensures st.Head(id).flow in HeadFlows(st') {
      assert st'.chains[id] == st.chains[id];
    }
    forall id | id in st'.chains && st'.chains[id] != [] ensures st'.Head(id).flow in HeadFlows(st) {
      assert id != chain[0].rule ==> st'.chains[id] == st.chains[id];
    }
  }

  /** Lists have the same rules outside the one that was edited. */
  lemma RestOfAll(st: Subtable, h: RuleId)
    requires h in st.chains
    ensures forall x :: x in All(st) <==> x in st.chains[h] || InOther(st, h, x)
  {
    forall x | InOther(st, h, x) ensures x in All(st) {
      var g :| g in st.chains && g != h && x in st.chains[g];
    }
  }

  /** A rule of one list is in no other. */
  lemma OnlyHere(st: Subtable, h: RuleId, x: ClsMatch)
    requires IdsOk(st) && h in st.chains && x in st.chains[h]
    ensures !InOther(st, h, x)
  {
  }

  /** `chain` has the rules of `was` without `gone`, and those of `added`. */
  ghost predicate Edited(was: seq<ClsMatch>, chain: seq<ClsMatch>, gone: set<ClsMatch>, added: set<ClsMatch>)
  {
    forall x :: x in chain <==> (x in was && x !in gone) || x in added
  }

  /** No added rule is in another list than the one headed by `h`. */
  ghost predicate NotElsewhere(st: Subtable, h: RuleId, added: set<ClsMatch>)
  {
    forall x, y, g :: x in added && g in st.chains && g != h && y in st.chains[g] ==> y.rule != x.rule
  }

  lemma NewIsNotElsewhere(st: Subtable, h: RuleId, x: ClsMatch)
    requires forall y :: y in All(st) ==> y.rule != x.rule
    ensures NotElsewhere(st, h, {x})
  {
    forall y, g | g in st.chains && g != h && y in st.chains[g] ensures y.rule != x.rule { assert y in All(st); }
  }

  lemma StillFresh(st: Subtable, h: RuleId, chain: seq<ClsMatch>, gone: set<ClsMatch>, added: set<ClsMatch>)
    requires IdsOk(st) && h in st.chains && Edited(st.chains[h], chain, gone, added) && NotElsewhere(st, h, added)
    ensures FreshIn(st, h, chain)
  {
    forall x, y, g | x in chain && g in st.chains && g != h && y in st.chains[g] ensures y.rule != x.rule {
    }
  }

  lemma EditedAll(st: Subtable, st': Subtable, h: RuleId, chain: seq<ClsMatch>, gone: set<ClsMatch>, added: set<ClsMatch>)
    requires IdsOk(st) && h in st.chains && Rest(st, h, chain, st')
    requires Edited(st.chains[h], chain, gone, added) && forall x :: x in gone ==> x in st.chains[h]
    ensures All(st') == All(st) - gone + added
  {
    RestOfAll(st, h);
    forall x | x in gone ensures !InOther(st, h, x) { OnlyHere(st, h, x); }
  }

  /** An edit of one list as an edit of the subtable's set of rules. */
  lemma EditList(c: Config, st: Subtable, h: RuleId, chain: seq<ClsMatch>, gone: set<ClsMatch>, added: set<ClsMatch>,
                 ihash: seq<nat>, hash: nat)
    requires TableOk(c, st) && h in st.chains && chain != []
    requires ChainOk(st.mask, chain[0].rule, chain) && chain[0].flow == st.Head(h).flow
    requires HashesAre(c, st, chain[0].flow, ihash, hash)
    requires Edited(st.chains[h], chain, gone, added) && NotElsewhere(st, h, added)
    requires forall x :: x in gone ==> x in st.chains[h]
    ensures var st' := SetChain(st, h, chain, ihash, hash);
            TableOk(c, st') && HeadFlows(st') == HeadFlows(st) && All(st') == All(st) - gone + added
  {
    StillFresh(st, h, chain, gone, added);
    SetChainOk(c, st, h, chain, ihash, hash);
    EditedAll(st, SetChain(st, h, chain, ihash, hash), h, chain, gone, added);
  }

  ghost predicate Insertable(was: seq<ClsMatch>, p: nat, m: ClsMatch)
  {
    && p <= |was| && was != [] && m.flow == was[0].flow && m.priority > INT_MIN
    && (forall i :: 0 <= i < p ==> was[i].priority >= m.priority)
    && (p < |was| ==> was[p].priority <= m.priority)
    && (forall i :: 0 <= i < |was| ==> was[i].rule != m.rule)
  }

  lemma InsertedChain(mask: BitSet, h: RuleId, was: seq<ClsMatch>, p: nat, m: ClsMatch)
    requires ChainOk(mask, h, was) && Insertable(was, p, m)
    ensures var chain := was[..p] + [m] + was[p..]; ChainOk(mask, chain[0].rule, chain) && chain[0].flow == was[0].flow
  {
    var chain := was[..p] + [m] + was[p..];
    forall i | 0 <= i < |chain| ensures chain[i] == InsertedAt(was, p, m, i) {}
    forall i, j | 0 <= i < j < |chain| ensures chain[i].priority >= chain[j].priority && chain[i].rule != chain[j].rule {
      assert p < j ==> was[j - 1].priority <= m.priority;
    }
  }

  function InsertedAt(was: seq<ClsMatch>, p: nat, m: ClsMatch, i: nat): ClsMatch
    requires p <= |was| && i <= |was|
  {
    if i < p then was[i] else if i == p then m else was[i - 1]
  }

  lemma InsertedElements(was: seq<ClsMatch>, p: nat, m: ClsMatch)
    requires p <= |was|
    ensures Edited(was, was[..p] + [m] + was[p..], {}, {m})
  {
    assert was == was[..p] + was[p..];
  }

  lemma ReplacedElements(was: seq<ClsMatch>, p: nat, m: ClsMatch)
    requires p < |was| && forall i :: 0 <= i < |was| && i != p ==> was[i] != was[p]
    ensures Edited(was, was[p := m], {was[p]}, {m})
  {
    var chain := was[p := m];
    assert chain[p] == m;
    forall x | x in was && x != was[p] ensures x in chain {
      var i :| 0 <= i < |was| && was[i] == x;
      assert chain[i] == x;
    }
  }

  lemma ReplacedChain(mask: BitSet, h: RuleId, was: seq<ClsMatch>, p: nat, m: ClsMatch)
    requires ChainOk(mask, h, was) && p < |was| && m.flow == was[0].flow && m.priority == was[p].priority
    requires forall i :: 0 <= i < |was| && i != p ==> was[i].rule != m.rule
    ensures var chain := was[p := m]; ChainOk(mask, chain[0].rule, chain)
  {
  }

  lemma RemovedElements(was: seq<ClsMatch>, p: nat)
    requires p < |was| && forall i :: 0 <= i < |was| && i != p ==> was[i] != was[p]
    ensures Edited(was, was[..p] + was[p + 1..], {was[p]}, {})
  {
    var chain := was[..p] + was[p + 1..];
    assert was == was[..p] + [was[p]] + was[p + 1..];
    forall x | x in chain ensures x != was[p] {
      var i :| 0 <= i < |chain| && chain[i] == x;
      assert chain[i] == was[if i < p then i else i + 1];
    }
  }

  lemma RemovedChain(mask: BitSet, h: RuleId, was: seq<ClsMatch>, p: nat)
    requires ChainOk(mask, h, was) && p < |was| && |was| > 1
    ensures var chain := was[..p] + was[p + 1..]; ChainOk(mask, chain[0].rule, chain) && chain[0].flow == was[0].flow
  {
    var chain := was[..p] + was[p + 1..];
    assert forall i :: 0 <= i < |chain| ==> chain[i] == was[if i < p then i else i + 1];
  }

  lemma DistinctInChain(mask: BitSet, h: RuleId, was: seq<ClsMatch>, p: nat)
    requires ChainOk(mask, h, was) && p < |was|
    ensures forall i :: 0 <= i < |was| && i != p ==> was[i] != was[p]
  {
    assert forall i :: 0 <= i < p ==> was[i].rule != was[p].rule;
    assert forall i :: p < i < |was| ==> was[p].rule != was[i].rule;
  }

  // ---- A head that goes away ----

  function DropHead(c: Config, st: Subtable, h: RuleId, f: BitSet, ihash: seq<nat>, hash: nat): Subtable
    requires |ihash| == |st.indices| && st.portsMaskLen <= 32
  {
    st.(chains := st.chains - {h},
        portsTrie := if st.portsMaskLen > 0 then T.Remove(st.portsTrie, PortsPrefix(c, st.mask, st.portsMaskLen, f)) else st.portsTrie,
        indices := seq(|st.indices|, i requires 0 <= i < |st.indices| => st.indices[i] - {(ihash[i], h)}),
        rules := st.rules - {(hash, h)})
  }

  lemma DropHeadOk(c: Config, st: Subtable, h: RuleId, f: BitSet, ihash: seq<nat>, hash: nat)
    requires TableOk(c, st) && h in st.chains && f == st.Head(h).flow && |st.chains[h]| == 1
    requires HashesAre(c, st, f, ihash, hash)
    ensures TableOk(c, DropHead(c, st, h, f, ihash, hash))
    ensures HeadFlows(DropHead(c, st, h, f, ihash, hash)) == HeadFlows(st) - {f}
    ensures All(DropHead(c, st, h, f, ihash, hash)) == All(st) - {st.Head(h)}
  {
    var st' := DropHead(c, st, h, f, ihash, hash);
    StaticSame(c, st, st');
    DropHeadChains(st, st', h);
    DropHeadAll(st, st', h);
    DropHeadFlows(st, st', h);
    DropHeadMaps(c, st, h, f, ihash, hash);
    DropHeadPorts(c, st, h, f, ihash, hash);
  }

  lemma DropHeadChains(st: Subtable, st': Subtable, h: RuleId)
    requires ChainsOk(st) && st'.mask == st.mask && st'.chains == st.chains - {h}
    ensures ChainsOk(st')
  {
  }

  lemma DropHeadAll(st: Subtable, st': Subtable, h: RuleId)
    requires IdsOk(st) && h in st.chains && |st.chains[h]| == 1 && st'.chains == st.chains - {h}
    ensures IdsOk(st') && All(st') == All(st) - {st.Head(h)}
  {
    hide All;
    assert st.Head(h) in st.chains[h];
    forall x | x in All(st) && x != st.Head(h) ensures x in All(st') {
      var g := ListOf(st, x);
      InAll(st', g, x);
    }
    forall x | x in All(st') ensures x in All(st) && x != st.Head(h) {
      var g := ListOf(st', x);
      InAll(st, g, x);
    }
  }

  lemma InAll(st: Subtable, h: RuleId, x: ClsMatch)
    requires h in st.chains && x in st.chains[h]
    ensures x in All(st)
  {
  }

  lemma ListOf(st: Subtable, x: ClsMatch) returns (h: RuleId)
    requires x in All(st)
    ensures h in st.chains && x in st.chains[h]
  {
    h :| h in st.chains && x in st.chains[h];
  }

  lemma DropHeadMaps(c: Config, st: Subtable, h: RuleId, f: BitSet, ihash: seq<nat>, hash: nat)
    requires StaticOk(c, st) && MapsOk(c, st) && h in st.chains && st.chains[h] != [] && f == st.Head(h).flow
    requires HashesAre(c, st, f, ihash, hash)
    ensures MapsOk(c, DropHead(c, st, h, f, ihash, hash))
  {
    var st' := DropHead(c, st, h, f, ihash, hash);
    forall i, n | 0 <= i < |st.stages| ensures IsNode(c, st', i, n) <==> IsNode(c, st, i, n) && n.1 != h {
    }
  }

  lemma FlowOfHead(st: Subtable, id: RuleId)
    requires id in st.chains && st.chains[id] != []
    ensures st.Head(id).flow in HeadFlows(st)
  {
  }

  lemma HeadOfFlow(st: Subtable, f: BitSet) returns (id: RuleId)
    requires f in HeadFlows(st)
    ensures id in st.chains && st.chains[id] != [] && st.Head(id).flow == f
  {
    id :| id in st.chains && st.chains[id] != [] && st.Head(id).flow == f;
  }

  lemma DropHeadFlows(st: Subtable, st': Subtable, h: RuleId)
    requires ChainsOk(st) && h in st.chains && st'.chains == st.chains - {h}
    ensures st.Head(h).flow in HeadFlows(st) && HeadFlows(st') == HeadFlows(st) - {st.Head(h).flow}
  {
    hide HeadFlows, ChainOk;
    NonEmptyChains(st);
    FlowOfHead(st, h);
    forall f | f in HeadFlows(st) && f != st.Head(h).flow ensures f in HeadFlows(st') {
      var id := HeadOfFlow(st, f);
      FlowOfHead(st', id);
    }
    forall f | f in HeadFlows(st') ensures f in HeadFlows(st) && f != st.Head(h).flow {
      var id := HeadOfFlow(st', f);
      FlowOfHead(st, id);
    }
  }

  lemma DropHeadPorts(c: Config, st: Subtable, h: RuleId, f: BitSet, ihash: seq<nat>, hash: nat)
    requires PortsOk(c, st) && f in HeadFlows(st) && |ihash| == |st.indices|
    requires HeadFlows(DropHead(c, st, h, f, ihash, hash)) == HeadFlows(st) - {f}
    ensures PortsOk(c, DropHead(c, st, h, f, ihash, hash))
  {
    var st' := DropHead(c, st, h, f, ihash, hash);
    if st.portsMaskLen > 0 {
      var p := PortsPrefix(c, st.mask, st.portsMaskLen, f);
      T.RemoveShaped(st.portsTrie, p, true);
      assert HeadFlows(st') + {f} == HeadFlows(st);
      MoreAtPorts(c, st.mask, st.portsMaskLen, HeadFlows(st'), f, p);
      forall q: BitString
        ensures T.Count(st'.portsTrie, q) == |FlowsAtPorts(c, st.mask, st.portsMaskLen, HeadFlows(st'), q)|
      {
        T.RemoveCount(st.portsTrie, p, true, q);
        MoreAtPorts(c, st.mask, st.portsMaskLen, HeadFlows(st'), f, q);
      }
    }
  }

  /** What destroy_subtable asserts: with no rules left, nothing is left in the
      ports trie, the index maps and the rules map. */
  lemma EmptySubtable(c: Config, st: Subtable)
    requires SubtableOk(c, st) && st.chains == map[]
    ensures st.portsTrie.Null? && st.rules == {} && forall i :: 0 <= i < |st.indices| ==> st.indices[i] == {}
  {
    if st.portsMaskLen > 0 {
      assert T.Represents(st.portsTrie, multiset{});
      T.NullIffEmpty(st.portsTrie, multiset{});
    }
  }
}
