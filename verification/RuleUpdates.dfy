/** classifier_replace, classifier_remove and the version changes, on the state
    of ClassifierState. */
module RuleUpdates {
  import opened Basics
  import opened Bits
  import opened Flows
  import opened Subtables
  import opened SubtableEdits
  import opened StagedLookup
  import opened ClassifierState

  // ---- Steps of an update ----

  method ComputeHashes(c: Config, st: Subtable, f: BitSet) returns (ihash: seq<nat>, hash: nat)
    requires StaticOk(c, st)
    ensures HashesAre(c, st, f, ihash, hash)
  {
    ihash := [];
    var basis, offset := 0, 0;
    ghost var stagesMap: BitSet := {};
    while |ihash| < |st.indices|
      invariant |ihash| <= |st.indices|
      invariant AtStage(c, st, f, |ihash|, stagesMap, basis, offset)
      invariant forall i :: 0 <= i < |ihash| ==> ihash[i] == StageHash(c, st.mask, st.stages, i, f)
    {
      var i := |ihash|;
      StageContinuation(c, st, f, i, stagesMap, basis, offset);
      stagesMap := stagesMap + InWords(st.mask, st.stages[i]);
      hash, offset, basis := HashRange(c.hasher, f, st.mask, st.stages[i], offset, basis);
      ihash := ihash + [hash];
    }
    var i := |ihash|;
    StageContinuation(c, st, f, i, stagesMap, basis, offset);
    hash, offset, basis := HashRange(c.hasher, f, st.mask, st.stages[i], offset, basis);
  }

  /** find_equal: the head with exactly this match value. */
  method FindEqual(c: Config, st: Subtable, f: BitSet, hash: nat) returns (head: Option<RuleId>)
    requires SubtableOk(c, st) && hash == StageHash(c, st.mask, st.stages, |st.stages| - 1, f)
    ensures head.Some? ==> head.value in st.chains && st.Head(head.value).flow == f
    ensures head.None? ==> f !in HeadFlows(st)
  {
    var nodes := set n | n in st.rules && n.0 == hash;
    ghost var seen: set<RuleId> := {};
    while nodes != {}
      invariant forall n :: n in nodes ==> n in st.rules && n.0 == hash
      invariant forall n :: n in st.rules && n.0 == hash ==> n in nodes || n.1 in seen
      invariant forall id :: id in seen ==> id in st.chains && st.Head(id).flow != f
      decreases nodes
    {
      var n :| n in nodes;
      assert IsNode(c, st, |st.stages| - 1, n);
      if st.Head(n.1).flow == f { return Some(n.1); }
      nodes, seen := nodes - {n}, seen + {n.1};
    }
    forall id | id in st.chains && st.chains[id] != [] ensures st.Head(id).flow != f {
      assert IsNode(c, st, |st.stages| - 1, (StageHash(c, st.mask, st.stages, |st.stages| - 1, st.Head(id).flow), id));
    }
    head := None;
  }

  method InsertInTries(c: Config, tries: seq<T.Trie>, plens: seq<nat>, f: BitSet) returns (tries': seq<T.Trie>)
    requires |tries| == |c.fields| == |plens| && forall j :: 0 <= j < |plens| ==> plens[j] <= c.fields[j].nBits
    ensures |tries'| == |tries|
    ensures forall j :: 0 <= j < |tries| ==>
              tries'[j] == if plens[j] > 0 then T.Insert(tries[j], FieldPrefix(c, j, plens[j], f)) else tries[j]
  {
    tries' := [];
    while |tries'| < |tries|
      invariant |tries'| <= |tries|
      invariant forall j :: 0 <= j < |tries'| ==>
                  tries'[j] == if plens[j] > 0 then T.Insert(tries[j], FieldPrefix(c, j, plens[j], f)) else tries[j]
    {
      var j := |tries'|;
      if plens[j] > 0 {
        tries' := tries' + [T.Insert(tries[j], FieldPrefix(c, j, plens[j], f))];
      } else {
        tries' := tries' + [tries[j]];
      }
    }
  }

  method RemoveFromTries(c: Config, tries: seq<T.Trie>, plens: seq<nat>, f: BitSet) returns (tries': seq<T.Trie>)
    requires |tries| == |c.fields| == |plens| && forall j :: 0 <= j < |plens| ==> plens[j] <= c.fields[j].nBits
    ensures |tries'| == |tries|
    ensures forall j :: 0 <= j < |tries| ==>
              tries'[j] == if plens[j] > 0 then T.Remove(tries[j], FieldPrefix(c, j, plens[j], f)) else tries[j]
  {
    tries' := [];
    while |tries'| < |tries|
      invariant |tries'| <= |tries|
      invariant forall j :: 0 <= j < |tries'| ==>
                  tries'[j] == if plens[j] > 0 then T.Remove(tries[j], FieldPrefix(c, j, plens[j], f)) else tries[j]
    {
      var j := |tries'|;
      if plens[j] > 0 {
        tries' := tries' + [T.Remove(tries[j], FieldPrefix(c, j, plens[j], f))];
      } else {
        tries' := tries' + [tries[j]];
      }
    }
  }

  lemma CountsAfterAdd(c: Config, tables: Tables, tries: seq<T.Trie>, tries': seq<T.Trie>, m: BitSet, st: Subtable, f: BitSet)
    requires CountsOk(c, tables, tries) && |st.triePlen| == |c.fields| == |tries'|
    requires forall j :: 0 <= j < |c.fields| ==> st.triePlen[j] <= c.fields[j].nBits
    requires m in tables ==> HeadFlows(st) == HeadFlows(tables[m]) + {f} && f !in HeadFlows(tables[m]) && st.triePlen == tables[m].triePlen
    requires m !in tables ==> HeadFlows(st) == {f}
    requires forall j :: 0 <= j < |tries| ==>
              tries'[j] == if st.triePlen[j] > 0 then T.Insert(tries[j], FieldPrefix(c, j, st.triePlen[j], f)) else tries[j]
    ensures CountsOk(c, tables[m := st], tries')
  {
    forall j | 0 <= j < |tries| ensures T.Shaped(tries'[j], true) {
      if st.triePlen[j] > 0 { T.InsertShaped(tries[j], FieldPrefix(c, j, st.triePlen[j], f), true); }
    }
    forall j, q: BitString | 0 <= j < |tries|
      ensures T.Count(tries'[j], q) == |HeadsInField(c, tables[m := st], j, q)|
    {
      MoreHeads(c, tables, m, st, f, j, q);
      if st.triePlen[j] > 0 { T.InsertCount(tries[j], FieldPrefix(c, j, st.triePlen[j], f), true, q); }
    }
  }

  lemma CountsAfterDrop(c: Config, tables: Tables, tables': Tables, tries: seq<T.Trie>, tries': seq<T.Trie>, m: BitSet, f: BitSet)
    requires CountsOk(c, tables, tries) && m in tables && f in HeadFlows(tables[m])
    requires |tables[m].triePlen| == |c.fields| == |tries'|
    requires forall j :: 0 <= j < |c.fields| ==> tables[m].triePlen[j] <= c.fields[j].nBits
    requires forall k :: k != m ==> (k in tables' <==> k in tables) && (k in tables' ==> tables'[k] == tables[k])
    requires if m in tables' then HeadFlows(tables'[m]) == HeadFlows(tables[m]) - {f} && tables'[m].triePlen == tables[m].triePlen
             else HeadFlows(tables[m]) == {f}
    requires forall j :: 0 <= j < |tries| ==>
              tries'[j] == if tables[m].triePlen[j] > 0 then T.Remove(tries[j], FieldPrefix(c, j, tables[m].triePlen[j], f)) else tries[j]
    ensures CountsOk(c, tables', tries')
  {
    forall j | 0 <= j < |tries| ensures T.Shaped(tries'[j], true) {
      if tables[m].triePlen[j] > 0 { T.RemoveShaped(tries[j], FieldPrefix(c, j, tables[m].triePlen[j], f), true); }
    }
    forall j, q: BitString | 0 <= j < |tries|
      ensures T.Count(tries'[j], q) == |HeadsInField(c, tables', j, q)|
    {
      FewerHeads(c, tables, tables', m, f, j, q);
      if tables[m].triePlen[j] > 0 {
        var p := FieldPrefix(c, j, tables[m].triePlen[j], f);
        T.RemoveCount(tries[j], p, true, q);
        HeadsMember(c, tables, j, p, (m, f));
      }
    }
  }

  lemma CountsSame(c: Config, tables: Tables, tries: seq<T.Trie>, m: BitSet, st: Subtable)
    requires CountsOk(c, tables, tries) && m in tables
    requires HeadFlows(st) == HeadFlows(tables[m]) && st.triePlen == tables[m].triePlen
    ensures CountsOk(c, tables[m := st], tries)
  {
    forall j, q: BitString | 0 <= j < |tries|
      ensures T.Count(tries[j], q) == |HeadsInField(c, tables[m := st], j, q)|
    {
      SameHeads(c, tables, m, st, j, q);
    }
  }

  /** The insertion point that keeps a list in order of decreasing priority:
      after every rule of higher priority, and after the rules of the same
      priority that some version does not see. */
  method FindSlot(chain: seq<ClsMatch>, priority: int) returns (p: nat)
    requires forall i, j :: 0 <= i < j < |chain| ==> chain[i].priority >= chain[j].priority
    ensures p <= |chain|
    ensures forall i :: 0 <= i < p ==> chain[i].priority >= priority
    ensures p < |chain| ==> chain[p].priority <= priority
    ensures (p < |chain| && chain[p].priority == priority) <==>
            exists i :: 0 <= i < |chain| && chain[i].priority == priority && !chain[i].EventuallyInvisible()
    ensures p < |chain| && chain[p].priority == priority ==> !chain[p].EventuallyInvisible()
  {
    p := 0;
    while p < |chain| && !(priority > chain[p].priority || (priority == chain[p].priority && !chain[p].EventuallyInvisible()))
      invariant p <= |chain|
      invariant forall i :: 0 <= i < p ==> chain[i].priority >= priority && (chain[i].priority == priority ==> chain[i].EventuallyInvisible())
    {
      p := p + 1;
    }
  }

  // ---- Highest priority and its count ----

  /** The bookkeeping after a rule was added rather than replaced. */
  function AfterAdd(st: Subtable, priority: int, firstRule: bool): Subtable
  {
    if firstRule || priority > st.maxPriority then WithMax(st, priority, 1)
    else if priority == st.maxPriority then WithMax(st, st.maxPriority, st.maxCount + 1)
    else WithMax(st, st.maxPriority, st.maxCount)
  }

  function WithMax(st: Subtable, priority: int, count: nat): Subtable
  {
    st.(maxPriority := priority, maxCount := count)
  }

  lemma MaxAfterAdd(st: Subtable, st': Subtable, x: ClsMatch, firstRule: bool)
    requires All(st') == All(st) + {x} && x !in All(st)
    requires st'.maxPriority == st.maxPriority && st'.maxCount == st.maxCount
    requires firstRule <==> All(st) == {}
    requires !firstRule ==> MaxOk(st)
    ensures MaxOk(AfterAdd(st', x.priority, firstRule))
  {
    var now := AfterAdd(st', x.priority, firstRule);
    assert All(now) == All(st');
    if !firstRule && x.priority <= st.maxPriority {
      MaxStays(st, now, x);
    } else {
      MaxIsNew(now, x);
    }
  }

  lemma MaxStays(st: Subtable, now: Subtable, x: ClsMatch)
    requires MaxOk(st) && All(now) == All(st) + {x} && x !in All(st) && x.priority <= st.maxPriority
    requires now.maxPriority == st.maxPriority
    requires now.maxCount == if x.priority == st.maxPriority then st.maxCount + 1 else st.maxCount
    ensures MaxOk(now)
  {
    var p := st.maxPriority;
    if x.priority == p {
      assert RulesAt(now, p) == RulesAt(st, p) + {x};
    } else {
      assert RulesAt(now, p) == RulesAt(st, p);
    }
    var y :| y in All(st) && y.priority == p;
    assert y in All(now);
  }

  lemma MaxIsNew(now: Subtable, x: ClsMatch)
    requires x in All(now) && now.maxPriority == x.priority && now.maxCount == 1
    requires forall y :: y in All(now) ==> y.priority <= x.priority
    ensures MaxOk(now)
  {
    SubsetSize({x}, RulesAt(now, x.priority));
  }

  lemma MaxAfterSwap(st: Subtable, st': Subtable, x: ClsMatch, y: ClsMatch)
    requires MaxOk(st) && x in All(st) && y !in All(st) && x.priority == y.priority
    requires All(st') == All(st) - {x} + {y}
    requires st'.maxPriority == st.maxPriority && st'.maxCount == st.maxCount
    ensures MaxOk(st')
  {
    var p := st.maxPriority;
    if x.priority == p {
      assert RulesAt(st', p) == RulesAt(st, p) - {x} + {y};
      assert y in All(st');
    } else {
      assert RulesAt(st', p) == RulesAt(st, p);
      var z :| z in All(st) && z.priority == p;
      assert z in All(st');
    }
  }

  lemma MaxAfterDrop(st: Subtable, st': Subtable, x: ClsMatch)
    requires MaxOk(st) && x in All(st) && All(st') == All(st) - {x} && st'.maxPriority == st.maxPriority
    requires st'.maxCount == if x.priority == st.maxPriority then st.maxCount - 1 else st.maxCount
    requires st'.maxCount > 0
    ensures MaxOk(st')
  {
    var p := st.maxPriority;
    if x.priority == p {
      assert RulesAt(st', p) == RulesAt(st, p) - {x};
    } else {
      assert RulesAt(st', p) == RulesAt(st, p);
    }
    assert RulesAt(st', p) != {};
    var z :| z in RulesAt(st', p);
  }

  /** The lists whose first rule has priority `p`. */
  ghost function HeadsAt(st: Subtable, p: int): set<RuleId>
    requires ChainsOk(st)
  {
    set h | h in st.chains && st.Head(h).priority == p
  }

  /** The loop of classifier_remove that finds the new highest priority, and
      how many heads have it. */
  method MaxOfHeads(st: Subtable) returns (maxPriority: int, maxCount: nat)
    requires ChainsOk(st)
    ensures maxCount == |HeadsAt(st, maxPriority)| && (st.chains == map[] ==> maxPriority == INT_MIN)
    ensures forall h :: h in st.chains ==> st.Head(h).priority <= maxPriority && maxCount > 0
  {
    hide ChainOk, All;
    NonEmptyChains(st);
    maxPriority, maxCount := INT_MIN, 0;
    ghost var top: set<RuleId> := {};
    var todo := st.chains.Keys;
    while todo != {}
      invariant todo <= st.chains.Keys && maxCount == |top| && (maxPriority > INT_MIN ==> top != {})
      invariant (todo == st.chains.Keys ==> maxPriority == INT_MIN)
      invariant forall h :: h in top <==> h in st.chains && h !in todo && st.Head(h).priority == maxPriority
      invariant forall h :: h in st.chains && h !in todo ==> st.Head(h).priority <= maxPriority && top != {}
      decreases todo
    {
      var h :| h in todo;
      HeadAboveMin(st, h);
      if st.Head(h).priority > maxPriority {
        maxPriority, maxCount := st.Head(h).priority, 1;
        top := {h};
      } else if st.Head(h).priority == maxPriority {
        maxCount := maxCount + 1;
        top := top + {h};
      }
      todo := todo - {h};
    }
    assert top == HeadsAt(st, maxPriority);
  }

  /** The first rules of some lists are as many rules. */
  lemma {:induction false} RulesOfHeads(st: Subtable, p: int, heads: set<RuleId>) returns (top: set<ClsMatch>)
    requires ChainsOk(st) && forall h :: h in heads ==> h in st.chains && st.Head(h).priority == p
    ensures |top| == |heads| && forall x :: x in top ==> x in All(st) && x.priority == p && x.rule in heads
    decreases heads
  {
    hide ChainOk, All;
    NonEmptyChains(st);
    if heads == {} {
      top := {};
    } else {
      var h :| h in heads;
      HeadAboveMin(st, h);
      var rest := RulesOfHeads(st, p, heads - {h});
      top := rest + {st.Head(h)};
    }
  }

  lemma HeadAboveMin(st: Subtable, h: RuleId)
    requires ChainsOk(st) && h in st.chains
    ensures st.Head(h) in All(st) && st.Head(h).rule == h && st.Head(h).priority > INT_MIN
  {
    HeadIsIn(st, h);
    assert ChainOk(st.mask, h, st.chains[h]);
  }

  method RecomputeMax(c: Config, st: Subtable) returns (st': Subtable)
    requires TableOk(c, st) && st.chains != map[]
    ensures TableOk(c, st') && MaxOk(st') && All(st') == All(st) && HeadFlows(st') == HeadFlows(st)
    ensures st'.mask == st.mask && st'.triePlen == st.triePlen
  {
    hide TableOk, MaxOk, All, HeadFlows, ChainsOk, HeadsAt;
    TableChains(c, st);
    var p, n := MaxOfHeads(st);
    st' := WithMax(st, p, n);
    SameTable(c, st, p, n);
    HeadsGiveMax(st, p, n);
  }

  lemma TableChains(c: Config, st: Subtable)
    requires TableOk(c, st)
    ensures ChainsOk(st) && forall h :: h in st.chains ==> st.chains[h] != []
  {
    NonEmptyChains(st);
  }

  lemma HeadsGiveMax(st: Subtable, p: int, n: nat)
    requires ChainsOk(st) && st.chains != map[] && n == |HeadsAt(st, p)|
    requires forall h :: h in st.chains && st.chains[h] != [] ==> st.Head(h).priority <= p && n > 0
    ensures MaxOk(WithMax(st, p, n))
  {
    hide MaxOk, ChainOk, All;
    NonEmptyChains(st);
    var top := RulesOfHeads(st, p, HeadsAt(st, p));
    var h :| h in st.chains;
    TopIsMax(st, p, top);
  }

  lemma SameTable(c: Config, st: Subtable, priority: int, count: nat)
    requires TableOk(c, st)
    ensures var st' := WithMax(st, priority, count);
            TableOk(c, st') && All(st') == All(st) && HeadFlows(st') == HeadFlows(st)
  {
    var st' := WithMax(st, priority, count);
    StaticSame(c, st, st');
    assert forall i, n :: 0 <= i < |st.stages| ==> IsNode(c, st', i, n) == IsNode(c, st, i, n);
    assert HeadFlows(st') == HeadFlows(st);
  }

  lemma TopIsMax(st: Subtable, p: int, top: set<ClsMatch>)
    requires ChainsOk(st) && st.chains != map[]
    requires forall x :: x in top ==> x in All(st) && x.priority == p
    requires forall h :: h in st.chains ==> st.Head(h).priority <= p && top != {}
    ensures MaxOk(WithMax(st, p, |top|))
  {
    var st' := WithMax(st, p, |top|);
    assert All(st') == All(st);
    var h :| h in st.chains;
    var x :| x in top;
    SubsetSize({x}, top);
    SubsetSize(top, RulesAt(st', p));
    forall y | y in All(st) ensures y.priority <= p {
      var g :| g in st.chains && y in st.chains[g];
      assert ChainOk(st.mask, g, st.chains[g]);
      var i :| 0 <= i < |st.chains[g]| && st.chains[g][i] == y;
      assert i > 0 ==> st.chains[g][0].priority >= st.chains[g][i].priority;
    }
  }

  // ---- One subtable's part of an update ----

  /** `x` has been added to `st`, replacing `old` if there is one. */
  ghost predicate Put(c: Config, st: Subtable, x: ClsMatch, st': Subtable, old': Option<ClsMatch>, newHead: bool)
  {
    && TableOk(c, st') && MaxOk(st') && st'.mask == st.mask && st'.triePlen == st.triePlen
    && HeadFlows(st') == (if newHead then HeadFlows(st) + {x.flow} else HeadFlows(st))
    && (newHead ==> x.flow !in HeadFlows(st) && old'.None?)
    && (old'.None? ==> All(st') == All(st) + {x})
    && (old'.Some? ==> old'.value in All(st) && All(st') == All(st) - {old'.value} + {x})
  }

  /** `y` is an identical rule that no version stops seeing. */
  predicate Replaceable(y: ClsMatch, x: ClsMatch)
  {
    y.flow == x.flow && y.priority == x.priority && !y.EventuallyInvisible()
  }

  ghost predicate Addable(st: Subtable, x: ClsMatch)
  {
    && x.flow <= st.mask && x.priority > INT_MIN
    && (forall y :: y in All(st) ==> y.rule != x.rule)
    && (All(st) != {} ==> MaxOk(st))
  }

  method PutRule(c: Config, st: Subtable, x: ClsMatch)
    returns (st': Subtable, old': Option<ClsMatch>, newHead: bool)
    requires TableOk(c, st) && Addable(st, x)
    ensures Put(c, st, x, st', old', newHead)
    ensures old'.Some? ==> Replaceable(old'.value, x)
    ensures old'.None? ==> forall y :: y in All(st) ==> !Replaceable(y, x)
  {
    hide Put, MaxOk, All, HeadFlows, Addable, ChainsOk, MapsOk, PortsOk, IdsOk, ChainOk;
    var ihash, hash := ComputeHashes(c, st, x.flow);
    var head := FindEqual(c, st, x.flow, hash);
    if head.None? {
      st' := AddNewHead(c, st, x, ihash, hash);
      forall y | y in All(st) ensures !Replaceable(y, x) { FlowIsHeads(st, y); }
      return st', None, true;
    }
    ListIsChain(c, st, head.value);
    ChainDescends(st.mask, head.value, st.chains[head.value]);
    var p := FindSlot(st.chains[head.value], x.priority);
    OnlyThisList(st, head.value, x);
    if p < |st.chains[head.value]| && st.chains[head.value][p].priority == x.priority {
      st' := ReplaceInList(c, st, head.value, p, x, ihash, hash);
      return st', Some(st.chains[head.value][p]), false;
    }
    st' := InsertInList(c, st, head.value, p, x, ihash, hash);
    return st', None, false;
  }

  /** A rule's match value is that of its list's head. */
  lemma FlowIsHeads(st: Subtable, y: ClsMatch)
    requires ChainsOk(st) && y in All(st)
    ensures y.flow in HeadFlows(st)
  {
    var h :| h in st.chains && y in st.chains[h];
    assert ChainOk(st.mask, h, st.chains[h]);
  }

  /** Rules with the match value of a head are in that head's list. */
  lemma OnlyThisList(st: Subtable, h: RuleId, x: ClsMatch)
    requires ChainsOk(st) && h in st.chains && st.Head(h).flow == x.flow
    ensures ChainOk(st.mask, h, st.chains[h])
    ensures forall y :: y in All(st) && y.flow == x.flow ==> y in st.chains[h]
    ensures forall y :: y in st.chains[h] ==> y in All(st) && y.flow == x.flow
  {
    assert ChainOk(st.mask, h, st.chains[h]);
    forall y | y in All(st) && y.flow == x.flow ensures y in st.chains[h] {
      var g :| g in st.chains && y in st.chains[g];
      assert ChainOk(st.mask, g, st.chains[g]);
    }
  }

  method AddNewHead(c: Config, st: Subtable, x: ClsMatch, ihash: seq<nat>, hash: nat) returns (st': Subtable)
    requires TableOk(c, st) && Addable(st, x) && x.flow !in HeadFlows(st) && HashesAre(c, st, x.flow, ihash, hash)
    ensures Put(c, st, x, st', None, true)
  {
    hide TableOk, MaxOk, HashesAre;
    TableLengths(c, st, x.flow, ihash, hash);
    var mid := AddHead(c, st, x, ihash, hash);
    AddHeadOk(c, st, x, ihash, hash);
    var first := |mid.rules| == 1;
    OneNodeMeansFirst(c, st, x, ihash, hash);
    st' := AfterAdd(mid, x.priority, first);
    AddedPut(c, st, mid, x, first);
  }

  lemma TableLengths(c: Config, st: Subtable, f: BitSet, ihash: seq<nat>, hash: nat)
    requires TableOk(c, st) && HashesAre(c, st, f, ihash, hash)
    ensures |ihash| == |st.indices| && st.portsMaskLen <= 32
  {
  }

  lemma AddedPut(c: Config, st: Subtable, mid: Subtable, x: ClsMatch, first: bool)
    requires TableOk(c, mid) && All(mid) == All(st) + {x} && x !in All(st)
    requires mid.maxPriority == st.maxPriority && mid.maxCount == st.maxCount
    requires (first <==> All(st) == {}) && (!first ==> MaxOk(st))
    ensures var st' := AfterAdd(mid, x.priority, first);
            TableOk(c, st') && MaxOk(st') && All(st') == All(mid) && HeadFlows(st') == HeadFlows(mid)
  {
    hide TableOk;
    hide MaxOk;
    MaxAfterAdd(st, mid, x, first);
    SameTable(c, mid, AfterAdd(mid, x.priority, first).maxPriority, AfterAdd(mid, x.priority, first).maxCount);
  }

  /** The rules map has one node exactly when the added head is alone. */
  lemma OneNodeMeansFirst(c: Config, st: Subtable, x: ClsMatch, ihash: seq<nat>, hash: nat)
    requires TableOk(c, st) && HashesAre(c, st, x.flow, ihash, hash) && TableOk(c, AddHead(c, st, x, ihash, hash))
    requires forall y :: y in All(st) ==> y.rule != x.rule
    ensures |AddHead(c, st, x, ihash, hash).rules| == 1 <==> All(st) == {}
  {
    NodesCount(c, st, AddHead(c, st, x, ihash, hash), x, hash);
  }

  lemma NodesCount(c: Config, st: Subtable, mid: Subtable, x: ClsMatch, hash: nat)
    requires ChainsOk(st) && MapsOk(c, mid) && mid.chains == st.chains[x.rule := [x]]
    requires mid.stages == st.stages && mid.mask == st.mask && |st.stages| >= 1
    requires hash == StageHash(c, st.mask, st.stages, |st.stages| - 1, x.flow)
    requires forall y :: y in All(st) ==> y.rule != x.rule
    ensures |mid.rules| == 1 <==> All(st) == {}
  {
    var last := |mid.stages| - 1;
    assert IsNode(c, mid, last, (hash, x.rule));
    if h :| h in st.chains {
      HeadIsIn(st, h);
      TwoNodes(c, mid, last, (hash, x.rule), (StageHash(c, st.mask, st.stages, last, st.Head(h).flow), h));
    } else {
      forall k | k in mid.rules ensures k == (hash, x.rule) { assert IsNode(c, mid, last, k); }
      assert mid.rules == {(hash, x.rule)};
    }
  }

  lemma TwoNodes(c: Config, mid: Subtable, last: nat, n: (nat, RuleId), n': (nat, RuleId))
    requires MapsOk(c, mid) && last == |mid.stages| - 1 && n != n'
    requires IsNode(c, mid, last, n) && IsNode(c, mid, last, n')
    ensures |mid.rules| > 1
  {
    SubsetSize({n, n'}, mid.rules);
  }

  lemma NewInChain(st: Subtable, h: RuleId, x: ClsMatch)
    requires h in st.chains && forall y :: y in All(st) ==> y.rule != x.rule
    ensures forall i :: 0 <= i < |st.chains[h]| ==> st.chains[h][i].rule != x.rule
  {
    forall i | 0 <= i < |st.chains[h]| ensures st.chains[h][i].rule != x.rule {
      assert st.chains[h][i] in st.chains[h];
      assert st.chains[h][i] in All(st);
    }
  }

  lemma ListNotEmpty(c: Config, st: Subtable, h: RuleId)
    requires TableOk(c, st) && h in st.chains
    ensures st.chains[h] != [] && All(st) != {}
  {
    HeadIsIn(st, h);
  }

  lemma ChainDescends(mask: BitSet, id: RuleId, chain: seq<ClsMatch>)
    requires ChainOk(mask, id, chain)
    ensures forall i, j :: 0 <= i < j < |chain| ==> chain[i].priority >= chain[j].priority
  {
  }

  lemma ListIsChain(c: Config, st: Subtable, h: RuleId)
    requires TableOk(c, st) && h in st.chains
    ensures ChainOk(st.mask, h, st.chains[h])
  {
  }

  lemma InsertInListOk(c: Config, st: Subtable, h: RuleId, p: nat, x: ClsMatch, ihash: seq<nat>, hash: nat)
    requires TableOk(c, st) && HashesAre(c, st, x.flow, ihash, hash) && h in st.chains
    requires Insertable(st.chains[h], p, x) && forall y :: y in All(st) ==> y.rule != x.rule
    ensures var mid := SetChain(st, h, st.chains[h][..p] + [x] + st.chains[h][p..], ihash, hash);
            TableOk(c, mid) && HeadFlows(mid) == HeadFlows(st) && All(mid) == All(st) + {x}
  {
    hide TableOk, HashesAre, ChainOk, Edited, NotElsewhere, All, HeadFlows;
    var was := st.chains[h];
    ListIsChain(c, st, h);
    InsertedChain(st.mask, h, was, p, x);
    InsertedElements(was, p, x);
    NewIsNotElsewhere(st, h, x);
    EditList(c, st, h, was[..p] + [x] + was[p..], {}, {x}, ihash, hash);
  }

  method InsertInList(c: Config, st: Subtable, h: RuleId, p: nat, x: ClsMatch, ihash: seq<nat>, hash: nat) returns (st': Subtable)
    requires TableOk(c, st) && Addable(st, x) && HashesAre(c, st, x.flow, ihash, hash)
    requires h in st.chains && st.Head(h).flow == x.flow && p <= |st.chains[h]|
    requires forall i :: 0 <= i < p ==> st.chains[h][i].priority >= x.priority
    requires p < |st.chains[h]| ==> st.chains[h][p].priority <= x.priority
    ensures Put(c, st, x, st', None, false)
  {
    hide TableOk, MaxOk, HashesAre;
    var chain := st.chains[h][..p] + [x] + st.chains[h][p..];
    NewInChain(st, h, x);
    TableLengths(c, st, x.flow, ihash, hash);
    ListNotEmpty(c, st, h);
    InsertInListOk(c, st, h, p, x, ihash, hash);
    var mid := SetChain(st, h, chain, ihash, hash);
    AddedPut(c, st, mid, x, false);
    st' := AfterAdd(mid, x.priority, false);
  }

  lemma ReplaceInListOk(c: Config, st: Subtable, h: RuleId, p: nat, x: ClsMatch, ihash: seq<nat>, hash: nat)
    requires TableOk(c, st) && HashesAre(c, st, x.flow, ihash, hash) && h in st.chains && p < |st.chains[h]|
    requires x.flow == st.Head(h).flow && x.priority == st.chains[h][p].priority
    requires forall i :: 0 <= i < |st.chains[h]| && i != p ==> st.chains[h][i].rule != x.rule
    requires NotElsewhere(st, h, {x})
    ensures var st' := SetChain(st, h, st.chains[h][p := x], ihash, hash);
            && TableOk(c, st') && HeadFlows(st') == HeadFlows(st)
            && st.chains[h][p] in All(st) && All(st') == All(st) - {st.chains[h][p]} + {x}
  {
    var was := st.chains[h];
    assert ChainOk(st.mask, h, was) && was[p] in was;
    ReplacedChain(st.mask, h, was, p, x);
    DistinctInChain(st.mask, h, was, p);
    ReplacedElements(was, p, x);
    EditList(c, st, h, was[p := x], {was[p]}, {x}, ihash, hash);
  }

  method ReplaceInList(c: Config, st: Subtable, h: RuleId, p: nat, x: ClsMatch, ihash: seq<nat>, hash: nat) returns (st': Subtable)
    requires TableOk(c, st) && Addable(st, x) && HashesAre(c, st, x.flow, ihash, hash)
    requires h in st.chains && st.Head(h).flow == x.flow && p < |st.chains[h]| && st.chains[h][p].priority == x.priority
    ensures Put(c, st, x, st', Some(st.chains[h][p]), false)
  {
    hide TableOk, MaxOk, HashesAre;
    NewInChain(st, h, x);
    NewIsNotElsewhere(st, h, x);
    TableLengths(c, st, x.flow, ihash, hash);
    ReplaceInListOk(c, st, h, p, x, ihash, hash);
    st' := SetChain(st, h, st.chains[h][p := x], ihash, hash);
    MaxAfterSwap(st, st', st.chains[h][p], x);
  }

  /** `x` has been taken out of `st`; with its last rule the subtable goes. */
  ghost predicate Taken(c: Config, st: Subtable, x: ClsMatch, st': Subtable, headGone: bool)
  {
    && TableOk(c, st') && st'.mask == st.mask && st'.triePlen == st.triePlen
    && All(st') == All(st) - {x} && (All(st') != {} ==> MaxOk(st'))
    && x.flow in HeadFlows(st)
    && HeadFlows(st') == (if headGone then HeadFlows(st) - {x.flow} else HeadFlows(st))
    && (All(st') == {} <==> st'.chains == map[]) && (All(st') == {} ==> headGone)
  }

  /** The list that holds a rule, and the rule's place in it. */
  method FindInList(c: Config, st: Subtable, id: RuleId, f: BitSet, ghost x: ClsMatch)
    returns (h: RuleId, p: nat, ihash: seq<nat>, hash: nat)
    requires TableOk(c, st) && x in All(st) && x.rule == id && x.flow == f
    ensures h in st.chains && p < |st.chains[h]| && st.chains[h][p] == x && st.Head(h).flow == f
    ensures StaticOk(c, st) && HashesAre(c, st, f, ihash, hash)
  {
    hide TableOk, HashesAre;
    StaticOfTable(c, st);
    ihash, hash := ComputeHashes(c, st, f);
    var head := FindEqual(c, st, f, hash);
    RuleInItsList(c, st, x);
    h, p := head.value, 0;
    ListOfHead(c, st, h, x);
    while st.chains[h][p].rule != id
      invariant p < |st.chains[h]| && x in st.chains[h][p..]
      decreases |st.chains[h]| - p
    {
      p := p + 1;
    }
    SameRule(c, st, h, p, x);
  }

  lemma SameRule(c: Config, st: Subtable, h: RuleId, p: nat, x: ClsMatch)
    requires TableOk(c, st) && h in st.chains && x in st.chains[h] && p < |st.chains[h]| && st.chains[h][p].rule == x.rule
    ensures st.chains[h][p] == x
  {
    assert ChainOk(st.mask, h, st.chains[h]);
  }

  /** The removal of a rule from its list, or of the whole list. */
  method TakeFromList(c: Config, st: Subtable, id: RuleId, f: BitSet, ghost x: ClsMatch) returns (mid: Subtable, headGone: bool)
    requires TableOk(c, st) && x in All(st) && x.rule == id && x.flow == f
    ensures TableOk(c, mid) && mid.mask == st.mask && mid.triePlen == st.triePlen
    ensures mid.maxPriority == st.maxPriority && mid.maxCount == st.maxCount
    ensures All(mid) == All(st) - {x} && f in HeadFlows(st)
    ensures HeadFlows(mid) == if headGone then HeadFlows(st) - {f} else HeadFlows(st)
    ensures !headGone ==> mid.chains != map[]
  {
    hide TableOk, HashesAre;
    var h, p, ihash, hash := FindInList(c, st, id, f, x);
    TableLengths(c, st, f, ihash, hash);
    RuleInItsList(c, st, x);
    if |st.chains[h]| > 1 {
      RemoveInListOk(c, st, h, p, ihash, hash);
      var chain := st.chains[h][..p] + st.chains[h][p + 1..];
      mid := SetChain(st, h, chain, ihash, hash);
      assert chain[0].rule in mid.chains;
      headGone := false;
    } else {
      DropHeadOk(c, st, h, f, ihash, hash);
      mid := DropHead(c, st, h, f, ihash, hash);
      headGone := true;
    }
  }

  lemma StaticOfTable(c: Config, st: Subtable)
    requires TableOk(c, st)
    ensures StaticOk(c, st) && SubtableOk(c, st)
  {
  }

  lemma RuleInItsList(c: Config, st: Subtable, x: ClsMatch)
    requires TableOk(c, st) && x in All(st)
    ensures x.flow in HeadFlows(st)
  {
    FlowIsHeads(st, x);
  }

  lemma ListOfHead(c: Config, st: Subtable, h: RuleId, x: ClsMatch)
    requires TableOk(c, st) && x in All(st) && h in st.chains && st.chains[h] != [] && st.Head(h).flow == x.flow
    ensures x in st.chains[h] && st.chains[h][0..] == st.chains[h]
    ensures |st.chains[h]| == 1 ==> st.Head(h) == x
  {
    OnlyThisList(st, h, x);
  }

  lemma NothingElsewhere(st: Subtable, h: RuleId)
    ensures NotElsewhere(st, h, {})
  {
  }

  lemma RemoveInListOk(c: Config, st: Subtable, h: RuleId, p: nat, ihash: seq<nat>, hash: nat)
    requires TableOk(c, st) && h in st.chains && p < |st.chains[h]| && |st.chains[h]| > 1
    requires HashesAre(c, st, st.Head(h).flow, ihash, hash)
    ensures var mid := SetChain(st, h, st.chains[h][..p] + st.chains[h][p + 1..], ihash, hash);
            TableOk(c, mid) && HeadFlows(mid) == HeadFlows(st) && All(mid) == All(st) - {st.chains[h][p]}
  {
    hide TableOk, HashesAre, ChainOk, Edited, NotElsewhere, All, HeadFlows;
    var was := st.chains[h];
    ListIsChain(c, st, h);
    NothingElsewhere(st, h);
    RemovedChain(st.mask, h, was, p);
    DistinctInChain(st.mask, h, was, p);
    RemovedElements(was, p);
    EditList(c, st, h, was[..p] + was[p + 1..], {was[p]}, {}, ihash, hash);
  }

  method TakeRule(c: Config, st: Subtable, id: RuleId, f: BitSet, priority: int, ghost x: ClsMatch)
    returns (st': Subtable, headGone: bool)
    requires TableOk(c, st) && MaxOk(st) && x in All(st) && x.rule == id && x.flow == f && x.priority == priority
    ensures Taken(c, st, x, st', headGone)
  {
    hide TableOk, MaxOk;
    var mid;
    mid, headGone := TakeFromList(c, st, id, f, x);
    ChainsOrNone(c, mid);
    if mid.chains == map[] {
      return mid, headGone;
    }
    CountIsPositive(st);
    var count := if mid.maxPriority == priority then mid.maxCount - 1 else mid.maxCount;
    if mid.maxPriority == priority && count == 0 {
      st' := RecomputeMax(c, mid);
    } else {
      SameTable(c, mid, mid.maxPriority, count);
      st' := WithMax(mid, mid.maxPriority, count);
      MaxAfterDrop(st, st', x);
    }
    ChainsOrNone(c, st');
  }

  lemma CountIsPositive(st: Subtable)
    requires MaxOk(st)
    ensures st.maxCount > 0
  {
  }

  lemma ChainsOrNone(c: Config, st: Subtable)
    requires TableOk(c, st)
    ensures All(st) == {} <==> st.chains == map[]
  {
    if h :| h in st.chains { HeadIsIn(st, h); }
  }

  // ---- Version windows ----

  /** cls_match_set_remove_version: changes when a rule stops being visible. */
  method SetRemoveVersion(c: Config, st: Subtable, id: RuleId, f: BitSet, version: nat, ghost x: ClsMatch)
    returns (st': Subtable)
    requires TableOk(c, st) && MaxOk(st) && x in All(st) && x.rule == id && x.flow == f
    ensures TableOk(c, st') && MaxOk(st') && st'.mask == st.mask && st'.triePlen == st.triePlen
    ensures HeadFlows(st') == HeadFlows(st) && st'.maxPriority == st.maxPriority
    ensures All(st') == All(st) - {x} + {x.(removeVersion := version)}
  {
    hide TableOk, MaxOk, HashesAre;
    var h, p, ihash, hash := FindInList(c, st, id, f, x);
    TableLengths(c, st, f, ihash, hash);
    var y := st.chains[h][p].(removeVersion := version);
    StaysInList(c, st, h, p, y);
    ReplaceInListOk(c, st, h, p, y, ihash, hash);
    st' := SetChain(st, h, st.chains[h][p := y], ihash, hash);
    SameRulesMax(st, st', x, y);
  }

  lemma StaysInList(c: Config, st: Subtable, h: RuleId, p: nat, y: ClsMatch)
    requires TableOk(c, st) && h in st.chains && p < |st.chains[h]| && st.chains[h][p].rule == y.rule
    ensures forall i :: 0 <= i < |st.chains[h]| && i != p ==> st.chains[h][i].rule != y.rule
    ensures NotElsewhere(st, h, {y})
    ensures y != st.chains[h][p] ==> y !in All(st)
  {
    hide TableOk;
    forall g, z | g in st.chains && z in st.chains[g] && z.rule == y.rule ensures z == st.chains[h][p] && g == h {
      OneRule(c, st, h, p, g, z);
    }
    forall i | 0 <= i < |st.chains[h]| && i != p ensures st.chains[h][i].rule != y.rule { OtherRule(c, st, h, p, i); }
  }

  lemma OneRule(c: Config, st: Subtable, h: RuleId, p: nat, g: RuleId, z: ClsMatch)
    requires TableOk(c, st) && h in st.chains && p < |st.chains[h]|
    requires g in st.chains && z in st.chains[g] && z.rule == st.chains[h][p].rule
    ensures z == st.chains[h][p] && g == h
  {
    assert st.chains[h][p] in st.chains[h];
    SameRule(c, st, h, p, z);
  }

  lemma OtherRule(c: Config, st: Subtable, h: RuleId, p: nat, i: nat)
    requires TableOk(c, st) && h in st.chains && p < |st.chains[h]| && i < |st.chains[h]| && i != p
    ensures st.chains[h][i].rule != st.chains[h][p].rule
  {
    assert ChainOk(st.mask, h, st.chains[h]);
  }

  lemma SameRulesMax(st: Subtable, st': Subtable, x: ClsMatch, y: ClsMatch)
    requires MaxOk(st) && x in All(st) && x.priority == y.priority && (y != x ==> y !in All(st))
    requires All(st') == All(st) - {x} + {y}
    requires st'.maxPriority == st.maxPriority && st'.maxCount == st.maxCount
    ensures MaxOk(st')
  {
    if y == x {
      assert All(st') == All(st);
      assert RulesAt(st', st.maxPriority) == RulesAt(st, st.maxPriority);
    } else {
      MaxAfterSwap(st, st', x, y);
    }
  }
}
