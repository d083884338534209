/** The classifier object: rule insertion and removal, version windows, and the
    lookup loop over its subtables. */
module FlowClassifier {
  import opened Basics
  import opened Flows
  import opened Subtables
  import opened SubtableEdits
  import opened NewSubtable
  import opened ClassifierState
  import opened RuleUpdates
  import opened ClassifierLookup
  import opened BestMatch
  import opened LookupFunction
  import opened SoftMatches

  type Rules = map<RuleId, ClsRule>

  function RuleOf(m: BitSet, x: ClsMatch): ClsRule { ClsRule(m, x.flow, x.priority) }

  // ---- Whole-state effect of a change to one subtable ----

  lemma PutTablesOk(c: Config, tables: Tables, m: BitSet, st: Subtable)
    requires TablesOk(c, tables) && TableOk(c, st) && st.mask == m && MaxOk(st)
    ensures TablesOk(c, tables[m := st])
  {
    hide TableOk, MaxOk;
  }

  lemma EachOnce(view: View, rules: Rules)
    requires OwnersOk(view, rules)
    ensures OnceStored(view)
  {
  }

  lemma AddedRule(tables: Tables, rules: Rules, m: BitSet, st: Subtable, st': Subtable, x: ClsMatch)
    requires OwnersOk(Contents(tables), rules) && x.rule !in rules
    requires All(st) == (if m in tables then All(tables[m]) else {}) && All(st') == All(st) + {x}
    ensures Contents(tables[m := st']) == Contents(tables) + {(m, x)}
    ensures OwnersOk(Contents(tables[m := st']), rules[x.rule := RuleOf(m, x)])
  {
    hide OwnersOk;
    PutContents(tables, m, st', {}, {x});
    assert (set y | y in {x} :: (m, y)) == {(m, x)};
    assert (set y: ClsMatch | y in {} :: (m, y)) == {};
    OwnersAdd(Contents(tables), rules, m, x);
  }

  lemma ReplacedRule(tables: Tables, rules: Rules, m: BitSet, st': Subtable, was: ClsMatch, x: ClsMatch)
    requires OwnersOk(Contents(tables), rules) && x.rule !in rules
    requires m in tables && was in All(tables[m]) && All(st') == All(tables[m]) - {was} + {x}
    ensures Contents(tables[m := st']) == Contents(tables) - {(m, was)} + {(m, x)}
    ensures OwnersOk(Contents(tables[m := st']), (rules - {was.rule})[x.rule := RuleOf(m, x)])
  {
    hide OwnersOk;
    PutContents(tables, m, st', {was}, {x});
    assert (set y | y in {x} :: (m, y)) == {(m, x)};
    assert (set y | y in {was} :: (m, y)) == {(m, was)};
    assert (m, was) in Contents(tables);
    OwnersDrop(Contents(tables), rules, m, was);
    OwnersAdd(Contents(tables) - {(m, was)}, rules - {was.rule}, m, x);
  }

  lemma RemovedRule(tables: Tables, rules: Rules, m: BitSet, tables': Tables, x: ClsMatch)
    requires OwnersOk(Contents(tables), rules) && m in tables && x in All(tables[m])
    requires if All(tables[m]) == {x} then tables' == tables - {m}
             else m in tables' && tables' == tables[m := tables'[m]] && All(tables'[m]) == All(tables[m]) - {x}
    ensures Contents(tables') == Contents(tables) - {(m, x)}
    ensures OwnersOk(Contents(tables'), rules - {x.rule})
  {
    hide OwnersOk;
    assert (set y | y in {x} :: (m, y)) == {(m, x)};
    if All(tables[m]) == {x} {
      DropContents(tables, m);
    } else {
      PutContents(tables, m, tables'[m], {x}, {});
      assert (set y: ClsMatch | y in {} :: (m, y)) == {};
    }
    assert (m, x) in Contents(tables);
    OwnersDrop(Contents(tables), rules, m, x);
  }

  /** The installed rules once `x` is in, in the place of `displaced`. */
  function WithRule(rules: Rules, m: BitSet, x: ClsMatch, displaced: Option<ClsMatch>): Rules
  {
    if displaced.None? then rules[x.rule := RuleOf(m, x)]
    else (rules - {displaced.value.rule})[x.rule := RuleOf(m, x)]
  }

  /** What inserting `x` under mask `m` does to the stored rules. */
  ghost predicate Inserted(view: set<(BitSet, ClsMatch)>, rules: Rules, m: BitSet, x: ClsMatch, displaced: Option<ClsMatch>,
                           view': set<(BitSet, ClsMatch)>, rules': Rules)
  {
    && rules' == WithRule(rules, m, x, displaced)
    && if displaced.None? then
         (forall y :: (m, y) in view ==> !Replaceable(y, x)) && view' == view + {(m, x)}
       else
         && (m, displaced.value) in view && Replaceable(displaced.value, x)
         && view' == view - {(m, displaced.value)} + {(m, x)}
  }

  // ---- Which rule an insertion displaces ----

  /** Rules of one mask that match the same packets at the same priority. */
  predicate Identical(y: ClsMatch, x: ClsMatch) { y.flow == x.flow && y.priority == x.priority }

  /** An insertion displaces a rule exactly when an identical one is stored that is not
      marked to become invisible; the rule displaced is visible in the version of the
      insertion exactly when it was added by then. */
  lemma DisplacesExactly(view: set<(BitSet, ClsMatch)>, rules: Rules, m: BitSet, x: ClsMatch, displaced: Option<ClsMatch>,
                         view': set<(BitSet, ClsMatch)>, rules': Rules)
    requires Inserted(view, rules, m, x, displaced, view', rules')
    ensures displaced.Some? <==> exists y :: (m, y) in view && Identical(y, x) && y.removeVersion > CLS_MAX_VERSION
    ensures displaced.Some? && x.addVersion <= CLS_MAX_VERSION ==>
              (displaced.value.Visible(x.addVersion) <==> displaced.value.addVersion <= x.addVersion)
  {
  }

  /** As documented, a rule is displaced exactly when an identical one is visible in the
      version of the insertion.  With one identical rule `y` stored, that is so exactly
      when `y` was added by then and is not marked, or is marked and not visible. */
  lemma DocumentedExactly(view: set<(BitSet, ClsMatch)>, rules: Rules, m: BitSet, x: ClsMatch, displaced: Option<ClsMatch>,
                          view': set<(BitSet, ClsMatch)>, rules': Rules, y: ClsMatch)
    requires Inserted(view, rules, m, x, displaced, view', rules') && x.addVersion <= CLS_MAX_VERSION
    requires (m, y) in view && Identical(y, x) && forall z :: (m, z) in view && Identical(z, x) ==> z == y
    ensures (displaced == Some(y) <==> y.Visible(x.addVersion)) <==>
            if y.removeVersion > CLS_MAX_VERSION then y.addVersion <= x.addVersion
            else x.addVersion < y.addVersion || y.removeVersion <= x.addVersion
  {
    hide WithRule;
    DisplacesExactly(view, rules, m, x, displaced, view', rules');
  }

  /** A rule that is to be added in a later version is displaced unseen. */
  lemma LaterRuleIsDisplaced(rules: Rules, displaced: Option<ClsMatch>, view': set<(BitSet, ClsMatch)>, rules': Rules)
    requires Inserted({({}, ClsMatch(1, 5, {}, 7, CLS_NOT_REMOVED_VERSION, []))}, rules, {},
                      ClsMatch(2, 5, {}, 3, CLS_NOT_REMOVED_VERSION, []), displaced, view', rules')
    ensures displaced == Some(ClsMatch(1, 5, {}, 7, CLS_NOT_REMOVED_VERSION, [])) && !displaced.value.Visible(3)
  {
    var m: BitSet, y := {}, ClsMatch(1, 5, {}, 7, CLS_NOT_REMOVED_VERSION, []);
    assert (m, y) in {(m, y)} && Replaceable(y, ClsMatch(2, 5, {}, 3, CLS_NOT_REMOVED_VERSION, []));
  }

  /** A visible rule that is to become invisible later stays. */
  lemma MarkedRuleStays(rules: Rules, displaced: Option<ClsMatch>, view': set<(BitSet, ClsMatch)>, rules': Rules)
    requires Inserted({({}, ClsMatch(1, 5, {}, 1, 9, []))}, rules, {},
                      ClsMatch(2, 5, {}, 3, CLS_NOT_REMOVED_VERSION, []), displaced, view', rules')
    ensures displaced.None? && ClsMatch(1, 5, {}, 1, 9, []).Visible(3)
  {
  }

  /** The subtable `st` of the classifier, or a new one, for mask `m`. */
  ghost predicate TableFor(tables: Tables, m: BitSet, st: Subtable)
  {
    && st.mask == m && (m in tables ==> st == tables[m])
    && (m !in tables ==> All(st) == {} && HeadFlows(st) == {})
  }

  lemma AfterPutRules(c: Config, tables: Tables, rules: Rules, m: BitSet, st: Subtable, st': Subtable,
                      x: ClsMatch, replaced: Option<ClsMatch>, newHead: bool)
    requires OwnersOk(Contents(tables), rules) && x.rule !in rules && TableFor(tables, m, st)
    requires Put(c, st, x, st', replaced, newHead)
    requires replaced.Some? ==> Replaceable(replaced.value, x)
    requires replaced.None? ==> forall y :: y in All(st) ==> !Replaceable(y, x)
    ensures var rules' := WithRule(rules, m, x, replaced);
            && OwnersOk(Contents(tables[m := st']), rules')
            && Inserted(Contents(tables), rules, m, x, replaced, Contents(tables[m := st']), rules')
            && (replaced.Some? ==> replaced.value.rule in rules)
  {
    hide TableOk, MaxOk, OwnersOk, Replaceable;
    if replaced.None? {
      AddedRule(tables, rules, m, st, st', x);
      forall y | (m, y) in Contents(tables) ensures !Replaceable(y, x) { assert y in All(st); }
    } else {
      assert (m, replaced.value) in Contents(tables);
      StoredIsInstalled(Contents(tables), rules, (m, replaced.value));
      ReplacedRule(tables, rules, m, st', replaced.value, x);
    }
  }

  lemma WithRuleSize(rules: Rules, m: BitSet, x: ClsMatch, displaced: Option<ClsMatch>)
    requires x.rule !in rules && (displaced.Some? ==> displaced.value.rule in rules)
    ensures |WithRule(rules, m, x, displaced)| == |rules| + if displaced.None? then 1 else 0
  {
    var now := WithRule(rules, m, x, displaced);
    if displaced.None? {
      assert now.Keys == rules.Keys + {x.rule};
    } else {
      assert now.Keys == rules.Keys - {displaced.value.rule} + {x.rule};
    }
  }

  lemma StoredIsInstalled(view: set<(BitSet, ClsMatch)>, rules: Rules, p: (BitSet, ClsMatch))
    requires OwnersOk(view, rules) && p in view
    ensures p.1.rule in rules && rules[p.1.rule] == RuleOf(p.0, p.1)
  {
  }

  method ReplaceIn(c: Config, tables: Tables, order: seq<Entry>, tries: seq<T.Trie>, rules: Rules, m: BitSet, x: ClsMatch)
    returns (tables': Tables, order': seq<Entry>, tries': seq<T.Trie>, rules': Rules, displaced: Option<ClsMatch>)
    requires ClassifierOk(c, tables, order, tries, rules) && x.rule !in rules
    requires x.flow <= m && x.priority > INT_MIN && forall b: nat :: b in m ==> b < WORD_BITS * c.nWords
    ensures ClassifierOk(c, tables', order', tries', rules')
    ensures Inserted(Contents(tables), rules, m, x, displaced, Contents(tables'), rules')
    ensures |rules'| == |rules| + if displaced.None? then 1 else 0
  {
    hide TableOk, MaxOk, OwnersOk, CountsOk, OrderOk, Replaceable, Inserted;
    var st;
    if m in tables {
      st := tables[m];
    } else {
      st := InsertSubtable(c, m);
    }
    FreshRule(tables, rules, m, st, x);
    var st', newHead;
    st', displaced, newHead := PutRule(c, st, x);
    AfterPutRules(c, tables, rules, m, st, st', x, displaced, newHead);
    if newHead {
      PlensFit(c, st', tables, tries);
      tries' := InsertInTries(c, tries, st'.triePlen, x.flow);
      CountsAfterAdd(c, tables, tries, tries', m, st', x.flow);
    } else {
      NotNewTable(c, tables, m, st, st', x);
      CountsSame(c, tables, tries, m, st');
      tries' := tries;
    }
    PutTablesOk(c, tables, m, st');
    RepositionOk(tables, order, m, st');
    tables' := tables[m := st'];
    order' := InsertSorted(DropMask(order, m), Entry(st'.maxPriority, m));
    rules' := WithRule(rules, m, x, displaced);
    WithRuleSize(rules, m, x, displaced);
  }

  lemma FreshRule(tables: Tables, rules: Rules, m: BitSet, st: Subtable, x: ClsMatch)
    requires OwnersOk(Contents(tables), rules) && x.rule !in rules
    requires m in tables ==> st == tables[m]
    requires m !in tables ==> All(st) == {}
    ensures forall y :: y in All(st) ==> y.rule != x.rule
  {
    forall y | y in All(st) ensures y.rule != x.rule { assert (m, y) in Contents(tables); }
  }

  lemma PlensFit(c: Config, st: Subtable, tables: Tables, tries: seq<T.Trie>)
    requires TableOk(c, st) && CountsOk(c, tables, tries)
    ensures |tries| == |c.fields|
    ensures |st.triePlen| == |c.fields| && forall j :: 0 <= j < |c.fields| ==> st.triePlen[j] <= c.fields[j].nBits
  {
  }

  /** A subtable that was just created has no list to insert into. */
  lemma NotNewTable(c: Config, tables: Tables, m: BitSet, st: Subtable, st': Subtable, x: ClsMatch)
    requires TableOk(c, st') && HeadFlows(st') == HeadFlows(st) && x in All(st')
    requires m in tables ==> st == tables[m]
    requires m !in tables ==> HeadFlows(st) == {}
    ensures m in tables
  {
    FlowIsHeads(st', x);
  }

  /** The stored form of an installed rule. */
  ghost function Stored(view: set<(BitSet, ClsMatch)>, rules: Rules, id: RuleId): (x: ClsMatch)
    requires OwnersOk(view, rules) && id in rules
    ensures (rules[id].mask, x) in view && x.rule == id && RuleOf(rules[id].mask, x) == rules[id]
  {
    var p :| p in view && p.1.rule == id;
    p.1
  }

  /** What removing rule `id` does to the stored rules. */
  ghost predicate Removed(view: set<(BitSet, ClsMatch)>, rules: Rules, id: RuleId, view': set<(BitSet, ClsMatch)>, rules': Rules)
  {
    && OwnersOk(view, rules) && id in rules && rules' == rules - {id}
    && view' == view - {(rules[id].mask, Stored(view, rules, id))}
  }

  lemma StoredInTable(c: Config, tables: Tables, rules: Rules, id: RuleId)
    requires TablesOk(c, tables) && OwnersOk(Contents(tables), rules) && id in rules
    ensures var m := rules[id].mask;
            && m in tables && TableOk(c, tables[m]) && MaxOk(tables[m]) && tables[m].mask == m
            && Stored(Contents(tables), rules, id) in All(tables[m])
  {
  }

  lemma HeadInTable(c: Config, st: Subtable, h: RuleId)
    requires TableOk(c, st) && h in st.chains
    ensures st.chains[h] != [] && st.Head(h) in All(st)
  {
    HeadIsIn(st, h);
  }

  lemma HeadFlowsGone(c: Config, st: Subtable, x: ClsMatch)
    requires TableOk(c, st) && All(st) == {x}
    ensures HeadFlows(st) == {x.flow}
  {
    hide TableOk, HeadFlows, All;
    RuleInItsList(c, st, x);
    forall f | f in HeadFlows(st) ensures f == x.flow {
      var h := HeadOfFlow(st, f);
      HeadInTable(c, st, h);
    }
  }

  method RemoveIn(c: Config, tables: Tables, order: seq<Entry>, tries: seq<T.Trie>, rules: Rules, id: RuleId)
    returns (tables': Tables, order': seq<Entry>, tries': seq<T.Trie>, rules': Rules)
    requires ClassifierOk(c, tables, order, tries, rules) && id in rules
    ensures ClassifierOk(c, tables', order', tries', rules')
    ensures Removed(Contents(tables), rules, id, Contents(tables'), rules') && |rules'| == |rules| - 1
  {
    hide TableOk, MaxOk, OwnersOk, CountsOk, OrderOk;
    ghost var x := Stored(Contents(tables), rules, id);
    var m, f := rules[id].mask, rules[id].flow;
    StoredInTable(c, tables, rules, id);
    var st', headGone := TakeRule(c, tables[m], id, f, rules[id].priority, x);
    rules' := rules - {id};
    assert rules'.Keys == rules.Keys - {id};
    PlensFit(c, tables[m], tables, tries);
    if st'.chains == map[] {
      HeadFlowsGone(c, tables[m], x);
      tables', order' := tables - {m}, DropMask(order, m);
      UnorderOk(tables, order, m);
      RemoveTablesOk(c, tables, m);
    } else {
      tables', order' := tables[m := st'], InsertSorted(DropMask(order, m), Entry(st'.maxPriority, m));
      RepositionOk(tables, order, m, st');
      PutTablesOk(c, tables, m, st');
    }
    RemovedRule(tables, rules, m, tables', x);
    if headGone {
      tries' := RemoveFromTries(c, tries, tables[m].triePlen, f);
      CountsAfterDrop(c, tables, tables', tries, tries', m, f);
    } else {
      tries' := tries;
      CountsSame(c, tables, tries, m, st');
    }
  }

  lemma RemoveTablesOk(c: Config, tables: Tables, m: BitSet)
    requires TablesOk(c, tables)
    ensures TablesOk(c, tables - {m})
  {
    hide TableOk, MaxOk;
  }

  /** The window of rule `id` now ends at `version`; nothing else changed. */
  ghost predicate Rewindowed(view: set<(BitSet, ClsMatch)>, rules: Rules, id: RuleId, version: nat, view': set<(BitSet, ClsMatch)>)
  {
    && OwnersOk(view, rules) && id in rules
    && var m, x := rules[id].mask, Stored(view, rules, id);
       view' == view - {(m, x)} + {(m, x.(removeVersion := version))}
  }

  method SetRemoveIn(c: Config, tables: Tables, ghost order: seq<Entry>, ghost tries: seq<T.Trie>, rules: Rules, id: RuleId, version: nat)
    returns (tables': Tables)
    requires ClassifierOk(c, tables, order, tries, rules) && id in rules
    ensures ClassifierOk(c, tables', order, tries, rules)
    ensures Rewindowed(Contents(tables), rules, id, version, Contents(tables'))
  {
    hide TableOk, MaxOk, OwnersOk, CountsOk, OrderOk;
    ghost var x := Stored(Contents(tables), rules, id);
    var m := rules[id].mask;
    StoredInTable(c, tables, rules, id);
    var st' := SetRemoveVersion(c, tables[m], id, rules[id].flow, version, x);
    tables' := tables[m := st'];
    PutTablesOk(c, tables, m, st');
    CountsSame(c, tables, tries, m, st');
    SameOrder(tables, order, m, st');
    ghost var y := x.(removeVersion := version);
    PutContents(tables, m, st', {x}, {y});
    assert (set z | z in {x} :: (m, z)) == {(m, x)};
    assert (set z | z in {y} :: (m, z)) == {(m, y)};
    assert Contents(tables') == Contents(tables) - {(m, x)} + {(m, y)};
    OwnersRewindow(Contents(tables), rules, m, x, y);
  }

  lemma SameOrder(tables: Tables, order: seq<Entry>, m: BitSet, st: Subtable)
    requires OrderOk(tables, order) && m in tables && st.maxPriority == tables[m].maxPriority
    ensures OrderOk(tables[m := st], order)
  {
  }

  lemma OwnersRewindow(view: set<(BitSet, ClsMatch)>, rules: Rules, m: BitSet, x: ClsMatch, y: ClsMatch)
    requires OwnersOk(view, rules) && (m, x) in view && y == x.(removeVersion := y.removeVersion)
    ensures OwnersOk(view - {(m, x)} + {(m, y)}, rules)
  {
    var view' := view - {(m, x)} + {(m, y)};
    forall id | id in rules ensures exists p :: p in view' && p.1.rule == id {
      var p :| p in view && p.1.rule == id;
      if p == (m, x) {
        assert (m, y) in view';
      } else {
        assert p in view';
      }
    }
  }

  class Classifier {
    const c: Config
    var tables: Tables            // subtables_map
    var order: seq<Entry>         // subtables, as published
    var tries: seq<T.Trie>
    var rules: Rules              // rules whose cls_match is set
    var nRules: nat

    ghost predicate Valid()
      reads this
    {
      ClassifierOk(c, tables, order, tries, rules) && nRules == |rules|
    }

    /** The stored rules, each with the mask of its subtable. */
    ghost function View(): set<(BitSet, ClsMatch)>
      reads this
    {
      Contents(tables)
    }

    constructor (c: Config)
      requires ConfigOk(c)
      ensures Valid() && this.c == c && View() == {}
    {
      this.c := c;
      tables, order, rules, nRules := map[], [], map[], 0;
      tries := seq(|c.fields|, _ => T.Null);
    }

    /** classifier_replace: returns the identical rule it displaced, if one was
        there that no version stops seeing; otherwise adds the rule. */
    method Replace(rule: RuleId, mask: BitSet, flow: BitSet, priority: int, version: nat, conj: seq<Conjunction>)
      returns (displaced: Option<ClsMatch>)
      requires Valid() && rule !in rules
      requires flow <= mask && priority > INT_MIN && forall b: nat :: b in mask ==> b < WORD_BITS * c.nWords
      modifies this
      ensures Valid()
      ensures Inserted(old(View()), old(rules), mask,
                       ClsMatch(rule, priority, flow, version, CLS_NOT_REMOVED_VERSION, conj), displaced, View(), rules)
    {
      hide ClassifierOk, Inserted;
      var x := ClsMatch(rule, priority, flow, version, CLS_NOT_REMOVED_VERSION, conj);
      var tables', order', tries', rules';
      tables', order', tries', rules', displaced := ReplaceIn(c, tables, order, tries, rules, mask, x);
      tables, order, tries, rules := tables', order', tries', rules';
      if displaced.None? {
        nRules := nRules + 1;
      }
    }

    /** classifier_remove: returns whether the rule was in the classifier. */
    method Remove(rule: RuleId) returns (removed: bool)
      requires Valid()
      modifies this
      ensures Valid() && removed == (rule in old(rules))
      ensures !removed ==> View() == old(View()) && rules == old(rules)
      ensures removed ==> Removed(old(View()), old(rules), rule, View(), rules)
    {
      hide ClassifierOk, Removed;
      if rule !in rules {
        return false;
      }
      var tables', order', tries', rules' := RemoveIn(c, tables, order, tries, rules, rule);
      tables, order, tries, rules := tables', order', tries', rules';
      nRules := nRules - 1;
      removed := true;
    }

    /** cls_rule_make_invisible_in_version: the rule stops being visible in
        `version`. */
    method MakeInvisible(rule: RuleId, version: nat)
      requires Valid() && rule in rules && version >= Stored(View(), rules, rule).addVersion
      modifies this`tables
      ensures Valid() && Rewindowed(old(View()), rules, rule, version, View())
    {
      hide ClassifierOk, Rewindowed;
      tables := SetRemoveIn(c, tables, order, tries, rules, rule, version);
    }

    /** cls_rule_restore_visibility: undoes MakeInvisible. */
    method RestoreVisibility(rule: RuleId)
      requires Valid() && rule in rules
      modifies this`tables
      ensures Valid() && Rewindowed(old(View()), rules, rule, CLS_NOT_REMOVED_VERSION, View())
    {
      hide ClassifierOk, Rewindowed;
      tables := SetRemoveIn(c, tables, order, tries, rules, rule, CLS_NOT_REMOVED_VERSION);
    }

    /** The classifier as its lookups see it. */
    ghost function AsEnv(version: nat, setId: SetConjId, size: nat -> nat): Env
      reads this
    {
      Env(c, tables, order, tries, version, setId, size)
    }

    /** classifier_lookup: the best match, by way of the staged indices, the
        tries and the wildcards they leave in `wc'`.  `setId` stores a
        conjunction id in a flow; `size` is the number of clauses of each. */
    method Lookup(version: nat, f: BitSet, wc: BitSet, setId: SetConjId, ghost size: nat -> nat)
      returns (r: Option<ClsMatch>, resolved: Option<nat>, wc': BitSet, ghost rounds: seq<Round>)
      requires Valid() && ConjSetsOk(View(), size)
      ensures wc <= wc' && Outcome(View(), version, f, setId, size, r, resolved, rounds) && OnceStored(View())
      ensures EnvOk(AsEnv(version, setId, size))
      ensures var s := LookupRun(AsEnv(version, setId, size), f, wc);
              && r == s.r && resolved == s.resolved && wc' == s.wc
              && (s.safe && StoresId(setId) ==> ServesAll(AsEnv(version, setId, size), f, wc, s))
              && (s.safe && NoConjunctions(View()) ==> BestForAll(View(), version, f, wc', r))
      ensures forall b: nat :: b in wc' ==> b in wc || LookedAt(AsEnv(version, setId, size), f, b)
      ensures NoConjunctions(View()) ==>
                resolved.None? && IsBest(View(), version, f, r) && HighOnly(View(), Priority(r), wc, wc')
      ensures NoConjunctions(View()) ==> (BestForAll(View(), version, f, wc', r) <==> NoneAgrees(View(), version, f, wc', Priority(r)))
      ensures NoConjunctions(View()) && HashesFree(c, tables, order, f) ==> BestForAll(View(), version, f, wc', r)
    {
      hide ConfigOk, TablesOk, OrderOk, CountsOk, OwnersOk, ConjSetsOk, IsBestHard, Resolved, NoConjunctions, Contents,
           HashesFree, IsBest, BestForAll, Outcome, LookupRun, ServesAll, StoresId, NoneAgrees, OnceStored, LookedAt, HighOnly;
      r, resolved, wc', rounds := LookupIn(c, tables, order, tries, version, f, wc, setId, size);
      EachOnce(View(), rules);
      ghost var e := AsEnv(version, setId, size);
      LookupWithin(e, f, wc);
      if LookupRun(e, f, wc).safe && StoresId(setId) { LookupServesAll(e, f, wc); }
    }
  }
}
