/** The state of a flow classifier: its subtables by mask, the vector that keeps
    them in descending order of their highest priority, the prefix tries that
    all subtables share, and the installed rules.  The lemmas say how the
    invariants survive each kind of change to one subtable. */
module ClassifierState {
  import opened Bits
  import opened Flows
  import opened Subtables
  import opened SubtableEdits
  import opened NewSubtable
  import opened StagedLookup

  type Tables = map<BitSet, Subtable>

  /** A rule as its owner knows it. */
  datatype ClsRule = ClsRule(mask: BitSet, flow: BitSet, priority: int)

  /** One entry of the priority vector. */
  datatype Entry = Entry(priority: int, mask: BitSet)

  ghost function Contents(tables: Tables): set<(BitSet, ClsMatch)>
  {
    set m, x | m in tables && x in All(tables[m]) :: (m, x)
  }

  // ---- Invariants ----

  ghost predicate TablesOk(c: Config, tables: Tables)
  {
    forall m :: m in tables ==>
      TableOk(c, tables[m]) && tables[m].mask == m && MaxOk(tables[m])
  }

  /** Installed rules and stored rules are the same, and each is stored once. */
  ghost predicate OwnersOk(contents: set<(BitSet, ClsMatch)>, rules: map<RuleId, ClsRule>)
  {
    && (forall p :: p in contents ==>
          p.1.rule in rules && rules[p.1.rule] == ClsRule(p.0, p.1.flow, p.1.priority))
    && (forall p, p' :: p in contents && p' in contents && p.1.rule == p'.1.rule ==> p == p')
    && (forall id :: id in rules ==> exists p :: p in contents && p.1.rule == id)
  }

  /** The vector lists every subtable once, with its exact highest priority, in
      descending order. */
  ghost predicate OrderOk(tables: Tables, order: seq<Entry>)
  {
    && (forall i :: 0 <= i < |order| ==> order[i].mask in tables && order[i].priority == tables[order[i].mask].maxPriority)
    && (forall m :: m in tables ==> exists i :: 0 <= i < |order| && order[i].mask == m)
    && (forall i, j :: 0 <= i < j < |order| ==> order[i].mask != order[j].mask)
    && (forall i, j :: 0 <= i < j < |order| ==> order[i].priority >= order[j].priority)
  }

  ghost predicate InField(c: Config, plens: seq<nat>, j: nat, f: BitSet, q: BitString)
  {
    j < |c.fields| && j < |plens| && 0 < plens[j] <= c.fields[j].nBits && FieldPrefix(c, j, plens[j], f) == q
  }

  /** The heads whose prefix on trie field `j` is `q`. */
  ghost function HeadsInField(c: Config, tables: Tables, j: nat, q: BitString): set<(BitSet, BitSet)>
  {
    set m, f | m in tables && f in HeadFlows(tables[m]) && InField(c, tables[m].triePlen, j, f, q) :: (m, f)
  }

  /** Each trie counts the heads with each prefix. */
  ghost predicate CountsOk(c: Config, tables: Tables, tries: seq<T.Trie>)
  {
    && |tries| == |c.fields|
    && (forall j :: 0 <= j < |tries| ==> T.Shaped(tries[j], true))
    && (forall j, q: BitString :: 0 <= j < |tries| ==> T.Count(tries[j], q) == |HeadsInField(c, tables, j, q)|)
  }

  ghost predicate ClassifierOk(c: Config, tables: Tables, order: seq<Entry>, tries: seq<T.Trie>, rules: map<RuleId, ClsRule>)
  {
    && ConfigOk(c) && TablesOk(c, tables) && OrderOk(tables, order)
    && CountsOk(c, tables, tries) && OwnersOk(Contents(tables), rules)
  }

  // ---- Contents ----

  lemma PutContents(tables: Tables, m: BitSet, st: Subtable, gone: set<ClsMatch>, added: set<ClsMatch>)
    requires All(st) == (if m in tables then All(tables[m]) else {}) - gone + added
    ensures Contents(tables[m := st]) ==
            Contents(tables) - (set x | x in gone :: (m, x)) + (set x | x in added :: (m, x))
  {
    var now := tables[m := st];
    forall p ensures p in Contents(now) <==>
                     p in Contents(tables) - (set x | x in gone :: (m, x)) + (set x | x in added :: (m, x)) {
      assert p in Contents(now) <==> p.0 in now && p.1 in All(now[p.0]);
      assert p in Contents(tables) <==> p.0 in tables && p.1 in All(tables[p.0]);
    }
  }

  lemma DropContents(tables: Tables, m: BitSet)
    requires m in tables
    ensures Contents(tables - {m}) == Contents(tables) - (set x | x in All(tables[m]) :: (m, x))
  {
    forall p ensures p in Contents(tables - {m}) <==> p in Contents(tables) - (set x | x in All(tables[m]) :: (m, x)) {
      assert p in Contents(tables) <==> p.0 in tables && p.1 in All(tables[p.0]);
      assert p in Contents(tables - {m}) <==> p.0 in tables - {m} && p.1 in All((tables - {m})[p.0]);
    }
  }

  lemma OwnersAdd(contents: set<(BitSet, ClsMatch)>, rules: map<RuleId, ClsRule>, m: BitSet, x: ClsMatch)
    requires OwnersOk(contents, rules) && x.rule !in rules
    ensures OwnersOk(contents + {(m, x)}, rules[x.rule := ClsRule(m, x.flow, x.priority)])
  {
    var now := rules[x.rule := ClsRule(m, x.flow, x.priority)];
    forall id | id in now ensures exists p :: p in contents + {(m, x)} && p.1.rule == id {
      if id in rules {
        var p :| p in contents && p.1.rule == id;
        assert p in contents + {(m, x)};
      } else {
        assert (m, x) in contents + {(m, x)};
      }
    }
  }

  lemma OwnersDrop(contents: set<(BitSet, ClsMatch)>, rules: map<RuleId, ClsRule>, m: BitSet, x: ClsMatch)
    requires OwnersOk(contents, rules) && (m, x) in contents
    ensures OwnersOk(contents - {(m, x)}, rules - {x.rule})
  {
    var now := contents - {(m, x)};
    forall id | id in rules - {x.rule} ensures exists p :: p in now && p.1.rule == id {
      var p :| p in contents && p.1.rule == id;
      assert p in now;
    }
  }

  // ---- The priority vector ----

  function InsertSorted(order: seq<Entry>, e: Entry): seq<Entry>
  {
    if order == [] || order[0].priority < e.priority then [e] + order
    else [order[0]] + InsertSorted(order[1..], e)
  }

  function DropMask(order: seq<Entry>, m: BitSet): seq<Entry>
  {
    if order == [] then []
    else if order[0].mask == m then DropMask(order[1..], m)
    else [order[0]] + DropMask(order[1..], m)
  }

  ghost predicate Sorted(order: seq<Entry>)
  {
    forall i, j :: 0 <= i < j < |order| ==> order[i].priority >= order[j].priority && order[i].mask != order[j].mask
  }

  lemma {:induction false} DropMaskOk(order: seq<Entry>, m: BitSet)
    requires Sorted(order)
    ensures Sorted(DropMask(order, m))
    ensures forall e :: e in DropMask(order, m) <==> e in order && e.mask != m
    decreases |order|
  {
    if order != [] {
      var rest := DropMask(order[1..], m);
      DropMaskOk(order[1..], m);
      assert order == [order[0]] + order[1..];
      if order[0].mask != m {
        forall i | 0 <= i < |rest| ensures order[0].priority >= rest[i].priority && order[0].mask != rest[i].mask {
          assert rest[i] in rest && rest[i] in order[1..];
        }
        SortedCons(order[0], rest);
      }
    }
  }

  lemma SortedCons(e: Entry, rest: seq<Entry>)
    requires Sorted(rest) && forall i :: 0 <= i < |rest| ==> e.priority >= rest[i].priority && e.mask != rest[i].mask
    ensures Sorted([e] + rest)
  {
  }

  lemma {:induction false} InsertSortedOk(order: seq<Entry>, e: Entry)
    requires Sorted(order) && forall x :: x in order ==> x.mask != e.mask
    ensures Sorted(InsertSorted(order, e))
    ensures forall x :: x in InsertSorted(order, e) <==> x in order || x == e
    decreases |order|
  {
    if order != [] && order[0].priority >= e.priority {
      InsertSortedOk(order[1..], e);
      var rest := InsertSorted(order[1..], e);
      forall i | 0 <= i < |rest| ensures order[0].priority >= rest[i].priority && order[0].mask != rest[i].mask {
        assert rest[i] in rest;
      }
    }
  }

  ghost predicate OrderMembers(tables: Tables, order: seq<Entry>)
  {
    && (forall e :: e in order ==> e.mask in tables && e.priority == tables[e.mask].maxPriority)
    && (forall m :: m in tables ==> Entry(tables[m].maxPriority, m) in order)
  }

  lemma OrderAsMembers(tables: Tables, order: seq<Entry>)
    ensures OrderOk(tables, order) <==> Sorted(order) && OrderMembers(tables, order)
  {
    if OrderOk(tables, order) {
      forall m | m in tables ensures Entry(tables[m].maxPriority, m) in order {
        var i :| 0 <= i < |order| && order[i].mask == m;
        assert order[i] == Entry(tables[m].maxPriority, m);
      }
    }
    if Sorted(order) && OrderMembers(tables, order) {
      forall m | m in tables ensures exists i :: 0 <= i < |order| && order[i].mask == m {
        var i :| 0 <= i < |order| && order[i] == Entry(tables[m].maxPriority, m);
      }
    }
  }

  /** Repositioning one subtable keeps the vector in order. */
  lemma RepositionOk(tables: Tables, order: seq<Entry>, m: BitSet, st: Subtable)
    requires OrderOk(tables, order)
    ensures OrderOk(tables[m := st], InsertSorted(DropMask(order, m), Entry(st.maxPriority, m)))
  {
    OrderAsMembers(tables, order);
    DropMaskOk(order, m);
    InsertSortedOk(DropMask(order, m), Entry(st.maxPriority, m));
    OrderAsMembers(tables[m := st], InsertSorted(DropMask(order, m), Entry(st.maxPriority, m)));
  }

  lemma UnorderOk(tables: Tables, order: seq<Entry>, m: BitSet)
    requires OrderOk(tables, order)
    ensures OrderOk(tables - {m}, DropMask(order, m))
  {
    OrderAsMembers(tables, order);
    DropMaskOk(order, m);
    OrderAsMembers(tables - {m}, DropMask(order, m));
  }

  // ---- Trie counts ----

  lemma SameHeads(c: Config, tables: Tables, m: BitSet, st: Subtable, j: nat, q: BitString)
    requires m in tables && HeadFlows(st) == HeadFlows(tables[m]) && st.triePlen == tables[m].triePlen
    ensures HeadsInField(c, tables[m := st], j, q) == HeadsInField(c, tables, j, q)
  {
    var now := tables[m := st];
    forall p ensures p in HeadsInField(c, now, j, q) <==> p in HeadsInField(c, tables, j, q) {
      HeadsMember(c, tables, j, q, p);
      HeadsMember(c, now, j, q, p);
    }
  }

  ghost predicate IsHeadInField(c: Config, tables: Tables, j: nat, q: BitString, p: (BitSet, BitSet))
  {
    p.0 in tables && p.1 in HeadFlows(tables[p.0]) && InField(c, tables[p.0].triePlen, j, p.1, q)
  }

  lemma HeadsMember(c: Config, tables: Tables, j: nat, q: BitString, p: (BitSet, BitSet))
    ensures p in HeadsInField(c, tables, j, q) <==> IsHeadInField(c, tables, j, q, p)
  {
  }

  /** One more head adds one to the count of its prefix. */
  lemma MoreHeads(c: Config, tables: Tables, m: BitSet, st: Subtable, f: BitSet, j: nat, q: BitString)
    requires m in tables ==> HeadFlows(st) == HeadFlows(tables[m]) + {f} && f !in HeadFlows(tables[m]) && st.triePlen == tables[m].triePlen
    requires m !in tables ==> HeadFlows(st) == {f}
    ensures |HeadsInField(c, tables[m := st], j, q)| ==
            |HeadsInField(c, tables, j, q)| + if InField(c, st.triePlen, j, f, q) then 1 else 0
  {
    var hs, hs' := HeadsInField(c, tables, j, q), HeadsInField(c, tables[m := st], j, q);
    var isIn := InField(c, st.triePlen, j, f, q);
    forall p ensures p in hs' <==> p in hs || (isIn && p == (m, f)) {
      MoreHeadsAt(c, tables, m, st, f, j, q, p);
    }
    HeadsMember(c, tables, j, q, (m, f));
    if isIn { assert hs' == hs + {(m, f)}; } else { assert hs' == hs; }
  }

  lemma MoreHeadsAt(c: Config, tables: Tables, m: BitSet, st: Subtable, f: BitSet, j: nat, q: BitString, p: (BitSet, BitSet))
    requires m in tables ==> HeadFlows(st) == HeadFlows(tables[m]) + {f} && st.triePlen == tables[m].triePlen
    requires m !in tables ==> HeadFlows(st) == {f}
    ensures p in HeadsInField(c, tables[m := st], j, q) <==>
            p in HeadsInField(c, tables, j, q) || (InField(c, st.triePlen, j, f, q) && p == (m, f))
  {
    HeadsMember(c, tables, j, q, p);
    HeadsMember(c, tables[m := st], j, q, p);
  }

  /** One head less takes one from the count of its prefix; the last head of a
      subtable goes together with the subtable. */
  lemma FewerHeads(c: Config, tables: Tables, tables': Tables, m: BitSet, f: BitSet, j: nat, q: BitString)
    requires m in tables && f in HeadFlows(tables[m])
    requires forall k :: k != m ==> (k in tables' <==> k in tables) && (k in tables' ==> tables'[k] == tables[k])
    requires if m in tables' then HeadFlows(tables'[m]) == HeadFlows(tables[m]) - {f} && tables'[m].triePlen == tables[m].triePlen
             else HeadFlows(tables[m]) == {f}
    ensures |HeadsInField(c, tables', j, q)| ==
            |HeadsInField(c, tables, j, q)| - if InField(c, tables[m].triePlen, j, f, q) then 1 else 0
  {
    var hs, hs' := HeadsInField(c, tables, j, q), HeadsInField(c, tables', j, q);
    forall p ensures p in hs' <==> p in hs && p != (m, f) {
      HeadsMember(c, tables, j, q, p);
      HeadsMember(c, tables', j, q, p);
    }
    HeadsMember(c, tables, j, q, (m, f));
    assert hs' == hs - {(m, f)};
  }

  lemma CountsFit(c: Config, tables: Tables, tries: seq<T.Trie>)
    requires ConfigOk(c) && CountsOk(c, tables, tries)
    ensures TriesOk(c, tries)
  {
    forall j | 0 <= j < |tries| ensures T.PrefixesFit(tries[j], c.fields[j].nBits) {
      forall q: BitString | T.Count(tries[j], q) > 0 ensures 0 < |q| <= c.fields[j].nBits {
        var p :| p in HeadsInField(c, tables, j, q);
        HeadsMember(c, tables, j, q, p);
      }
    }
  }

  lemma HeadIsCounted(c: Config, tables: Tables, tries: seq<T.Trie>, m: BitSet, id: RuleId, j: nat)
    requires CountsOk(c, tables, tries) && m in tables && StaticOk(c, tables[m]) && ChainsOk(tables[m])
    requires id in tables[m].chains && j < |tries| && tables[m].triePlen[j] > 0
    ensures T.Count(tries[j], FieldPrefix(c, j, tables[m].triePlen[j], tables[m].Head(id).flow)) > 0
  {
    var f := tables[m].Head(id).flow;
    var q := FieldPrefix(c, j, tables[m].triePlen[j], f);
    assert ChainOk(tables[m].mask, id, tables[m].chains[id]);
    assert f in HeadFlows(tables[m]);
    HeadsMember(c, tables, j, q, (m, f));
  }

  /** What lookups need from the counts. */
  lemma CountsServeLookup(c: Config, tables: Tables, tries: seq<T.Trie>, m: BitSet)
    requires CountsOk(c, tables, tries) && m in tables && TableOk(c, tables[m])
    ensures HeadsInTries(c, tries, tables[m])
  {
    forall id, j | id in tables[m].chains && 0 <= j < |tries| && tables[m].triePlen[j] > 0
      ensures T.Count(tries[j], FieldPrefix(c, j, tables[m].triePlen[j], tables[m].Head(id).flow)) > 0
    {
      HeadIsCounted(c, tables, tries, m, id, j);
    }
  }
}
