/** What the main lookup loop has found when it stops: the best hard match, and
    every better rule behind a soft match. */
module BestMatch {
  import opened Basics
  import opened Flows
  import opened Subtables
  import opened SubtableEdits
  import opened ClassifierState
  import opened ClassifierLookup

  /** Places from `n` on hold no rule above `p`. */
  ghost predicate RestBelow(order: seq<Entry>, n: nat, p: int)
  {
    forall k :: n <= k < |order| ==> order[k].priority <= p
  }

  /** `x` is in the list that starts with the soft match `s`. */
  ghost predicate Behind(s: RulePtr, x: ClsMatch)
  {
    IsSoft(s) && x in s && s[0].priority >= x.priority
  }

  ghost predicate Shadowed(c: Config, tables: Tables, order: seq<Entry>, n: nat, version: nat, f: BitSet,
                           soft: seq<RulePtr>, allow: bool, x: ClsMatch)
    requires Ready(c, tables, order) && n <= |order|
  {
    exists k :: 0 <= k < n && Behind(Answer(c, tables, order, k, version, f), x)
                && (allow ==> Answer(c, tables, order, k, version, f) in soft)
  }

  lemma PlaceOf(c: Config, tables: Tables, order: seq<Entry>, m: BitSet) returns (k: nat)
    requires Ready(c, tables, order) && m in tables
    ensures k < |order| && order[k].mask == m && order[k].priority == tables[m].maxPriority
  {
    k :| 0 <= k < |order| && order[k].mask == m;
  }

  lemma StoredBounds(c: Config, tables: Tables, p: (BitSet, ClsMatch))
    requires TablesOk(c, tables) && p in Contents(tables)
    ensures p.0 in tables && tables[p.0].mask == p.0 && TableOk(c, tables[p.0])
    ensures p.1 in All(tables[p.0]) && INT_MIN < p.1.priority <= tables[p.0].maxPriority
  {
    var st := tables[p.0];
    var h :| h in st.chains && p.1 in st.chains[h];
    assert ChainOk(st.mask, h, st.chains[h]);
  }

  /** A matching rule is on the list its table answers with. */
  lemma MatchingInAnswer(c: Config, tables: Tables, order: seq<Entry>, k: nat, version: nat, f: BitSet, p: (BitSet, ClsMatch))
    requires Ready(c, tables, order) && k < |order| && order[k].mask == p.0
    requires Matching(Contents(tables), version, f, p)
    ensures p.1 in Answer(c, tables, order, k, version, f)
    ensures Answer(c, tables, order, k, version, f)[0].priority >= p.1.priority
  {
    hide TableOk, MaxOk, OrderOk, FindSpec, Contents, Agree, TablesOk;
    MatchingInTable(c, tables, version, f, p);
  }

  lemma MatchingInTable(c: Config, tables: Tables, version: nat, f: BitSet, p: (BitSet, ClsMatch))
    requires TablesOk(c, tables) && Matching(Contents(tables), version, f, p)
    ensures p.0 in tables && ChainsOk(tables[p.0]) && p.1 in FindSpec(tables[p.0], version, f)
    ensures FindSpec(tables[p.0], version, f)[0].priority >= p.1.priority
  {
    hide TableOk, MaxOk, FindSpec, Contents, Agree;
    StoredBounds(c, tables, p);
    Chained(c, tables, p.0);
    AnswerOf(c, tables[p.0], version, f, p.1);
    AnswerIsPtr(c, tables, p.0, version, f);
    FirstIsTop(FindSpec(tables[p.0], version, f), p.1);
  }

  lemma FirstIsTop(s: RulePtr, x: ClsMatch)
    requires Descending(s) && x in s
    ensures s[0].priority >= x.priority
  {
    var i :| 0 <= i < |s| && s[i] == x;
    if i > 0 { assert s[0].priority >= s[i].priority; }
  }

  /** When the loop stops, a matching rule is not above the best hard match or is
      behind a soft match. */
  lemma Reached(c: Config, tables: Tables, order: seq<Entry>, n: nat, version: nat, f: BitSet,
                hard: Option<ClsMatch>, soft: seq<RulePtr>, allow: bool, p: (BitSet, ClsMatch))
    requires Ready(c, tables, order) && n <= |order| && Searched(c, tables, order, n, version, f, hard, soft, allow)
    requires RestBelow(order, n, Priority(hard)) && Matching(Contents(tables), version, f, p)
    ensures INT_MIN < p.1.priority
    ensures p.1.priority <= Priority(hard) || Shadowed(c, tables, order, n, version, f, soft, allow, p.1)
  {
    hide TablesOk, OrderOk, Answer, Contents, Agree;
    StoredBounds(c, tables, p);
    var k := PlaceOf(c, tables, order, p.0);
    if k < n {
      var r := Answer(c, tables, order, k, version, f);
      MatchingInAnswer(c, tables, order, k, version, f, p);
      assert Settled(r, hard, soft, allow);
      if p.1.priority > Priority(hard) {
        assert Behind(r, p.1);
      }
    }
  }

  /** The answer of a table is a matching rule. */
  lemma HeadMatching(c: Config, tables: Tables, order: seq<Entry>, k: nat, version: nat, f: BitSet, x: ClsMatch)
    requires Ready(c, tables, order) && k < |order| && IsHead(Answer(c, tables, order, k, version, f), x)
    ensures Matching(Contents(tables), version, f, (order[k].mask, x))
  {
    AnswerMatches(c, tables, order[k].mask, version, f);
  }

  lemma TableHeadMatching(c: Config, tables: Tables, order: seq<Entry>, n: nat, version: nat, f: BitSet, x: ClsMatch)
    requires Ready(c, tables, order) && n <= |order| && HeadOfTable(c, tables, order, n, version, f, x)
    ensures exists m :: Matching(Contents(tables), version, f, (m, x))
  {
    hide Ready, Answer, Matching;
    var k :| 0 <= k < n && IsHead(Answer(c, tables, order, k, version, f), x);
    HeadMatching(c, tables, order, k, version, f, x);
  }

  lemma HardMatches(c: Config, tables: Tables, order: seq<Entry>, n: nat, version: nat, f: BitSet,
                    hard: Option<ClsMatch>, soft: seq<RulePtr>, allow: bool)
    requires Ready(c, tables, order) && n <= |order| && Searched(c, tables, order, n, version, f, hard, soft, allow)
    ensures hard.Some? ==> hard.value.conj == [] && exists m :: Matching(Contents(tables), version, f, (m, hard.value))
  {
    hide Ready, Answer, Matching, HeadOfTable, FromTable, Settled;
    if hard.Some? { TableHeadMatching(c, tables, order, n, version, f, hard.value); }
  }

  ghost predicate NoConjunctions(view: View)
  {
    forall p :: p in view ==> p.1.conj == []
  }

  /** Without conjunctions the loop ends with the best match. */
  lemma StopsAtBest(c: Config, tables: Tables, order: seq<Entry>, n: nat, version: nat, f: BitSet,
                    hard: Option<ClsMatch>, soft: seq<RulePtr>, allow: bool)
    requires Ready(c, tables, order) && n <= |order| && Searched(c, tables, order, n, version, f, hard, soft, allow)
    requires RestBelow(order, n, Priority(hard)) && NoConjunctions(Contents(tables))
    ensures IsBest(Contents(tables), version, f, hard)
  {
    hide Ready, Answer, Searched, RestBelow, Contents, Agree, NoConjunctions;
    HardMatches(c, tables, order, n, version, f, hard, soft, allow);
    forall p | Matching(Contents(tables), version, f, p)
      ensures INT_MIN < p.1.priority <= Priority(hard)
    {
      Reached(c, tables, order, n, version, f, hard, soft, allow, p);
      if k :| 0 <= k < n && Behind(Answer(c, tables, order, k, version, f), p.1) {
        AnswerHasNoSet(c, tables, order, k, version, f);
      }
    }
  }

  lemma AnswerHasNoSet(c: Config, tables: Tables, order: seq<Entry>, k: nat, version: nat, f: BitSet)
    requires Ready(c, tables, order) && k < |order| && NoConjunctions(Contents(tables))
    ensures !IsSoft(Answer(c, tables, order, k, version, f))
  {
    hide TablesOk, OrderOk, Contents, FindSpec;
    var r := Answer(c, tables, order, k, version, f);
    if r != [] { HeadMatching(c, tables, order, k, version, f, r[0]); }
  }

  /** The same search serves every flow that agrees on the wildcards. */
  lemma SearchedAlike(c: Config, tables: Tables, order: seq<Entry>, n: nat, version: nat, f: BitSet, f': BitSet, wc: BitSet,
                      hard: Option<ClsMatch>, soft: seq<RulePtr>, allow: bool)
    requires Ready(c, tables, order) && n <= |order| && Searched(c, tables, order, n, version, f, hard, soft, allow)
    requires AllSound(c, tables, order, n, version, f, wc) && Agree(wc, f, f')
    ensures Searched(c, tables, order, n, version, f', hard, soft, allow)
  {
    hide Ready, Answer, Alike, Agree;
    forall k | 0 <= k < n ensures Answer(c, tables, order, k, version, f') == Answer(c, tables, order, k, version, f) {
      AlikeHere(c, tables, order, k, version, f, f', wc);
    }
    SameAnswers(c, tables, order, n, version, f, f', hard, soft, allow);
  }

  lemma AlikeHere(c: Config, tables: Tables, order: seq<Entry>, k: nat, version: nat, f: BitSet, f': BitSet, wc: BitSet)
    requires Ready(c, tables, order) && k < |order| && Alike(c, tables, order, k, version, f, wc) && Agree(wc, f, f')
    ensures Answer(c, tables, order, k, version, f') == Answer(c, tables, order, k, version, f)
  {
    hide TablesOk, OrderOk, FindSpec;
  }

  lemma SameAnswers(c: Config, tables: Tables, order: seq<Entry>, n: nat, version: nat, f: BitSet, f': BitSet,
                    hard: Option<ClsMatch>, soft: seq<RulePtr>, allow: bool)
    requires Ready(c, tables, order) && n <= |order| && Searched(c, tables, order, n, version, f, hard, soft, allow)
    requires forall k :: 0 <= k < n ==> Answer(c, tables, order, k, version, f') == Answer(c, tables, order, k, version, f)
    ensures Searched(c, tables, order, n, version, f', hard, soft, allow)
  {
    hide Ready, Answer, HeadOfTable, FromTable, Settled;
    forall k | 0 <= k < n ensures Settled(Answer(c, tables, order, k, version, f'), hard, soft, allow) {
      assert Settled(Answer(c, tables, order, k, version, f), hard, soft, allow);
    }
    if hard.Some? { SameHead(c, tables, order, n, version, f, f', hard.value); }
    forall i | 0 <= i < |soft| ensures IsSoft(soft[i]) && FromTable(c, tables, order, n, version, f', soft[i]) {
      SameList(c, tables, order, n, version, f, f', soft[i]);
    }
  }

  lemma SameHead(c: Config, tables: Tables, order: seq<Entry>, n: nat, version: nat, f: BitSet, f': BitSet, x: ClsMatch)
    requires Ready(c, tables, order) && n <= |order| && HeadOfTable(c, tables, order, n, version, f, x)
    requires forall k :: 0 <= k < n ==> Answer(c, tables, order, k, version, f') == Answer(c, tables, order, k, version, f)
    ensures HeadOfTable(c, tables, order, n, version, f', x)
  {
    hide Ready, Answer;
    var k :| 0 <= k < n && IsHead(Answer(c, tables, order, k, version, f), x);
    assert IsHead(Answer(c, tables, order, k, version, f'), x);
  }

  lemma SameList(c: Config, tables: Tables, order: seq<Entry>, n: nat, version: nat, f: BitSet, f': BitSet, s: RulePtr)
    requires Ready(c, tables, order) && n <= |order| && FromTable(c, tables, order, n, version, f, s)
    requires forall k :: 0 <= k < n ==> Answer(c, tables, order, k, version, f') == Answer(c, tables, order, k, version, f)
    ensures FromTable(c, tables, order, n, version, f', s)
  {
    hide Ready, Answer;
    var k :| 0 <= k < n && s == Answer(c, tables, order, k, version, f);
    assert s == Answer(c, tables, order, k, version, f');
  }

  /** Every flow that agrees with `f` on `wc` has `r` as its best match. */
  ghost predicate BestForAll(view: View, version: nat, f: BitSet, wc: BitSet, r: Option<ClsMatch>)
  {
    forall f': BitSet :: Agree(wc, f, f') ==> IsBest(view, version, f', r)
  }

  /** Wildcard soundness of the main loop. */
  lemma StopsAtBestForAll(c: Config, tables: Tables, order: seq<Entry>, n: nat, version: nat, f: BitSet, wc: BitSet,
                          hard: Option<ClsMatch>, soft: seq<RulePtr>, allow: bool)
    requires Ready(c, tables, order) && n <= |order| && Searched(c, tables, order, n, version, f, hard, soft, allow)
    requires RestBelow(order, n, Priority(hard)) && NoConjunctions(Contents(tables))
    requires AllSound(c, tables, order, n, version, f, wc)
    ensures BestForAll(Contents(tables), version, f, wc, hard)
  {
    hide Ready, Searched, RestBelow, Contents, Agree, NoConjunctions, AllSound, IsBest;
    forall f': BitSet | Agree(wc, f, f') ensures IsBest(Contents(tables), version, f', hard) {
      SearchedAlike(c, tables, order, n, version, f, f', wc, hard, soft, allow);
      StopsAtBest(c, tables, order, n, version, f', hard, soft, allow);
    }
  }

  // ---- Exactly when the wildcards are sound ----

  /** No visible rule above priority `p` agrees with the flow on the bits `wc` of its
      mask. */
  ghost predicate NoneAgrees(view: View, version: nat, f: BitSet, wc: BitSet, p: int)
  {
    forall q :: q in view && q.1.Visible(version) && q.1.priority > p ==> !Agree(wc * q.0, q.1.flow, f)
  }

  /** Match values lie in their masks, and every priority is above the lowest. */
  ghost predicate ViewOk(view: View)
  {
    forall q :: q in view ==> q.1.flow <= q.0 && q.1.priority > INT_MIN
  }

  lemma StoredFit(c: Config, tables: Tables)
    requires TablesOk(c, tables)
    ensures ViewOk(Contents(tables))
  {
    forall q | q in Contents(tables) ensures q.1.flow <= q.0 && q.1.priority > INT_MIN {
      var st := tables[q.0];
      var h :| h in st.chains && q.1 in st.chains[h];
      assert ChainOk(st.mask, h, st.chains[h]);
    }
  }

  /** The mask of the rule is un-wildcarded. */
  ghost predicate MaskFolded(view: View, version: nat, f: BitSet, wc: BitSet, r: Option<ClsMatch>)
  {
    r.Some? ==> exists m :: Matching(view, version, f, (m, r.value)) && m <= wc
  }

  /** A best match is the best match of every flow that agrees on the wildcards exactly
      when no higher visible rule agrees with the flow on the wildcards. */
  lemma BestForAllExactly(view: View, version: nat, f: BitSet, wc: BitSet, r: Option<ClsMatch>)
    requires ViewOk(view) && IsBest(view, version, f, r) && MaskFolded(view, version, f, wc, r)
    ensures BestForAll(view, version, f, wc, r) <==> NoneAgrees(view, version, f, wc, Priority(r))
  {
    if BestForAll(view, version, f, wc, r) {
      forall q | q in view && q.1.Visible(version) && q.1.priority > Priority(r) ensures !Agree(wc * q.0, q.1.flow, f) {
        if Agree(wc * q.0, q.1.flow, f) { HigherMatches(view, version, f, wc, r, q); }
      }
    }
    if NoneAgrees(view, version, f, wc, Priority(r)) {
      forall f': BitSet | Agree(wc, f, f') ensures IsBest(view, version, f', r) {
        NoneHigher(view, version, f, f', wc, r);
      }
    }
  }

  lemma HigherMatches(view: View, version: nat, f: BitSet, wc: BitSet, r: Option<ClsMatch>, q: (BitSet, ClsMatch))
    requires q in view && q.1.flow <= q.0 && q.1.Visible(version) && q.1.priority > Priority(r) && Agree(wc * q.0, q.1.flow, f)
    ensures exists f': BitSet :: Agree(wc, f, f') && !IsBest(view, version, f', r)
  {
    var f' := (f - q.0) + q.1.flow;
    assert Agree(wc, f, f') && Matching(view, version, f', q);
  }

  lemma NoneHigher(view: View, version: nat, f: BitSet, f': BitSet, wc: BitSet, r: Option<ClsMatch>)
    requires ViewOk(view) && MaskFolded(view, version, f, wc, r) && NoneAgrees(view, version, f, wc, Priority(r)) && Agree(wc, f, f')
    ensures IsBest(view, version, f', r)
  {
    forall q | Matching(view, version, f', q) ensures q.1.priority <= Priority(r) {
      assert Agree(wc * q.0, q.1.flow, f);
    }
    if r.Some? {
      var m :| Matching(view, version, f, (m, r.value)) && m <= wc;
      assert Matching(view, version, f', (m, r.value));
    }
  }

  /** The mask of the rule that the main loop finds is un-wildcarded. */
  lemma MaskIsFolded(c: Config, tables: Tables, order: seq<Entry>, tries: seq<T.Trie>, version: nat, f: BitSet, wc: BitSet,
                     hard: Option<ClsMatch>, soft: seq<RulePtr>, n: nat, allow: bool)
    requires Ready(c, tables, order) && TriesFit(c, tables, tries) && n <= |order| && Searched(c, tables, order, n, version, f, hard, soft, allow)
    ensures MaskFolded(Contents(tables), version, f, FoldedBy(c, tables, order, tries, version, f, wc, n), hard)
  {
    hide Ready, TriesFit, Answer, FoldedBy, Settled, Contents, Matching, SafeAt, Alike;
    if hard.Some? {
      var k :| 0 <= k < n && IsHead(Answer(c, tables, order, k, version, f), hard.value);
      HeadMatching(c, tables, order, k, version, f, hard.value);
      SafeIsSoundAt(c, tables, order, tries, version, f, wc, k, n);
    }
  }

  // ---- What the search leaves wildcarded ----

  /** Every bit added to `wc` is in the mask of a stored rule of priority at least `p`. */
  ghost predicate HighOnly(view: View, p: int, wc: BitSet, wc': BitSet)
  {
    forall b: nat :: b in wc' ==> b in wc || InHigh(view, p, b)
  }

  ghost predicate InHigh(view: View, p: int, b: nat)
  {
    exists q :: q in view && b in q.0 && q.1.priority >= p
  }

  /** The main loop un-wildcards no bit that only rules below the match found have in
      their masks. */
  lemma SearchIsHigh(c: Config, tables: Tables, order: seq<Entry>, tries: seq<T.Trie>, version: nat, f: BitSet, wc: BitSet, allow: bool)
    requires Ready(c, tables, order) && TriesFit(c, tables, tries)
    ensures var n := Stop(c, tables, order, version, f, allow);
            HighOnly(Contents(tables), Priority(MainLoop(c, tables, order, version, f, allow, n).hard), wc,
                     FoldedBy(c, tables, order, tries, version, f, wc, n))
  {
    hide Ready, TriesFit, FoldedBy, MainLoop, Stop, Contents;
    var n := Stop(c, tables, order, version, f, allow);
    var p := Priority(MainLoop(c, tables, order, version, f, allow, n).hard);
    FoldedWithin(c, tables, order, tries, version, f, wc, n);
    forall b: nat | b in FoldedBy(c, tables, order, tries, version, f, wc, n) && b !in wc ensures InHigh(Contents(tables), p, b) {
      var k :| 0 <= k < n && b in order[k].mask;
      SearchedAreHigh(c, tables, order, version, f, allow, n, k);
      var x := TopRule(c, tables, order, k);
    }
  }

  lemma TopRule(c: Config, tables: Tables, order: seq<Entry>, k: nat) returns (x: ClsMatch)
    requires Ready(c, tables, order) && k < |order|
    ensures (order[k].mask, x) in Contents(tables) && x.priority == order[k].priority
  {
    hide TableOk;
    assert MaxOk(tables[order[k].mask]);
    x :| x in All(tables[order[k].mask]) && x.priority == order[k].priority;
  }
}
