/** classifier_lookup__: the loop over subtables in descending priority, and the
    loop that settles conjunctive ("soft") matches. */
module ClassifierLookup {
  import opened Basics
  import opened Flows
  import opened Subtables
  import opened SubtableEdits
  import opened NewSubtable
  import opened StagedLookup
  import opened ClassifierState

  type View = set<(BitSet, ClsMatch)>

  /** The rule is stored, visible in the version, and satisfied by the flow. */
  ghost predicate Matching(view: View, version: nat, f: BitSet, p: (BitSet, ClsMatch))
  {
    p in view && p.1.Visible(version) && Agree(p.0, p.1.flow, f)
  }

  /** `r` is a matching rule of maximum priority, or there is none. */
  ghost predicate IsBest(view: View, version: nat, f: BitSet, r: Option<ClsMatch>)
  {
    match r
    case None => forall p :: !Matching(view, version, f, p)
    case Some(x) =>
      && (exists m :: Matching(view, version, f, (m, x)))
      && forall p :: Matching(view, version, f, p) ==> p.1.priority <= x.priority
  }

  /** The same among the rules that are not part of a conjunctive match. */
  ghost predicate IsBestHard(view: View, version: nat, f: BitSet, r: Option<ClsMatch>)
  {
    match r
    case None => forall p :: Matching(view, version, f, p) ==> p.1.conj != []
    case Some(x) =>
      && x.conj == [] && (exists m :: Matching(view, version, f, (m, x)))
      && forall p :: Matching(view, version, f, p) && p.1.conj == [] ==> p.1.priority <= x.priority
  }

  function Priority(r: Option<ClsMatch>): int
  {
    if r.None? then INT_MIN else r.value.priority
  }

  // ---- One subtable's answer ----

  lemma {:induction false} VisibleFromFirst(chain: seq<ClsMatch>, version: nat, x: ClsMatch)
    requires x in chain && x.Visible(version)
    ensures x in FirstVisible(chain, version)
    decreases |chain|
  {
    if !chain[0].Visible(version) {
      VisibleFromFirst(chain[1..], version, x);
    }
  }

  /** The pointer a subtable returns leads to all its visible matching rules. */
  lemma AnswerOf(c: Config, st: Subtable, version: nat, f: BitSet, x: ClsMatch)
    requires TableOk(c, st) && x in All(st) && x.Visible(version) && Agree(st.mask, x.flow, f)
    ensures x in FindSpec(st, version, f)
  {
    var h :| h in st.chains && x in st.chains[h];
    ListMatches(c, st, version, f, h, x);
    VisibleFromFirst(st.chains[h], version, x);
  }

  lemma ListMatches(c: Config, st: Subtable, version: nat, f: BitSet, h: RuleId, x: ClsMatch)
    requires TableOk(c, st) && h in st.chains && x in st.chains[h] && Agree(st.mask, x.flow, f)
    ensures FindSpec(st, version, f) == FirstVisible(st.chains[h], version)
  {
    assert ChainOk(st.mask, h, st.chains[h]);
    assert HeadMatches(st, h, f);
    FindSpecIs(st, version, f, h);
  }

  /** The rules are stored under mask `m` and satisfied by `f`. */
  ghost predicate AllIn(view: View, m: BitSet, f: BitSet, s: RulePtr)
  {
    forall i :: 0 <= i < |s| ==> (m, s[i]) in view && Agree(m, s[i].flow, f)
  }

  /** In order of priority, with no rule twice. */
  ghost predicate Descending(s: RulePtr)
  {
    && (forall i, j :: 0 <= i < j < |s| ==> s[i].priority >= s[j].priority && s[i].rule != s[j].rule)
    && (forall i :: 0 <= i < |s| ==> s[i].priority > INT_MIN)
  }

  /** A pointer into a list of rules that match `f`, in order of priority. */
  ghost predicate PtrOk(view: View, version: nat, f: BitSet, s: RulePtr)
  {
    (exists m :: AllIn(view, m, f, s)) && Descending(s) && (s != [] ==> s[0].Visible(version))
  }

  lemma ChainIsIn(c: Config, tables: Tables, m: BitSet, id: RuleId, f: BitSet)
    requires m in tables && tables[m].mask == m && TableOk(c, tables[m])
    requires id in tables[m].chains && HeadMatches(tables[m], id, f)
    ensures AllIn(Contents(tables), m, f, tables[m].chains[id]) && Descending(tables[m].chains[id])
  {
    var chain := tables[m].chains[id];
    assert ChainOk(m, id, chain);
    forall i | 0 <= i < |chain| ensures (m, chain[i]) in Contents(tables) && Agree(m, chain[i].flow, f) {
      assert chain[i] in chain && chain[i] in All(tables[m]);
    }
  }

  lemma {:induction false} SuffixIsPtr(view: View, m: BitSet, version: nat, f: BitSet, chain: seq<ClsMatch>)
    requires AllIn(view, m, f, chain) && Descending(chain)
    ensures AllIn(view, m, f, FirstVisible(chain, version)) && PtrOk(view, version, f, FirstVisible(chain, version))
    decreases |chain|
  {
    if chain != [] && !chain[0].Visible(version) {
      SuffixIsPtr(view, m, version, f, chain[1..]);
    }
  }

  /** Either no list matches, or the answer is the visible part of one that does. */
  lemma FindSpecCases(st: Subtable, version: nat, f: BitSet) returns (id: RuleId)
    requires ChainsOk(st)
    ensures FindSpec(st, version, f) == []
            || (id in st.chains && HeadMatches(st, id, f) && FindSpec(st, version, f) == FirstVisible(st.chains[id], version))
  {
    if x :| x in st.chains && HeadMatches(st, x, f) {
      FindSpecIs(st, version, f, x);
      id := x;
    } else {
      id := 0;
    }
  }

  lemma AnswerIsPtr(c: Config, tables: Tables, m: BitSet, version: nat, f: BitSet)
    requires TablesOk(c, tables) && m in tables
    ensures AllIn(Contents(tables), m, f, FindSpec(tables[m], version, f))
    ensures PtrOk(Contents(tables), version, f, FindSpec(tables[m], version, f))
  {
    hide FindSpec, HeadMatches, FirstVisible, SubtableOk, IdsOk, MaxOk, Contents, AllIn, Descending, PtrOk;
    Chained(c, tables, m);
    var id := FindSpecCases(tables[m], version, f);
    if FindSpec(tables[m], version, f) == [] {
      EmptyIsPtr(Contents(tables), m, version, f);
    } else {
      ChainIsIn(c, tables, m, id, f);
      SuffixIsPtr(Contents(tables), m, version, f, tables[m].chains[id]);
    }
  }

  lemma Chained(c: Config, tables: Tables, m: BitSet)
    requires TablesOk(c, tables) && m in tables
    ensures ChainsOk(tables[m])
  {
  }

  lemma EmptyIsPtr(view: View, m: BitSet, version: nat, f: BitSet)
    ensures AllIn(view, m, f, []) && PtrOk(view, version, f, [])
  {
    assert AllIn(view, m, f, []);
  }

  /** A table's answer is a stored matching rule of at most its top priority. */
  lemma AnswerMatches(c: Config, tables: Tables, m: BitSet, version: nat, f: BitSet)
    requires TablesOk(c, tables) && m in tables && FindSpec(tables[m], version, f) != []
    ensures var x := FindSpec(tables[m], version, f)[0];
            Matching(Contents(tables), version, f, (m, x)) && x.priority <= tables[m].maxPriority
  {
    AnswerIsPtr(c, tables, m, version, f);
    var x := FindSpec(tables[m], version, f)[0];
    assert (m, x) in Contents(tables);
    assert x in All(tables[m]);
  }

  // ---- The main loop ----

  ghost predicate Ready(c: Config, tables: Tables, order: seq<Entry>)
  {
    TablesOk(c, tables) && OrderOk(tables, order)
  }

  /** What plain lookup finds in the table at place `k` of the vector. */
  ghost function Answer(c: Config, tables: Tables, order: seq<Entry>, k: nat, version: nat, f: BitSet): RulePtr
    requires Ready(c, tables, order) && k < |order|
  {
    FindSpec(tables[order[k].mask], version, f)
  }

  /** The answer of table `k` needs no more attention: it is not above the best
      hard match, or it is a soft match that is kept when those count. */
  ghost predicate Settled(r: RulePtr, hard: Option<ClsMatch>, soft: seq<RulePtr>, allow: bool)
  {
    r == [] || r[0].priority <= Priority(hard) || (r[0].conj != [] && (allow ==> r in soft))
  }

  /** The tables at the first `n` places of the vector have been searched. */
  ghost predicate Searched(c: Config, tables: Tables, order: seq<Entry>, n: nat, version: nat, f: BitSet,
                           hard: Option<ClsMatch>, soft: seq<RulePtr>, allow: bool)
    requires Ready(c, tables, order) && n <= |order|
  {
    && (forall k :: 0 <= k < n ==> Settled(Answer(c, tables, order, k, version, f), hard, soft, allow))
    && (hard.Some? ==> hard.value.conj == [] && HeadOfTable(c, tables, order, n, version, f, hard.value))
    && (forall i :: 0 <= i < |soft| ==> IsSoft(soft[i]) && FromTable(c, tables, order, n, version, f, soft[i]))
  }

  /** One of the searched tables answers with a list that starts with `x`. */
  ghost predicate HeadOfTable(c: Config, tables: Tables, order: seq<Entry>, n: nat, version: nat, f: BitSet, x: ClsMatch)
    requires Ready(c, tables, order) && n <= |order|
  {
    exists k :: 0 <= k < n && IsHead(Answer(c, tables, order, k, version, f), x)
  }

  /** One of the searched tables answers with the list `s`. */
  ghost predicate FromTable(c: Config, tables: Tables, order: seq<Entry>, n: nat, version: nat, f: BitSet, s: RulePtr)
    requires Ready(c, tables, order) && n <= |order|
  {
    exists k :: 0 <= k < n && s == Answer(c, tables, order, k, version, f)
  }

  ghost predicate IsHead(r: RulePtr, x: ClsMatch) { r != [] && r[0] == x }

  ghost predicate IsSoft(s: RulePtr) { s != [] && s[0].conj != [] }

  ghost predicate HeadsBelow(soft: seq<RulePtr>, p: int)
  {
    forall i :: 0 <= i < |soft| ==> soft[i] != [] ==> soft[i][0].priority <= p
  }

  /** Each searched table answers every flow that agrees on `wc` in the same way. */
  ghost predicate AllSound(c: Config, tables: Tables, order: seq<Entry>, n: nat, version: nat, f: BitSet, wc: BitSet)
    requires Ready(c, tables, order) && n <= |order|
  {
    forall k :: 0 <= k < n ==> Alike(c, tables, order, k, version, f, wc)
  }

  ghost predicate Alike(c: Config, tables: Tables, order: seq<Entry>, k: nat, version: nat, f: BitSet, wc: BitSet)
    requires Ready(c, tables, order) && k < |order|
  {
    Sound(tables[order[k].mask], version, f, wc, Answer(c, tables, order, k, version, f))
  }

  // ---- The main loop as a function ----

  /** What the loop has found so far: the best hard match, and the soft matches. */
  datatype Found = Found(hard: Option<ClsMatch>, soft: seq<RulePtr>)

  function Advance(s: Found, r: RulePtr, allow: bool): Found
  {
    if r == [] || r[0].priority <= Priority(s.hard) then s
    else if r[0].conj == [] then s.(hard := Some(r[0]))
    else if allow then s.(soft := s.soft + [r])
    else s
  }

  /** What the loop has found after the first `n` tables. */
  ghost function MainLoop(c: Config, tables: Tables, order: seq<Entry>, version: nat, f: BitSet, allow: bool, n: nat): Found
    requires Ready(c, tables, order) && n <= |order|
  {
    if n == 0 then Found(None, [])
    else Advance(MainLoop(c, tables, order, version, f, allow, n - 1), Answer(c, tables, order, n - 1, version, f), allow)
  }

  /** Where the loop stops, at place `n` or later: no later table can have a better
      match. */
  ghost function StopFrom(c: Config, tables: Tables, order: seq<Entry>, version: nat, f: BitSet, allow: bool, n: nat): (k: nat)
    requires Ready(c, tables, order) && n <= |order|
    ensures n <= k <= |order|
    decreases |order| - n
  {
    if n == |order| || order[n].priority <= Priority(MainLoop(c, tables, order, version, f, allow, n).hard) then n
    else StopFrom(c, tables, order, version, f, allow, n + 1)
  }

  /** How many tables the loop searches. */
  ghost function Stop(c: Config, tables: Tables, order: seq<Entry>, version: nat, f: BitSet, allow: bool): (k: nat)
    requires Ready(c, tables, order)
    ensures k <= |order|
  {
    StopFrom(c, tables, order, version, f, allow, 0)
  }

  ghost predicate TriesFit(c: Config, tables: Tables, tries: seq<T.Trie>)
  {
    TriesOk(c, tries) && CountsOk(c, tables, tries)
  }

  /** Everything that is un-wildcarded by the search of the first `n` tables. */
  ghost function FoldedBy(c: Config, tables: Tables, order: seq<Entry>, tries: seq<T.Trie>, version: nat, f: BitSet, wc: BitSet, n: nat): BitSet
    requires Ready(c, tables, order) && TriesFit(c, tables, tries) && n <= |order|
  {
    if n == 0 then wc
    else FoldedAt(c, tables, order, tries, version, f, FoldedBy(c, tables, order, tries, version, f, wc, n - 1), n - 1)
  }

  ghost function FoldedAt(c: Config, tables: Tables, order: seq<Entry>, tries: seq<T.Trie>, version: nat, f: BitSet, wc: BitSet, k: nat): BitSet
    requires Ready(c, tables, order) && TriesFit(c, tables, tries) && k < |order|
  {
    Folded(c, tries, tables[order[k].mask], version, f, wc)
  }

  ghost predicate SafeAt(c: Config, tables: Tables, order: seq<Entry>, tries: seq<T.Trie>, version: nat, f: BitSet, wc: BitSet, k: nat)
    requires Ready(c, tables, order) && TriesFit(c, tables, tries) && k < |order|
  {
    Safe(c, tries, tables[order[k].mask], version, f, wc)
  }

  /** The searches of the first `n` tables are safe. */
  ghost predicate AllSafe(c: Config, tables: Tables, order: seq<Entry>, tries: seq<T.Trie>, version: nat, f: BitSet, wc: BitSet, n: nat)
    requires Ready(c, tables, order) && TriesFit(c, tables, tries) && n <= |order|
  {
    forall k :: 0 <= k < n ==>
      SafeAt(c, tables, order, tries, version, f, FoldedBy(c, tables, order, tries, version, f, wc, k), k)
  }

  /** No hash collides with the flow's, and last stages with ports have only ports: then
      every search is safe. */
  ghost predicate HashesFree(c: Config, tables: Tables, order: seq<Entry>, f: BitSet)
    requires Ready(c, tables, order)
  {
    forall m :: m in tables ==> NoCollision(c, tables[m], f) && PortsFinal(c, tables[m])
  }

  lemma FreeIsAllSafe(c: Config, tables: Tables, order: seq<Entry>, tries: seq<T.Trie>, version: nat, f: BitSet, wc: BitSet, n: nat)
    requires Ready(c, tables, order) && TriesFit(c, tables, tries) && n <= |order| && HashesFree(c, tables, order, f)
    ensures AllSafe(c, tables, order, tries, version, f, wc, n)
  {
    hide NoCollision, PortsFinal, SubtableOk, IdsOk, MaxOk, FoldedBy, Safe, CountsOk;
    forall k | 0 <= k < n ensures SafeAt(c, tables, order, tries, version, f, FoldedBy(c, tables, order, tries, version, f, wc, k), k) {
      FreeIsSafe(c, tries, tables[order[k].mask], version, f, FoldedBy(c, tables, order, tries, version, f, wc, k));
    }
  }

  /** A safe search serves every flow that shares what it un-wildcards. */
  lemma SafeIsAlike(c: Config, tables: Tables, order: seq<Entry>, tries: seq<T.Trie>, version: nat, f: BitSet, wc: BitSet, k: nat)
    requires Ready(c, tables, order) && TriesFit(c, tables, tries) && k < |order|
    ensures Alike(c, tables, order, k, version, f, FoldedAt(c, tables, order, tries, version, f, wc, k)) <==>
            SafeAt(c, tables, order, tries, version, f, wc, k)
    ensures wc <= FoldedAt(c, tables, order, tries, version, f, wc, k)
    ensures Answer(c, tables, order, k, version, f) != [] ==> order[k].mask <= FoldedAt(c, tables, order, tries, version, f, wc, k)
  {
    hide StaticOk, ChainsOk, MapsOk, PortsOk, IdsOk, MaxOk, HeadsInTries, CountsOk, TriesOk, Sound, FindSpec, Safe, Folded;
    FieldsFit(c, tries);
    var st := tables[order[k].mask];
    TableReady(c, tables, tries, order[k].mask);
    SoundExactly(c, tries, st, version, f, wc);
    FoldsMore(c, tries, st, version, f, wc);
    if FindSpec(st, version, f) != [] { FoundFoldsMask(c, tries, st, version, f, wc); }
  }

  lemma {:induction false} FoldedGrows(c: Config, tables: Tables, order: seq<Entry>, tries: seq<T.Trie>, version: nat, f: BitSet, wc: BitSet, k: nat, n: nat)
    requires Ready(c, tables, order) && TriesFit(c, tables, tries) && k <= n <= |order|
    ensures FoldedBy(c, tables, order, tries, version, f, wc, k) <= FoldedBy(c, tables, order, tries, version, f, wc, n)
    decreases n
  {
    hide Ready, TriesFit, FoldedAt, SafeAt, Alike, Answer;
    if k < n {
      FoldedGrows(c, tables, order, tries, version, f, wc, k, n - 1);
      SafeIsAlike(c, tables, order, tries, version, f, FoldedBy(c, tables, order, tries, version, f, wc, n - 1), n - 1);
    }
  }

  /** The bit is in the mask of one of the first `n` tables. */
  ghost predicate InTables(order: seq<Entry>, n: nat, b: nat)
  {
    exists k :: 0 <= k < n && k < |order| && b in order[k].mask
  }

  /** Searches un-wildcard only bits of the tables searched. */
  lemma {:induction false} FoldedWithin(c: Config, tables: Tables, order: seq<Entry>, tries: seq<T.Trie>, version: nat, f: BitSet, wc: BitSet, n: nat)
    requires Ready(c, tables, order) && TriesFit(c, tables, tries) && n <= |order|
    ensures forall b: nat :: b in FoldedBy(c, tables, order, tries, version, f, wc, n) ==> b in wc || InTables(order, n, b)
  {
    hide Ready, TriesFit, FoldedAt;
    if n > 0 {
      FoldedWithin(c, tables, order, tries, version, f, wc, n - 1);
      var was := FoldedBy(c, tables, order, tries, version, f, wc, n - 1);
      FoldedAtWithin(c, tables, order, tries, version, f, was, n - 1);
      forall b: nat | b in FoldedBy(c, tables, order, tries, version, f, wc, n) ensures b in wc || InTables(order, n, b) {
        if b !in was { assert b in order[n - 1].mask; }
      }
    }
  }

  lemma FoldedAtWithin(c: Config, tables: Tables, order: seq<Entry>, tries: seq<T.Trie>, version: nat, f: BitSet, wc: BitSet, k: nat)
    requires Ready(c, tables, order) && TriesFit(c, tables, tries) && k < |order|
    ensures FoldedAt(c, tables, order, tries, version, f, wc, k) <= wc + order[k].mask
  {
    hide StaticOk, ChainsOk, MapsOk, PortsOk, IdsOk, MaxOk, CountsOk, TriesOk, Folded, LooksAt;
    FieldsFit(c, tries);
    FoldsWithin(c, tries, tables[order[k].mask], version, f, wc);
  }

  /** No table is searched whose highest priority is below that of the hard match that is
      found in the end. */
  lemma {:induction false} SearchedAreHigh(c: Config, tables: Tables, order: seq<Entry>, version: nat, f: BitSet, allow: bool, n: nat, k: nat)
    requires Ready(c, tables, order) && k < n <= Stop(c, tables, order, version, f, allow)
    ensures order[k].priority >= Priority(MainLoop(c, tables, order, version, f, allow, n).hard)
    decreases n
  {
    hide TablesOk, Answer, StopFrom;
    var was, r := MainLoop(c, tables, order, version, f, allow, n - 1), Answer(c, tables, order, n - 1, version, f);
    if k < n - 1 {
      SearchedAreHigh(c, tables, order, version, f, allow, n - 1, k);
    } else {
      NotStopped(c, tables, order, version, f, allow, 0, k);
    }
    if r != [] { TopOfAnswer(c, tables, order, version, f, n - 1); }
  }

  lemma TopOfAnswer(c: Config, tables: Tables, order: seq<Entry>, version: nat, f: BitSet, k: nat)
    requires Ready(c, tables, order) && k < |order| && Answer(c, tables, order, k, version, f) != []
    ensures Answer(c, tables, order, k, version, f)[0].priority <= order[k].priority
  {
    hide TablesOk, FindSpec, Matching;
    AnswerMatches(c, tables, order[k].mask, version, f);
  }

  lemma {:induction false} NotStopped(c: Config, tables: Tables, order: seq<Entry>, version: nat, f: BitSet, allow: bool, n: nat, k: nat)
    requires Ready(c, tables, order) && n <= |order| && n <= k < StopFrom(c, tables, order, version, f, allow, n)
    ensures k < |order| && order[k].priority > Priority(MainLoop(c, tables, order, version, f, allow, k).hard)
    decreases |order| - n
  {
    hide Ready, MainLoop;
    if n < k { NotStopped(c, tables, order, version, f, allow, n + 1, k); }
  }

  /** Safe searches serve every flow that shares what they un-wildcard together. */
  lemma SafeIsSound(c: Config, tables: Tables, order: seq<Entry>, tries: seq<T.Trie>, version: nat, f: BitSet, wc: BitSet, n: nat)
    requires Ready(c, tables, order) && TriesFit(c, tables, tries) && n <= |order| && AllSafe(c, tables, order, tries, version, f, wc, n)
    ensures AllSound(c, tables, order, n, version, f, FoldedBy(c, tables, order, tries, version, f, wc, n))
  {
    hide Ready, TriesFit, FoldedAt, SafeAt, Alike, FoldedBy, Answer;
    forall k | 0 <= k < n ensures Alike(c, tables, order, k, version, f, FoldedBy(c, tables, order, tries, version, f, wc, n)) {
      SafeIsSoundAt(c, tables, order, tries, version, f, wc, k, n);
    }
  }

  lemma SafeIsSoundAt(c: Config, tables: Tables, order: seq<Entry>, tries: seq<T.Trie>, version: nat, f: BitSet, wc: BitSet, k: nat, n: nat)
    requires Ready(c, tables, order) && TriesFit(c, tables, tries) && k < n <= |order|
    ensures SafeAt(c, tables, order, tries, version, f, FoldedBy(c, tables, order, tries, version, f, wc, k), k) ==>
              Alike(c, tables, order, k, version, f, FoldedBy(c, tables, order, tries, version, f, wc, n))
    ensures Answer(c, tables, order, k, version, f) != [] ==> order[k].mask <= FoldedBy(c, tables, order, tries, version, f, wc, n)
  {
    hide Ready, TriesFit, FoldedAt, SafeAt, Alike, Answer;
    var was := FoldedBy(c, tables, order, tries, version, f, wc, k);
    SafeIsAlike(c, tables, order, tries, version, f, was, k);
    FoldedGrows(c, tables, order, tries, version, f, wc, k + 1, n);
    if SafeAt(c, tables, order, tries, version, f, was, k) {
      AlikeMore(c, tables, order, k, version, f, FoldedAt(c, tables, order, tries, version, f, was, k),
                FoldedBy(c, tables, order, tries, version, f, wc, n));
    }
  }

  lemma AlikeMore(c: Config, tables: Tables, order: seq<Entry>, k: nat, version: nat, f: BitSet, wc: BitSet, wc': BitSet)
    requires Ready(c, tables, order) && k < |order| && Alike(c, tables, order, k, version, f, wc) && wc <= wc'
    ensures Alike(c, tables, order, k, version, f, wc')
  {
    hide FindSpec;
    forall f': BitSet | Agree(wc', f, f')
      ensures FindSpec(tables[order[k].mask], version, f') == Answer(c, tables, order, k, version, f)
    {
      AgreeMore(wc, wc', f, f');
    }
  }

  lemma SearchedMore(c: Config, tables: Tables, order: seq<Entry>, n: nat, n': nat, version: nat, f: BitSet,
                     hard: Option<ClsMatch>, soft: seq<RulePtr>, hard': Option<ClsMatch>, soft': seq<RulePtr>, allow: bool)
    requires Ready(c, tables, order) && n < |order| && n' == n + 1 && Searched(c, tables, order, n, version, f, hard, soft, allow)
    requires var r := Answer(c, tables, order, n, version, f);
             if r == [] || r[0].priority <= Priority(hard) then hard' == hard && soft' == soft
             else if r[0].conj == [] then hard' == Some(r[0]) && soft' == soft
             else hard' == hard && soft' == if allow then soft + [r] else soft
    ensures Searched(c, tables, order, n', version, f, hard', soft', allow)
  {
    hide Ready, Answer, HeadOfTable, FromTable;
    var r := Answer(c, tables, order, n, version, f);
    TablesMore(c, tables, order, n, n', version, f, hard, soft);
    forall k | 0 <= k < n' ensures Settled(Answer(c, tables, order, k, version, f), hard', soft', allow) {
      if k == n && soft' == soft + [r] { assert soft'[|soft|] == r; }
      if k < n {
        assert Settled(Answer(c, tables, order, k, version, f), hard, soft, allow);
        assert Answer(c, tables, order, k, version, f) in soft ==> Answer(c, tables, order, k, version, f) in soft';
      }
    }
    if hard' != hard { NewHead(c, tables, order, n, n', version, f, hard'.value); }
    forall i | 0 <= i < |soft'| ensures IsSoft(soft'[i]) && FromTable(c, tables, order, n', version, f, soft'[i]) {
      if i < |soft| { assert soft'[i] == soft[i]; } else { NewList(c, tables, order, n, n', version, f, soft'[i]); }
    }
  }

  lemma TablesMore(c: Config, tables: Tables, order: seq<Entry>, n: nat, n': nat, version: nat, f: BitSet,
                   hard: Option<ClsMatch>, soft: seq<RulePtr>)
    requires Ready(c, tables, order) && n <= n' <= |order|
    ensures hard.Some? && HeadOfTable(c, tables, order, n, version, f, hard.value) ==>
              HeadOfTable(c, tables, order, n', version, f, hard.value)
    ensures forall i :: 0 <= i < |soft| && FromTable(c, tables, order, n, version, f, soft[i]) ==>
              FromTable(c, tables, order, n', version, f, soft[i])
  {
    hide Ready, Answer;
  }

  lemma NewHead(c: Config, tables: Tables, order: seq<Entry>, n: nat, n': nat, version: nat, f: BitSet, x: ClsMatch)
    requires Ready(c, tables, order) && n < n' <= |order| && IsHead(Answer(c, tables, order, n, version, f), x)
    ensures HeadOfTable(c, tables, order, n', version, f, x)
  {
    hide Ready, Answer;
  }

  lemma NewList(c: Config, tables: Tables, order: seq<Entry>, n: nat, n': nat, version: nat, f: BitSet, s: RulePtr)
    requires Ready(c, tables, order) && n < n' <= |order| && s == Answer(c, tables, order, n, version, f)
    ensures FromTable(c, tables, order, n', version, f, s)
  {
    hide Ready, Answer;
  }

  /** One turn of the main loop: search the table at place `n`. */
  method SearchTable(c: Config, tables: Tables, order: seq<Entry>, tries: seq<T.Trie>, ctx: seq<TrieCtx>, n: nat,
                     version: nat, f: BitSet, wc: BitSet)
    returns (r: RulePtr, ctx': seq<TrieCtx>, wc': BitSet)
    requires Ready(c, tables, order) && TriesFit(c, tables, tries) && CtxOk(c, tries, f, ctx)
    requires n < |order|
    ensures CtxOk(c, tries, f, ctx') && wc <= wc' && r == Answer(c, tables, order, n, version, f)
    ensures wc' == FoldedAt(c, tables, order, tries, version, f, wc, n)
  {
    hide SubtableOk, HeadsInTries, CtxOk, CountsOk, NoCollision, PortsFinal, Sound, FindSpec, Folded, Safe;
    var st := tables[order[n].mask];
    TableReady(c, tables, tries, order[n].mask);
    r, ctx', wc' := FindMatchWc(c, tries, ctx, st, version, f, wc);
  }

  /** The main loop of classifier_lookup__. */
  method SearchTables(c: Config, tables: Tables, order: seq<Entry>, tries: seq<T.Trie>, version: nat, f: BitSet, wc: BitSet, allow: bool)
    returns (hard: Option<ClsMatch>, soft: seq<RulePtr>, softPri: int, wc': BitSet, ghost n: nat)
    requires ConfigOk(c) && Ready(c, tables, order) && CountsOk(c, tables, tries)
    ensures TriesFit(c, tables, tries)
    ensures wc <= wc' && n == Stop(c, tables, order, version, f, allow) && Searched(c, tables, order, n, version, f, hard, soft, allow)
    ensures Found(hard, soft) == MainLoop(c, tables, order, version, f, allow, n)
    ensures wc' == FoldedBy(c, tables, order, tries, version, f, wc, n)
    ensures forall k :: n <= k < |order| ==> order[k].priority <= Priority(hard)
    ensures HeadsBelow(soft, softPri) && (soft == [] ==> softPri == INT_MIN)
  {
    hide Ready, TriesOk, CountsOk, CtxOk, Searched, AllSound, FoldedAt, Alike, Answer;
    CountsFit(c, tables, tries);
    hard, soft, softPri, wc' := None, [], INT_MIN, wc;
    n := 0;
    var i := 0;
    var ctx := seq(|tries|, _ => Pending);
    SearchStart(c, tables, order, tries, version, f, ctx, allow);
    while i < |order| && order[i].priority > Priority(hard)
      invariant i == n <= |order| && HeadsBelow(soft, softPri) && (soft == [] ==> softPri == INT_MIN) && wc <= wc' && CtxOk(c, tries, f, ctx)
      invariant Searched(c, tables, order, n, version, f, hard, soft, allow)
      invariant Found(hard, soft) == MainLoop(c, tables, order, version, f, allow, n)
      invariant Stop(c, tables, order, version, f, allow) == StopFrom(c, tables, order, version, f, allow, n)
      invariant wc' == FoldedBy(c, tables, order, tries, version, f, wc, n)
    {
      var r;
      ghost var hard0, soft0 := hard, soft;
      r, ctx, wc' := SearchTable(c, tables, order, tries, ctx, i, version, f, wc');
      if r != [] && r[0].priority > Priority(hard) {
        if r[0].conj == [] {
          hard := Some(r[0]);
        } else if allow {
          soft := soft + [r];
          if softPri < r[0].priority {
            softPri := r[0].priority;
          }
        }
      }
      SearchedMore(c, tables, order, n, n + 1, version, f, hard0, soft0, hard, soft, allow);
      i, n := i + 1, n + 1;
    }
    RestIsLower(c, tables, order, n, Priority(hard));
  }

  lemma SearchStart(c: Config, tables: Tables, order: seq<Entry>, tries: seq<T.Trie>, version: nat, f: BitSet, ctx: seq<TrieCtx>, allow: bool)
    requires Ready(c, tables, order) && TriesOk(c, tries) && |ctx| == |tries| && forall j :: 0 <= j < |ctx| ==> ctx[j].Pending?
    ensures CtxOk(c, tries, f, ctx) && Searched(c, tables, order, 0, version, f, None, [], allow)
  {
  }

  lemma FieldsFit(c: Config, tries: seq<T.Trie>)
    requires TriesOk(c, tries)
    ensures |tries| == |c.fields|
  {
  }

  lemma TableReady(c: Config, tables: Tables, tries: seq<T.Trie>, m: BitSet)
    requires TablesOk(c, tables) && CountsOk(c, tables, tries) && m in tables
    ensures SubtableOk(c, tables[m]) && HeadsInTries(c, tries, tables[m])
  {
    CountsServeLookup(c, tables, tries, m);
  }

  lemma RestIsLower(c: Config, tables: Tables, order: seq<Entry>, n: nat, p: int)
    requires Ready(c, tables, order) && n <= |order| && (n < |order| ==> order[n].priority <= p)
    ensures forall k :: n <= k < |order| ==> order[k].priority <= p
  {
  }
}
