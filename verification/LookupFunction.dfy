/** A lookup as a function of the classifier: the main loop, and then the soft match loop
    with the nested lookups of the conjunctions it comes upon.  It says which rule is
    found, which bits are un-wildcarded on the way, and whether each search on the way is
    safe. */
module LookupFunction {
  import opened Basics
  import opened Flows
  import opened Subtables
  import opened StagedLookup
  import opened ClassifierState
  import opened ClassifierLookup
  import C = Conjunctions

  type SetConjId = (BitSet, nat) -> BitSet

  // ---- Parts of a turn of the soft match loop ----

  predicate Alive(s: RulePtr, p: int)
  {
    s != [] && s[0].priority > p
  }

  function TotalLen(soft: seq<RulePtr>): nat
  {
    if soft == [] then 0 else TotalLen(soft[..|soft| - 1]) + |soft[|soft| - 1]|
  }

  lemma {:induction false} TotalLenUpdate(soft: seq<RulePtr>, i: nat, s: RulePtr)
    requires i < |soft|
    ensures TotalLen(soft[i := s]) == TotalLen(soft) - |soft[i]| + |s|
    decreases |soft|
  {
    var n := |soft| - 1;
    if i < n {
      TotalLenUpdate(soft[..n], i, s);
      assert soft[i := s][..n] == soft[..n][i := s];
    } else {
      assert soft[i := s][..n] == soft[..n];
    }
  }

  /** soft[i] = soft[--n_soft]. */
  function MoveLast(soft: seq<RulePtr>, i: nat): seq<RulePtr>
    requires i < |soft|
  {
    soft[i := soft[|soft| - 1]][..|soft| - 1]
  }

  lemma MoveLastKeeps(soft: seq<RulePtr>, i: nat)
    requires i < |soft|
    ensures TotalLen(MoveLast(soft, i)) == TotalLen(soft) - |soft[i]|
    ensures forall s :: s in MoveLast(soft, i) ==> s in soft
    ensures forall s :: s in soft ==> s == soft[i] || s in MoveLast(soft, i)
  {
    var n := |soft| - 1;
    TotalLenUpdate(soft, i, soft[n]);
    var now := MoveLast(soft, i);
    forall s | s in soft && s != soft[i] ensures s in now {
      var j :| 0 <= j < |soft| && soft[j] == s;
      if j < n { assert now[j] == s; } else { assert now[i] == s; }
    }
  }

  /** Deletes the soft matches from place `i` on that are not above priority `p`; the
      last one takes the place of a deleted one. */
  function Dropped(soft: seq<RulePtr>, i: nat, p: int): seq<RulePtr>
    requires i <= |soft|
    decreases |soft| - i
  {
    if i == |soft| then soft
    else if Alive(soft[i], p) then Dropped(soft, i + 1, p)
    else Dropped(MoveLast(soft, i), i, p)
  }

  lemma {:induction false} DroppedIsAlive(soft: seq<RulePtr>, i: nat, p: int)
    requires i <= |soft| && forall k :: 0 <= k < i ==> Alive(soft[k], p)
    ensures forall k :: 0 <= k < |Dropped(soft, i, p)| ==> Alive(Dropped(soft, i, p)[k], p)
    ensures TotalLen(Dropped(soft, i, p)) <= TotalLen(soft)
    decreases |soft| - i
  {
    if i < |soft| {
      if Alive(soft[i], p) {
        DroppedIsAlive(soft, i + 1, p);
      } else {
        MoveLastKeeps(soft, i);
        DroppedIsAlive(MoveLast(soft, i), i, p);
      }
    }
  }

  /** With no soft match above the priority, none is left. */
  lemma {:induction false} AllDropped(soft: seq<RulePtr>, p: int)
    requires HeadsBelow(soft, p)
    ensures Dropped(soft, 0, p) == []
    decreases |soft|
  {
    if soft != [] {
      assert !Alive(soft[0], p);
      AllDropped(MoveLast(soft, 0), p);
    }
  }

  predicate AtTop(s: RulePtr, p: int) { s != [] && s[0].priority == p }

  /** The conjunction sets of the first `n` soft matches that have priority `p`. */
  ghost function TopSets(soft: seq<RulePtr>, n: nat, p: int): seq<C.ConjSet>
    requires n <= |soft|
  {
    if n == 0 then []
    else if AtTop(soft[n - 1], p) then TopSets(soft, n - 1, p) + [soft[n - 1][0].conj]
    else TopSets(soft, n - 1, p)
  }

  /** The highest priority among the first `n` soft matches. */
  function TopOf(soft: seq<RulePtr>, n: nat): int
    requires 1 <= n <= |soft| && forall i :: 0 <= i < |soft| ==> soft[i] != []
  {
    if n == 1 then soft[0][0].priority
    else
      var rest := TopOf(soft, n - 1);
      if soft[n - 1][0].priority > rest then soft[n - 1][0].priority else rest
  }

  lemma {:induction false} TopIs(soft: seq<RulePtr>, n: nat)
    requires 1 <= n <= |soft| && forall i :: 0 <= i < |soft| ==> soft[i] != []
    ensures forall i :: 0 <= i < n ==> soft[i][0].priority <= TopOf(soft, n)
    ensures exists i :: 0 <= i < n && AtTop(soft[i], TopOf(soft, n))
  {
    if n == 1 {
      assert AtTop(soft[0], TopOf(soft, n));
    } else {
      TopIs(soft, n - 1);
      if soft[n - 1][0].priority > TopOf(soft, n - 1) { assert AtTop(soft[n - 1], TopOf(soft, n)); }
    }
  }

  /** next_visible_rule_in_list. */
  function Next(s: RulePtr, version: nat): RulePtr
    requires s != []
  {
    FirstVisible(s[1..], version)
  }

  /** What becomes of a soft match: one of the highest priority gives way to the
      next rule of its list, if that is also soft. */
  function Fallen(s: RulePtr, version: nat, softPri: int): RulePtr
  {
    if !AtTop(s, softPri) then s
    else if Next(s, version) != [] && Next(s, version)[0].conj == [] then []
    else Next(s, version)
  }

  /** The hard rule a soft match gives way to, if it does. */
  predicate FallsTo(s: RulePtr, version: nat, softPri: int, x: ClsMatch)
  {
    AtTop(s, softPri) && Next(s, version) != [] && Next(s, version)[0] == x && x.conj == []
  }

  function AllFallen(soft: seq<RulePtr>, version: nat, softPri: int): (r: seq<RulePtr>)
    ensures |r| == |soft| && forall i :: 0 <= i < |soft| ==> r[i] == Fallen(soft[i], version, softPri)
  {
    seq(|soft|, i requires 0 <= i < |soft| => Fallen(soft[i], version, softPri))
  }

  /** The hard match once the first `n` soft matches have given way. */
  function FallHard(soft: seq<RulePtr>, version: nat, softPri: int, hard: Option<ClsMatch>, n: nat): Option<ClsMatch>
    requires n <= |soft|
  {
    if n == 0 then hard
    else
      var was := FallHard(soft, version, softPri, hard, n - 1);
      if AtTop(soft[n - 1], softPri) && Next(soft[n - 1], version) != [] && Next(soft[n - 1], version)[0].conj == []
         && Next(soft[n - 1], version)[0].priority > Priority(was)
      then Some(Next(soft[n - 1], version)[0]) else was
  }

  lemma {:induction false} TotalLenPoint(a: seq<RulePtr>, b: seq<RulePtr>)
    requires |a| == |b| && forall i :: 0 <= i < |a| ==> |a[i]| <= |b[i]|
    ensures TotalLen(a) <= TotalLen(b)
    ensures forall i :: 0 <= i < |a| && |a[i]| < |b[i]| ==> TotalLen(a) < TotalLen(b)
    decreases |a|
  {
    if a != [] {
      TotalLenPoint(a[..|a| - 1], b[..|b| - 1]);
      forall i | 0 <= i < |a| && |a[i]| < |b[i]| ensures TotalLen(a) < TotalLen(b) {
        if i < |a| - 1 { assert |a[..|a| - 1][i]| < |b[..|b| - 1][i]|; }
      }
    }
  }

  /** Some list got shorter, so the soft match loop ends. */
  lemma FallBackShrinks(soft: seq<RulePtr>, softPri: int, version: nat, soft': seq<RulePtr>)
    requires |soft'| == |soft| && forall i :: 0 <= i < |soft| ==> soft'[i] == Fallen(soft[i], version, softPri)
    requires exists i :: 0 <= i < |soft| && AtTop(soft[i], softPri)
    ensures TotalLen(soft') < TotalLen(soft)
  {
    forall i | 0 <= i < |soft| ensures |soft'[i]| <= |soft[i]| && (AtTop(soft[i], softPri) ==> |soft'[i]| < |soft[i]|) {
    }
    TotalLenPoint(soft', soft);
  }

  // ---- The lookup ----

  /** A classifier, and how a lookup is asked of it.  `setId` stores a conjunction id in a
      flow; `size` is the number of clauses of each. */
  datatype Env = Env(c: Config, tables: Tables, order: seq<Entry>, tries: seq<T.Trie>, version: nat, setId: SetConjId, size: nat -> nat)

  ghost predicate EnvOk(e: Env) { Ready(e.c, e.tables, e.order) && TriesFit(e.c, e.tables, e.tries) }

  /** A search of the main loop from the bits `wc` on: how many tables it searches, what
      it finds, what is un-wildcarded in the end, and whether it is safe. */
  ghost function SearchN(e: Env, f: BitSet, allow: bool): (n: nat)
    requires EnvOk(e)
    ensures n <= |e.order|
  {
    Stop(e.c, e.tables, e.order, e.version, f, allow)
  }

  ghost function Search(e: Env, f: BitSet, allow: bool): Found
    requires EnvOk(e)
  {
    MainLoop(e.c, e.tables, e.order, e.version, f, allow, SearchN(e, f, allow))
  }

  ghost function SearchFolds(e: Env, f: BitSet, allow: bool, wc: BitSet): BitSet
    requires EnvOk(e)
  {
    FoldedBy(e.c, e.tables, e.order, e.tries, e.version, f, wc, SearchN(e, f, allow))
  }

  ghost predicate SearchSafe(e: Env, f: BitSet, allow: bool, wc: BitSet)
    requires EnvOk(e)
  {
    AllSafe(e.c, e.tables, e.order, e.tries, e.version, f, wc, SearchN(e, f, allow))
  }

  /** The conjunction found, if any, among those that the scans of a round report from set
      `j` on; each is looked up with its id in the flow. */
  datatype Tally = Tally(found: Option<nat>, wc: BitSet, safe: bool)

  ghost function Try(e: Env, f: BitSet, sets: seq<C.ConjSet>, j: nat, wc: BitSet, safe: bool): Tally
    requires EnvOk(e) && j <= |sets|
    decreases |sets| - j
  {
    if j == |sets| then Tally(None, wc, safe)
    else
      var t := C.ReportOf(sets, e.size, j);
      if t.None? then Try(e, f, sets, j + 1, wc, safe)
      else
        var g := e.setId(f, t.value);
        var wc', safe' := SearchFolds(e, g, false, wc), safe && SearchSafe(e, g, false, wc);
        if Search(e, g, false).hard.Some? then Tally(t, wc', safe') else Try(e, f, sets, j + 1, wc', safe')
  }

  datatype Result = Result(r: Option<ClsMatch>, resolved: Option<nat>, wc: BitSet, safe: bool)

  /** The soft match loop. */
  ghost function Settle(e: Env, f: BitSet, hard: Option<ClsMatch>, left: seq<RulePtr>, wc: BitSet, safe: bool): Result
    requires EnvOk(e)
    decreases TotalLen(left)
  {
    DroppedIsAlive(left, 0, Priority(hard));
    var now := Dropped(left, 0, Priority(hard));
    if now == [] then Result(hard, None, wc, safe)
    else
      var p := TopOf(now, |now|);
      var s := Try(e, f, TopSets(now, |now|, p), 0, wc, safe);
      if s.found.Some? then Result(Search(e, e.setId(f, s.found.value), false).hard, s.found, s.wc, s.safe)
      else
        TopIs(now, |now|);
        FallBackShrinks(now, p, e.version, AllFallen(now, e.version, p));
        Settle(e, f, FallHard(now, e.version, p, hard, |now|), AllFallen(now, e.version, p), s.wc, s.safe)
  }

  /** classifier_lookup. */
  ghost function LookupRun(e: Env, f: BitSet, wc: BitSet): Result
    requires EnvOk(e)
  {
    var s := Search(e, f, true);
    Settle(e, f, s.hard, s.soft, SearchFolds(e, f, true, wc), SearchSafe(e, f, true, wc))
  }

  // ---- Flows that share what was un-wildcarded ----

  /** Storing an id in a flow replaces some bits, whatever they were, and leaves the
      others. */
  ghost predicate StoresId(setId: SetConjId)
  {
    forall m: BitSet, f: BitSet, f': BitSet, id: nat :: Agree(m, f, f') ==> Agree(m, setId(f, id), setId(f', id))
  }

  /** Overwriting a field does. */
  lemma FieldStoresId(ofs: nat, n: nat, bits: nat -> BitSet)
    ensures StoresId((f: BitSet, id) => (f - PrefixBits(ofs, n)) + bits(id) * PrefixBits(ofs, n))
  {
  }

  lemma {:induction false} SameLoop(e: Env, f: BitSet, f': BitSet, allow: bool, n: nat)
    requires EnvOk(e) && n <= |e.order|
    requires forall k :: 0 <= k < n ==> Answer(e.c, e.tables, e.order, k, e.version, f') == Answer(e.c, e.tables, e.order, k, e.version, f)
    ensures MainLoop(e.c, e.tables, e.order, e.version, f', allow, n) == MainLoop(e.c, e.tables, e.order, e.version, f, allow, n)
  {
    hide Ready, TriesFit, Answer;
    if n > 0 { SameLoop(e, f, f', allow, n - 1); }
  }

  lemma {:induction false} SameStop(e: Env, f: BitSet, f': BitSet, allow: bool, n: nat)
    requires EnvOk(e) && n <= |e.order|
    requires forall k :: 0 <= k < StopFrom(e.c, e.tables, e.order, e.version, f, allow, n) ==>
               Answer(e.c, e.tables, e.order, k, e.version, f') == Answer(e.c, e.tables, e.order, k, e.version, f)
    ensures StopFrom(e.c, e.tables, e.order, e.version, f', allow, n) == StopFrom(e.c, e.tables, e.order, e.version, f, allow, n)
    decreases |e.order| - n
  {
    hide Ready, TriesFit, Answer, MainLoop;
    SameLoop(e, f, f', allow, n);
    if n < |e.order| && e.order[n].priority > Priority(MainLoop(e.c, e.tables, e.order, e.version, f, allow, n).hard) {
      SameStop(e, f, f', allow, n + 1);
    }
  }

  /** A safe search finds the same for every flow that shares what it un-wildcards. */
  lemma SearchServes(e: Env, f: BitSet, f': BitSet, allow: bool, wc: BitSet, w: BitSet)
    requires EnvOk(e) && SearchSafe(e, f, allow, wc) && SearchFolds(e, f, allow, wc) <= w && Agree(w, f, f')
    ensures Search(e, f', allow) == Search(e, f, allow) && SearchN(e, f', allow) == SearchN(e, f, allow)
  {
    hide Ready, TriesFit, Answer, MainLoop, AllSafe, FoldedBy, StopFrom;
    var n := SearchN(e, f, allow);
    SafeIsSound(e.c, e.tables, e.order, e.tries, e.version, f, wc, n);
    AgreeMore(SearchFolds(e, f, allow, wc), w, f, f');
    forall k | 0 <= k < n ensures Answer(e.c, e.tables, e.order, k, e.version, f') == Answer(e.c, e.tables, e.order, k, e.version, f) {
      SameAnswer(e, f, f', SearchFolds(e, f, allow, wc), k, n);
    }
    SameStop(e, f, f', allow, 0);
    SameLoop(e, f, f', allow, n);
  }

  lemma SameAnswer(e: Env, f: BitSet, f': BitSet, wc: BitSet, k: nat, n: nat)
    requires EnvOk(e) && k < n <= |e.order| && AllSound(e.c, e.tables, e.order, n, e.version, f, wc) && Agree(wc, f, f')
    ensures Answer(e.c, e.tables, e.order, k, e.version, f') == Answer(e.c, e.tables, e.order, k, e.version, f)
  {
    hide TablesOk, OrderOk, TriesFit, FindSpec;
    assert Alike(e.c, e.tables, e.order, k, e.version, f, wc);
  }

  lemma SearchGrows(e: Env, f: BitSet, allow: bool, wc: BitSet)
    requires EnvOk(e)
    ensures wc <= SearchFolds(e, f, allow, wc)
  {
    hide Ready, TriesFit, MainLoop, StopFrom;
    FoldedGrows(e.c, e.tables, e.order, e.tries, e.version, f, wc, 0, SearchN(e, f, allow));
  }

  lemma {:induction false} TryGrows(e: Env, f: BitSet, sets: seq<C.ConjSet>, j: nat, wc: BitSet, safe: bool)
    requires EnvOk(e) && j <= |sets|
    ensures wc <= Try(e, f, sets, j, wc, safe).wc && (Try(e, f, sets, j, wc, safe).safe ==> safe)
    decreases |sets| - j
  {
    hide EnvOk, C.ReportOf, SearchFolds, SearchSafe, Search;
    if j < |sets| {
      var t := C.ReportOf(sets, e.size, j);
      if t.None? {
        TryGrows(e, f, sets, j + 1, wc, safe);
      } else {
        var g := e.setId(f, t.value);
        SearchGrows(e, g, false, wc);
        TryGrows(e, f, sets, j + 1, SearchFolds(e, g, false, wc), safe && SearchSafe(e, g, false, wc));
      }
    }
  }

  lemma {:induction false} SettleGrows(e: Env, f: BitSet, hard: Option<ClsMatch>, left: seq<RulePtr>, wc: BitSet, safe: bool)
    requires EnvOk(e)
    ensures wc <= Settle(e, f, hard, left, wc, safe).wc && (Settle(e, f, hard, left, wc, safe).safe ==> safe)
    decreases TotalLen(left)
  {
    hide EnvOk, Try, Search, TopSets, Fallen, FallHard, Dropped, TopOf, TotalLen, AllFallen;
    DroppedIsAlive(left, 0, Priority(hard));
    var now := Dropped(left, 0, Priority(hard));
    if now != [] {
      var p := TopOf(now, |now|);
      TryGrows(e, f, TopSets(now, |now|, p), 0, wc, safe);
      var s := Try(e, f, TopSets(now, |now|, p), 0, wc, safe);
      if s.found.None? {
        TopIs(now, |now|);
        FallBackShrinks(now, p, e.version, AllFallen(now, e.version, p));
        SettleGrows(e, f, FallHard(now, e.version, p, hard, |now|), AllFallen(now, e.version, p), s.wc, s.safe);
      }
    }
  }

  lemma {:induction false} TryServes(e: Env, f: BitSet, f': BitSet, sets: seq<C.ConjSet>, j: nat, wc: BitSet, wc': BitSet, safe: bool, w: BitSet)
    requires EnvOk(e) && StoresId(e.setId) && j <= |sets| && Agree(w, f, f')
    requires Try(e, f, sets, j, wc, safe).safe && Try(e, f, sets, j, wc, safe).wc <= w
    ensures Try(e, f', sets, j, wc', safe).found == Try(e, f, sets, j, wc, safe).found
    ensures forall t :: Try(e, f, sets, j, wc, safe).found == Some(t) ==> Search(e, e.setId(f', t), false) == Search(e, e.setId(f, t), false)
    decreases |sets| - j
  {
    hide EnvOk, C.ReportOf, SearchFolds, SearchSafe, Search, StoresId;
    if j < |sets| {
      var t := C.ReportOf(sets, e.size, j);
      if t.None? {
        TryServes(e, f, f', sets, j + 1, wc, wc', safe, w);
      } else {
        var g, g' := e.setId(f, t.value), e.setId(f', t.value);
        var next, safe1 := SearchFolds(e, g, false, wc), safe && SearchSafe(e, g, false, wc);
        TryGrows(e, f, sets, j + 1, next, safe1);
        IdKept(e.setId, w, f, f', t.value);
        SearchServes(e, g, g', false, wc, w);
        if Search(e, g, false).hard.None? {
          TryServes(e, f, f', sets, j + 1, next, SearchFolds(e, g', false, wc'), safe1, w);
          TryFound(e, f', sets, j + 1, SearchFolds(e, g', false, wc'), safe1, safe && SearchSafe(e, g', false, wc'));
        }
      }
    }
  }

  lemma IdKept(setId: SetConjId, m: BitSet, f: BitSet, f': BitSet, id: nat)
    requires StoresId(setId) && Agree(m, f, f')
    ensures Agree(m, setId(f, id), setId(f', id))
  {
    hide Agree;
  }

  /** What is found does not depend on how safe it was so far. */
  lemma {:induction false} TryFound(e: Env, f: BitSet, sets: seq<C.ConjSet>, j: nat, wc: BitSet, safe: bool, safe': bool)
    requires EnvOk(e) && j <= |sets|
    ensures Try(e, f, sets, j, wc, safe).found == Try(e, f, sets, j, wc, safe').found
    decreases |sets| - j
  {
    hide EnvOk, C.ReportOf, SearchFolds, SearchSafe, Search;
    if j < |sets| {
      var t := C.ReportOf(sets, e.size, j);
      if t.None? {
        TryFound(e, f, sets, j + 1, wc, safe, safe');
      } else {
        var g := e.setId(f, t.value);
        TryFound(e, f, sets, j + 1, SearchFolds(e, g, false, wc), safe && SearchSafe(e, g, false, wc), safe' && SearchSafe(e, g, false, wc));
      }
    }
  }

  /** The loop comes to the same end for every flow that shares what it un-wildcards,
      from whatever bits the other lookup started. */
  lemma {:induction false} SettleServes(e: Env, f: BitSet, f': BitSet, hard: Option<ClsMatch>, left: seq<RulePtr>, wc: BitSet, safe: bool,
                                        wc': BitSet, safe': bool, w: BitSet)
    requires EnvOk(e) && StoresId(e.setId) && Agree(w, f, f')
    requires Settle(e, f, hard, left, wc, safe).safe && Settle(e, f, hard, left, wc, safe).wc <= w
    ensures Settle(e, f', hard, left, wc', safe').r == Settle(e, f, hard, left, wc, safe).r
    ensures Settle(e, f', hard, left, wc', safe').resolved == Settle(e, f, hard, left, wc, safe).resolved
    decreases TotalLen(left)
  {
    hide EnvOk, Try, Search, TopSets, Fallen, FallHard, Dropped, TopOf, TotalLen, AllFallen, StoresId, Agree;
    DroppedIsAlive(left, 0, Priority(hard));
    var now := Dropped(left, 0, Priority(hard));
    if now != [] {
      var p := TopOf(now, |now|);
      var sets := TopSets(now, |now|, p);
      var s, s' := Try(e, f, sets, 0, wc, safe), Try(e, f', sets, 0, wc', safe');
      TopIs(now, |now|);
      FallBackShrinks(now, p, e.version, AllFallen(now, e.version, p));
      var hard1, left1 := FallHard(now, e.version, p, hard, |now|), AllFallen(now, e.version, p);
      if s.found.None? { SettleGrows(e, f, hard1, left1, s.wc, s.safe); }
      TryServes(e, f, f', sets, 0, wc, wc', safe, w);
      TryFound(e, f', sets, 0, wc', safe, safe');
      if s.found.None? { SettleServes(e, f, f', hard1, left1, s.wc, s.safe, s'.wc, s'.safe, w); }
    }
  }

  /** Every flow that shares what a lookup un-wildcards gets the same rule by way of the
      same conjunction. */
  ghost predicate ServesAll(e: Env, f: BitSet, wc: BitSet, s: Result)
    requires EnvOk(e)
  {
    forall f': BitSet, w: BitSet :: Agree(s.wc, f, f') ==> Served(e, f', w, s)
  }

  ghost predicate Served(e: Env, f': BitSet, w: BitSet, s: Result)
    requires EnvOk(e)
  {
    LookupRun(e, f', w).r == s.r && LookupRun(e, f', w).resolved == s.resolved
  }

  /** Wildcard soundness, with conjunctions: a lookup whose searches are all safe serves
      every flow that shares what it un-wildcards. */
  lemma LookupServesAll(e: Env, f: BitSet, wc: BitSet)
    requires EnvOk(e) && StoresId(e.setId) && LookupRun(e, f, wc).safe
    ensures ServesAll(e, f, wc, LookupRun(e, f, wc))
  {
    hide EnvOk, Settle, Search, SearchFolds, SearchSafe, StoresId, Agree;
    var s, found := LookupRun(e, f, wc), Search(e, f, true);
    forall f': BitSet, w: BitSet | Agree(s.wc, f, f') ensures Served(e, f', w, s) {
      SettleGrows(e, f, found.hard, found.soft, SearchFolds(e, f, true, wc), SearchSafe(e, f, true, wc));
      SearchServes(e, f, f', true, wc, s.wc);
      SettleServes(e, f, f', found.hard, found.soft, SearchFolds(e, f, true, wc), SearchSafe(e, f, true, wc),
                   SearchFolds(e, f', true, w), SearchSafe(e, f', true, w), s.wc);
    }
  }

  /** Without collisions for the flow, with or without a conjunction id in it, and with
      only ports in last stages that have any, every search is safe. */
  lemma FreeIsLookupSafe(e: Env, f: BitSet, wc: BitSet)
    requires EnvOk(e) && HashesFree(e.c, e.tables, e.order, f) && forall id: nat :: HashesFree(e.c, e.tables, e.order, e.setId(f, id))
    ensures LookupRun(e, f, wc).safe
  {
    hide Settle, Search, SearchFolds, Ready, TriesFit, HashesFree, AllSafe;
    FreeIsAllSafe(e.c, e.tables, e.order, e.tries, e.version, f, wc, SearchN(e, f, true));
    var found := Search(e, f, true);
    SettleIsSafe(e, f, found.hard, found.soft, SearchFolds(e, f, true, wc));
  }

  lemma {:induction false} TryIsSafe(e: Env, f: BitSet, sets: seq<C.ConjSet>, j: nat, wc: BitSet)
    requires EnvOk(e) && j <= |sets| && forall id: nat :: HashesFree(e.c, e.tables, e.order, e.setId(f, id))
    ensures Try(e, f, sets, j, wc, true).safe
    decreases |sets| - j
  {
    hide Ready, TriesFit, C.ReportOf, SearchFolds, AllSafe, Search, HashesFree;
    if j < |sets| {
      var t := C.ReportOf(sets, e.size, j);
      if t.None? {
        TryIsSafe(e, f, sets, j + 1, wc);
      } else {
        var g := e.setId(f, t.value);
        FreeIsAllSafe(e.c, e.tables, e.order, e.tries, e.version, g, wc, SearchN(e, g, false));
        TryIsSafe(e, f, sets, j + 1, SearchFolds(e, g, false, wc));
      }
    }
  }

  lemma {:induction false} SettleIsSafe(e: Env, f: BitSet, hard: Option<ClsMatch>, left: seq<RulePtr>, wc: BitSet)
    requires EnvOk(e) && forall id: nat :: HashesFree(e.c, e.tables, e.order, e.setId(f, id))
    ensures Settle(e, f, hard, left, wc, true).safe
    decreases TotalLen(left)
  {
    hide Ready, TriesFit, Try, Search, TopSets, Fallen, FallHard, Dropped, TopOf, TotalLen, AllFallen, HashesFree;
    DroppedIsAlive(left, 0, Priority(hard));
    var now := Dropped(left, 0, Priority(hard));
    if now != [] {
      var p := TopOf(now, |now|);
      TryIsSafe(e, f, TopSets(now, |now|, p), 0, wc);
      var s := Try(e, f, TopSets(now, |now|, p), 0, wc, true);
      if s.found.None? {
        TopIs(now, |now|);
        FallBackShrinks(now, p, e.version, AllFallen(now, e.version, p));
        SettleIsSafe(e, f, FallHard(now, e.version, p, hard, |now|), AllFallen(now, e.version, p), s.wc);
      }
    }
  }

  // ---- What a lookup leaves wildcarded ----

  /** The bit is in the mask of a table that the search of the main loop gets to. */
  ghost predicate InSearch(e: Env, f: BitSet, allow: bool, b: nat)
    requires EnvOk(e)
  {
    InTables(e.order, SearchN(e, f, allow), b)
  }

  /** Some rule of the lists has the conjunction in its set. */
  ghost predicate Named(soft: seq<RulePtr>, id: nat)
  {
    exists s, x, i :: s in soft && x in s && 0 <= i < |x.conj| && x.conj[i].id == id
  }

  /** The bit is in the mask of a table that the lookup searches, for the flow itself or
      with the id in it of a conjunction that a soft match of the flow, or a rule after
      one, has in its set. */
  ghost predicate LookedAt(e: Env, f: BitSet, b: nat)
    requires EnvOk(e)
  {
    InSearch(e, f, true, b) || ForConjunction(e, f, Search(e, f, true).soft, b)
  }

  ghost predicate ForConjunction(e: Env, f: BitSet, soft: seq<RulePtr>, b: nat)
    requires EnvOk(e)
  {
    exists id :: Named(soft, id) && InSearch(e, e.setId(f, id), false, b)
  }

  lemma SearchWithin(e: Env, f: BitSet, allow: bool, wc: BitSet)
    requires EnvOk(e)
    ensures forall b: nat :: b in SearchFolds(e, f, allow, wc) ==> b in wc || InSearch(e, f, allow, b)
  {
    hide Ready, TriesFit, InTables, FoldedBy, Stop;
    FoldedWithin(e.c, e.tables, e.order, e.tries, e.version, f, wc, SearchN(e, f, allow));
  }

  lemma {:induction false} TryWithin(e: Env, f: BitSet, soft: seq<RulePtr>, sets: seq<C.ConjSet>, j: nat, wc: BitSet, safe: bool)
    requires EnvOk(e) && j <= |sets| && forall k, i :: 0 <= k < |sets| && 0 <= i < |sets[k]| ==> Named(soft, sets[k][i].id)
    ensures forall b: nat :: b in Try(e, f, sets, j, wc, safe).wc ==> b in wc || ForConjunction(e, f, soft, b)
    decreases |sets| - j
  {
    hide EnvOk, C.ReportOf, SearchFolds, SearchSafe, Search, InSearch, Named;
    if j < |sets| {
      var t := C.ReportOf(sets, e.size, j);
      if t.None? {
        TryWithin(e, f, soft, sets, j + 1, wc, safe);
      } else {
        var g := e.setId(f, t.value);
        ReportIsNamed(soft, sets, e.size, j);
        SearchWithin(e, g, false, wc);
        TryWithin(e, f, soft, sets, j + 1, SearchFolds(e, g, false, wc), safe && SearchSafe(e, g, false, wc));
      }
    }
  }

  lemma ReportIsNamed(soft: seq<RulePtr>, sets: seq<C.ConjSet>, size: nat -> nat, j: nat)
    requires j < |sets| && C.ReportOf(sets, size, j).Some?
    requires forall k, i :: 0 <= k < |sets| && 0 <= i < |sets[k]| ==> Named(soft, sets[k][i].id)
    ensures Named(soft, C.ReportOf(sets, size, j).value)
  {
    hide Named, C.Taken, C.Completes;
  }

  /** The rules of the lists are among those of the others. */
  ghost predicate Among(left: seq<RulePtr>, soft: seq<RulePtr>)
  {
    forall s, x :: s in left && x in s ==> exists s0 :: s0 in soft && x in s0
  }

  lemma {:induction false} TopSetsNamed(left: seq<RulePtr>, n: nat, p: int, soft: seq<RulePtr>)
    requires n <= |left| && Among(left, soft)
    ensures forall k, i :: 0 <= k < |TopSets(left, n, p)| && 0 <= i < |TopSets(left, n, p)[k]| ==> Named(soft, TopSets(left, n, p)[k][i].id)
  {
    if n > 0 {
      TopSetsNamed(left, n - 1, p, soft);
      if AtTop(left[n - 1], p) {
        var x := left[n - 1][0];
        assert left[n - 1] in left && x in left[n - 1];
        var s0 :| s0 in soft && x in s0;
        assert forall i :: 0 <= i < |x.conj| ==> Named(soft, x.conj[i].id);
      }
    }
  }

  lemma {:induction false} DroppedAmong(left: seq<RulePtr>, i: nat, p: int, soft: seq<RulePtr>)
    requires i <= |left| && Among(left, soft)
    ensures Among(Dropped(left, i, p), soft)
    decreases |left| - i
  {
    if i < |left| {
      if Alive(left[i], p) {
        DroppedAmong(left, i + 1, p, soft);
      } else {
        MoveLastKeeps(left, i);
        DroppedAmong(MoveLast(left, i), i, p, soft);
      }
    }
  }

  lemma FallenAmong(left: seq<RulePtr>, version: nat, p: int, soft: seq<RulePtr>)
    requires Among(left, soft)
    ensures Among(AllFallen(left, version, p), soft)
  {
    hide FirstVisible;
    var now := AllFallen(left, version, p);
    forall s, x | s in now && x in s ensures exists s0 :: s0 in soft && x in s0 {
      var i :| 0 <= i < |now| && now[i] == s;
      FallenIsPart(left[i], version, p, x);
      assert left[i] in left;
    }
  }

  lemma FallenIsPart(s: RulePtr, version: nat, p: int, x: ClsMatch)
    requires x in Fallen(s, version, p)
    ensures x in s
  {
  }

  lemma {:induction false} SettleWithin(e: Env, f: BitSet, soft: seq<RulePtr>, hard: Option<ClsMatch>, left: seq<RulePtr>, wc: BitSet, safe: bool)
    requires EnvOk(e) && Among(left, soft)
    ensures forall b: nat :: b in Settle(e, f, hard, left, wc, safe).wc ==> b in wc || ForConjunction(e, f, soft, b)
    decreases TotalLen(left)
  {
    hide EnvOk, Try, Search, TopSets, Fallen, FallHard, Dropped, TopOf, TotalLen, AllFallen, Among, ForConjunction, Named;
    DroppedIsAlive(left, 0, Priority(hard));
    DroppedAmong(left, 0, Priority(hard), soft);
    var now := Dropped(left, 0, Priority(hard));
    if now != [] {
      var p := TopOf(now, |now|);
      TopSetsNamed(now, |now|, p, soft);
      TryWithin(e, f, soft, TopSets(now, |now|, p), 0, wc, safe);
      var s := Try(e, f, TopSets(now, |now|, p), 0, wc, safe);
      if s.found.None? {
        TopIs(now, |now|);
        FallBackShrinks(now, p, e.version, AllFallen(now, e.version, p));
        FallenAmong(now, e.version, p, soft);
        SettleWithin(e, f, soft, FallHard(now, e.version, p, hard, |now|), AllFallen(now, e.version, p), s.wc, s.safe);
      }
    }
  }

  /** A lookup un-wildcards only bits of the tables that it searches. */
  lemma LookupWithin(e: Env, f: BitSet, wc: BitSet)
    requires EnvOk(e)
    ensures forall b: nat :: b in LookupRun(e, f, wc).wc ==> b in wc || LookedAt(e, f, b)
  {
    hide EnvOk, Settle, Search, SearchFolds, SearchSafe, ForConjunction, InSearch;
    var s := Search(e, f, true);
    SearchWithin(e, f, true, wc);
    SettleWithin(e, f, s.soft, s.hard, s.soft, SearchFolds(e, f, true, wc), SearchSafe(e, f, true, wc));
  }
}
