/** The soft match loop of classifier_lookup__: conjunctive matches are settled
    from the highest priority down, falling back to lower-priority rules of the
    same lists. */
module SoftMatches {
  import opened Basics
  import opened Flows
  import opened Subtables
  import opened NewSubtable
  import opened ClassifierState
  import opened ClassifierLookup
  import opened LookupFunction
  import opened BestMatch
  import C = Conjunctions

  // ---- Deleting soft matches ----

  /** Keeps exactly the soft matches above priority `p`. */
  method DropSettled(soft0: seq<RulePtr>, p: int) returns (soft: seq<RulePtr>)
    ensures forall s :: s in soft <==> s in soft0 && Alive(s, p)
    ensures soft == Dropped(soft0, 0, p) && TotalLen(soft) <= TotalLen(soft0)
  {
    soft := soft0;
    var i := 0;
    while i < |soft|
      invariant i <= |soft| && TotalLen(soft) <= TotalLen(soft0) && Dropped(soft0, 0, p) == Dropped(soft, i, p)
      invariant forall j :: 0 <= j < i ==> Alive(soft[j], p)
      invariant forall s :: s in soft ==> s in soft0
      invariant forall s :: s in soft0 && Alive(s, p) ==> s in soft
      decreases |soft| - i
    {
      if Alive(soft[i], p) {
        i := i + 1;
      } else {
        MoveLastKeeps(soft, i);
        soft := MoveLast(soft, i);
      }
    }
  }

  // ---- The highest-priority soft matches ----

  /** The soft matches themselves. */
  ghost function TopHeads(soft: seq<RulePtr>, n: nat, p: int): seq<ClsMatch>
    requires n <= |soft|
  {
    if n == 0 then []
    else if AtTop(soft[n - 1], p) then TopHeads(soft, n - 1, p) + [soft[n - 1][0]]
    else TopHeads(soft, n - 1, p)
  }

  ghost function SetsOf(heads: seq<ClsMatch>): (sets: seq<C.ConjSet>)
    ensures |sets| == |heads| && forall i :: 0 <= i < |heads| ==> sets[i] == heads[i].conj
  {
    seq(|heads|, i requires 0 <= i < |heads| => heads[i].conj)
  }

  lemma {:induction false} TopSetsOfHeads(soft: seq<RulePtr>, n: nat, p: int)
    requires n <= |soft|
    ensures TopSets(soft, n, p) == SetsOf(TopHeads(soft, n, p))
  {
    if n > 0 { TopSetsOfHeads(soft, n - 1, p); }
  }

  lemma {:induction false} HeadIsTop(soft: seq<RulePtr>, n: nat, p: int, k: nat)
    requires k < n <= |soft| && AtTop(soft[k], p)
    ensures soft[k][0] in TopHeads(soft, n, p)
    decreases n
  {
    if k < n - 1 { HeadIsTop(soft, n - 1, p, k); }
  }

  lemma {:induction false} TopIsHead(soft: seq<RulePtr>, n: nat, p: int, x: ClsMatch) returns (k: nat)
    requires n <= |soft| && x in TopHeads(soft, n, p)
    ensures k < n && AtTop(soft[k], p) && soft[k][0] == x
    decreases n
  {
    if AtTop(soft[n - 1], p) && soft[n - 1][0] == x {
      k := n - 1;
    } else {
      k := TopIsHead(soft, n - 1, p, x);
    }
  }

  lemma {:induction false} NoneAtTop(soft: seq<RulePtr>, n: nat, p: int)
    requires n <= |soft| && forall i :: 0 <= i < n ==> !AtTop(soft[i], p)
    ensures TopSets(soft, n, p) == []
  {
    if n > 0 { NoneAtTop(soft, n - 1, p); }
  }

  lemma {:induction false} TopSetsFrom(soft: seq<RulePtr>, n: nat, p: int, i: nat) returns (k: nat)
    requires n <= |soft| && i < |TopSets(soft, n, p)|
    ensures k < n && AtTop(soft[k], p) && TopSets(soft, n, p)[i] == soft[k][0].conj
    decreases n
  {
    if AtTop(soft[n - 1], p) && i == |TopSets(soft, n - 1, p)| {
      k := n - 1;
    } else {
      k := TopSetsFrom(soft, n - 1, p, i);
    }
  }

  method TopPriority(soft: seq<RulePtr>, hardPri: int) returns (softPri: int, nSoftPri: nat)
    requires soft != [] && hardPri >= INT_MIN && forall i :: 0 <= i < |soft| ==> Alive(soft[i], hardPri)
    ensures softPri > hardPri && HeadsBelow(soft, softPri)
    ensures exists i :: 0 <= i < |soft| && AtTop(soft[i], softPri)
    ensures nSoftPri == |TopSets(soft, |soft|, softPri)|
    ensures (forall i :: 0 <= i < |soft| ==> soft[i] != []) && softPri == TopOf(soft, |soft|)
  {
    forall i | 0 <= i < |soft| ensures soft[i] != [] { assert Alive(soft[i], hardPri); }
    softPri, nSoftPri := INT_MIN, 0;
    for i := 0 to |soft|
      invariant forall j :: 0 <= j < i ==> soft[j][0].priority <= softPri
      invariant i > 0 ==> exists j :: 0 <= j < i && AtTop(soft[j], softPri)
      invariant nSoftPri == |TopSets(soft, i, softPri)|
      invariant if i == 0 then softPri == INT_MIN else softPri > hardPri && softPri == TopOf(soft, i)
    {
      assert Alive(soft[i], hardPri);
      if soft[i][0].priority > softPri {
        softPri, nSoftPri := soft[i][0].priority, 1;
        NoneAtTop(soft, i, softPri);
        assert AtTop(soft[i], softPri);
      } else if soft[i][0].priority == softPri {
        nSoftPri := nSoftPri + 1;
        assert AtTop(soft[i], softPri);
      }
    }
  }

  // ---- The nested lookup with a conjunction id ----

  /** Another matching rule of the same subtable, part of conjunctions, is at
      least as high. */
  ghost predicate HasSoftTwin(view: View, version: nat, f: BitSet, p: (BitSet, ClsMatch))
  {
    exists q :: Matching(view, version, f, q) && q.0 == p.0 && q.1.conj != [] && q.1.priority >= p.1.priority
  }

  /** The best match when conjunctive matches do not count. */
  ghost predicate NestedBest(view: View, version: nat, f: BitSet, r: Option<ClsMatch>)
  {
    && (r.Some? ==> r.value.conj == [] && exists m :: Matching(view, version, f, (m, r.value)))
    && (forall p :: Matching(view, version, f, p) ==>
          INT_MIN < p.1.priority && (p.1.priority <= Priority(r) || HasSoftTwin(view, version, f, p)))
  }

  lemma TwinOfShadow(c: Config, tables: Tables, order: seq<Entry>, k: nat, version: nat, f: BitSet, p: (BitSet, ClsMatch))
    requires Ready(c, tables, order) && k < |order| && Behind(Answer(c, tables, order, k, version, f), p.1)
    requires order[k].mask == p.0
    ensures HasSoftTwin(Contents(tables), version, f, p)
  {
    hide Ready, Answer, Contents, Matching;
    var r := Answer(c, tables, order, k, version, f);
    HeadMatching(c, tables, order, k, version, f, r[0]);
    assert Matching(Contents(tables), version, f, (p.0, r[0]));
  }

  lemma StopsNested(c: Config, tables: Tables, order: seq<Entry>, n: nat, version: nat, f: BitSet,
                    hard: Option<ClsMatch>, soft: seq<RulePtr>)
    requires Ready(c, tables, order) && n <= |order| && Searched(c, tables, order, n, version, f, hard, soft, false)
    requires RestBelow(order, n, Priority(hard))
    ensures NestedBest(Contents(tables), version, f, hard)
  {
    hide TablesOk, OrderOk, Answer, Contents, Agree, HasSoftTwin, Matching;
    HardMatches(c, tables, order, n, version, f, hard, soft, false);
    forall p | Matching(Contents(tables), version, f, p)
      ensures INT_MIN < p.1.priority && (p.1.priority <= Priority(hard) || HasSoftTwin(Contents(tables), version, f, p))
    {
      Reached(c, tables, order, n, version, f, hard, soft, false, p);
      ReachedHere(c, tables, order, n, version, f, hard, soft, p);
    }
  }

  lemma ReachedHere(c: Config, tables: Tables, order: seq<Entry>, n: nat, version: nat, f: BitSet,
                    hard: Option<ClsMatch>, soft: seq<RulePtr>, p: (BitSet, ClsMatch))
    requires Ready(c, tables, order) && n <= |order| && Searched(c, tables, order, n, version, f, hard, soft, false)
    requires RestBelow(order, n, Priority(hard)) && Matching(Contents(tables), version, f, p)
    ensures p.1.priority <= Priority(hard) || HasSoftTwin(Contents(tables), version, f, p)
  {
    hide TablesOk, OrderOk, Answer, Contents, Agree, HasSoftTwin;
    StoredBounds(c, tables, p);
    var k := PlaceOf(c, tables, order, p.0);
    if k < n {
      var r := Answer(c, tables, order, k, version, f);
      MatchingInAnswer(c, tables, order, k, version, f, p);
      assert Settled(r, hard, soft, false);
      if p.1.priority > Priority(hard) {
        TwinOfShadow(c, tables, order, k, version, f, p);
      }
    }
  }

  method LookupNested(c: Config, tables: Tables, order: seq<Entry>, tries: seq<T.Trie>, version: nat, f: BitSet, wc: BitSet)
    returns (r: Option<ClsMatch>, wc': BitSet)
    requires ConfigOk(c) && Ready(c, tables, order) && CountsOk(c, tables, tries)
    ensures wc <= wc' && NestedBest(Contents(tables), version, f, r) && TriesFit(c, tables, tries)
    ensures forall setId: SetConjId, size: nat -> nat :: var e := Env(c, tables, order, tries, version, setId, size);
              r == Search(e, f, false).hard && wc' == SearchFolds(e, f, false, wc)
  {
    hide ConfigOk, Ready, CountsOk, NestedBest, Searched, AllSound, TriesFit, MainLoop, FoldedBy, Stop;
    var soft, softPri;
    ghost var n;
    r, soft, softPri, wc', n := SearchTables(c, tables, order, tries, version, f, wc, false);
    StopsNested(c, tables, order, n, version, f, r, soft);
  }

  // ---- The scan of the highest-priority soft matches ----

  ghost predicate SetsFine(soft: seq<RulePtr>, size: nat -> nat)
  {
    forall i :: 0 <= i < |soft| ==> IsSoft(soft[i]) && C.SetOk(soft[i][0].conj, size)
  }

  lemma TopSetsOk(soft: seq<RulePtr>, n: nat, p: int, size: nat -> nat)
    requires n <= |soft| && SetsFine(soft, size)
    ensures C.SetsOk(TopSets(soft, n, p), size)
  {
    hide TopSets;
    forall i | 0 <= i < |TopSets(soft, n, p)| ensures C.SetOk(TopSets(soft, n, p)[i], size) {
      var k := TopSetsFrom(soft, n, p, i);
    }
  }

  lemma {:induction false} TopSetsGrow(soft: seq<RulePtr>, n: nat, n': nat, p: int)
    requires n <= n' <= |soft|
    ensures TopSets(soft, n, p) <= TopSets(soft, n', p)
    decreases n' - n
  {
    if n < n' { TopSetsGrow(soft, n, n' - 1, p); }
  }

  /** The conjunction that the scan of set `j` reports, if any, has no match of its
      own. */
  ghost predicate FailsAt(view: View, version: nat, f: BitSet, setId: SetConjId, size: nat -> nat, sets: seq<C.ConjSet>, j: nat)
    requires j < |sets|
  {
    var t := C.ReportOf(sets, size, j);
    t.Some? ==> NestedBest(view, version, setId(f, t.value), None)
  }

  /** Scans the highest-priority soft matches and looks each reported conjunction up
      with its id in the flow, until one has a match: in the set at place `n`. */
  method ResolveTop(c: Config, tables: Tables, order: seq<Entry>, tries: seq<T.Trie>, version: nat, f: BitSet, wc: BitSet,
                    setId: SetConjId, soft: seq<RulePtr>, softPri: int, nSoftPri: nat, ghost size: nat -> nat, ghost safe: bool)
    returns (r: Option<ClsMatch>, id: nat, wc': BitSet, ghost n: nat)
    requires ConfigOk(c) && Ready(c, tables, order) && CountsOk(c, tables, tries) && TriesFit(c, tables, tries)
    requires SetsFine(soft, size) && nSoftPri == |TopSets(soft, |soft|, softPri)|
    ensures wc <= wc' && n <= |TopSets(soft, |soft|, softPri)|
    ensures forall j: nat :: j < n ==> FailsAt(Contents(tables), version, f, setId, size, TopSets(soft, |soft|, softPri), j)
    ensures r.None? ==> n == |TopSets(soft, |soft|, softPri)|
    ensures r.Some? ==> n < |TopSets(soft, |soft|, softPri)| && C.ReportOf(TopSets(soft, |soft|, softPri), size, n) == Some(id)
                        && NestedBest(Contents(tables), version, setId(f, id), r)
    ensures var e := Env(c, tables, order, tries, version, setId, size);
            var s := Try(e, f, TopSets(soft, |soft|, softPri), 0, wc, safe);
            wc' == s.wc && s.found == (if r.Some? then Some(id) else None) && (r.Some? ==> r == Search(e, setId(f, id), false).hard)
  {
    hide ConfigOk, Ready, CountsOk, NestedBest, C.Exact, C.SetOk, C.Taken, C.ReportOf, C.Scan, TriesFit, Search, SearchFolds, SearchSafe;
    ghost var e := Env(c, tables, order, tries, version, setId, size);
    ghost var safe' := safe;
    r, id, wc' := None, 0, wc;
    var matches: C.Matches := map[];
    ghost var all := TopSets(soft, |soft|, softPri);
    TopSetsOk(soft, |soft|, softPri, size);
    C.NothingTaken(all, size);
    n := 0;
    var i := 0;
    while i < |soft|
      invariant i <= |soft| && wc <= wc' && r.None? && n == |TopSets(soft, i, softPri)| && TopSets(soft, i, softPri) <= all
      invariant C.Exact(matches, all, size, |all|, n, 0)
      invariant forall j: nat :: j < n ==> FailsAt(Contents(tables), version, f, setId, size, all, j)
      invariant Try(e, f, all, 0, wc, safe) == Try(e, f, all, n, wc', safe')
    {
      TopSetsGrow(soft, i + 1, |soft|, softPri);
      if soft[i][0].priority == softPri {
        assert all[n] == soft[i][0].conj;
        assert C.InLine(soft[i][0].conj, nSoftPri, matches, all, size, n);
        var found;
        found, matches := C.FindConjunctiveMatch(soft[i][0].conj, nSoftPri, matches);
        if found.Some? {
          id := found.value;
          safe' := safe' && SearchSafe(e, setId(f, id), false, wc');
          r, wc' := LookupNested(c, tables, order, tries, version, setId(f, id), wc');
          if r.Some? { return; }
        }
        n := n + 1;
      }
      i := i + 1;
    }
  }

  // ---- Falling back to lower-priority rules of the same lists ----

  method FallBack(soft: seq<RulePtr>, softPri: int, version: nat, hard: Option<ClsMatch>)
    returns (soft': seq<RulePtr>, hard': Option<ClsMatch>)
    ensures |soft'| == |soft| && forall i :: 0 <= i < |soft| ==> soft'[i] == Fallen(soft[i], version, softPri)
    ensures soft' == AllFallen(soft, version, softPri) && hard' == FallHard(soft, version, softPri, hard, |soft|)
    ensures Priority(hard') >= Priority(hard)
    ensures forall i, x :: 0 <= i < |soft| && FallsTo(soft[i], version, softPri, x) ==> x.priority <= Priority(hard')
    ensures hard' == hard || (hard'.Some? && exists i :: 0 <= i < |soft| && FallsTo(soft[i], version, softPri, hard'.value))
  {
    hide Next;
    soft', hard' := soft, hard;
    for i := 0 to |soft|
      invariant |soft'| == |soft| && Priority(hard') >= Priority(hard) && hard' == FallHard(soft, version, softPri, hard, i)
      invariant forall j :: 0 <= j < i ==> soft'[j] == Fallen(soft[j], version, softPri)
      invariant forall j :: i <= j < |soft| ==> soft'[j] == soft[j]
      invariant forall j, x :: 0 <= j < i && FallsTo(soft[j], version, softPri, x) ==> x.priority <= Priority(hard')
      invariant hard' == hard || (hard'.Some? && exists j :: 0 <= j < i && FallsTo(soft[j], version, softPri, hard'.value))
    {
      if AtTop(soft'[i], softPri) {
        var next := Next(soft[i], version);
        if next != [] && next[0].conj == [] {
          soft' := soft'[i := []];
          if next[0].priority > Priority(hard') {
            hard' := Some(next[0]);
            assert FallsTo(soft[i], version, softPri, hard'.value);
          }
        } else {
          soft' := soft'[i := next];
        }
      }
    }
  }

  // ---- Rounds ----

  /** One turn of the loop: the soft matches that were tried, all of priority `pri`, in
      the order in which they were scanned. */
  datatype Round = Round(pri: int, heads: seq<ClsMatch>)

  ghost predicate Tried(rounds: seq<Round>, x: ClsMatch)
  {
    exists k :: 0 <= k < |rounds| && x in rounds[k].heads
  }

  ghost predicate SoftMatch(view: View, version: nat, f: BitSet, pri: int, x: ClsMatch)
  {
    x.conj != [] && x.priority == pri && exists m :: Matching(view, version, f, (m, x))
  }

  ghost predicate RoundOk(view: View, version: nat, f: BitSet, rd: Round)
  {
    forall x :: x in rd.heads ==> SoftMatch(view, version, f, rd.pri, x)
  }

  ghost predicate RoundsOk(view: View, version: nat, f: BitSet, rounds: seq<Round>)
  {
    forall k :: 0 <= k < |rounds| ==> RoundOk(view, version, f, rounds[k])
  }

  /** No conjunction that the round reported has a match of its own. */
  ghost predicate RoundFails(view: View, version: nat, f: BitSet, setId: SetConjId, size: nat -> nat, rd: Round)
  {
    forall j: nat :: j < |rd.heads| ==> FailsAt(view, version, f, setId, size, SetsOf(rd.heads), j)
  }

  ghost predicate AllFail(view: View, version: nat, f: BitSet, setId: SetConjId, size: nat -> nat, rounds: seq<Round>)
  {
    forall k :: 0 <= k < |rounds| ==> RoundFails(view, version, f, setId, size, rounds[k])
  }

  /** No list has two soft matches of priority `pri`, as is so as long as writers keep the
      versions of equal rules apart. */
  ghost predicate OnePerList(view: View, version: nat, f: BitSet, pri: int)
  {
    forall p, q :: SoftPair(view, version, f, pri, p) && SoftPair(view, version, f, pri, q) && p.0 == q.0 ==> p == q
  }

  ghost predicate SoftPair(view: View, version: nat, f: BitSet, pri: int, p: (BitSet, ClsMatch))
  {
    Matching(view, version, f, p) && p.1.conj != [] && p.1.priority == pri
  }

  /** Each rule is stored once. */
  ghost predicate OnceStored(view: View) { forall p, q :: p in view && q in view && p.1.rule == q.1.rule ==> p == q }

  /** The round has every soft match of its priority. */
  ghost predicate RoundFull(view: View, version: nat, f: BitSet, rd: Round)
  {
    forall x :: SoftMatch(view, version, f, rd.pri, x) ==> x in rd.heads
  }

  /** A round is full exactly when no list has two soft matches of its priority. */
  ghost predicate FullExactly(view: View, version: nat, f: BitSet, rd: Round)
  {
    && (OnePerList(view, version, f, rd.pri) ==> RoundFull(view, version, f, rd))
    && (OnceStored(view) && RoundFull(view, version, f, rd) ==> OnePerList(view, version, f, rd.pri))
  }

  ghost predicate RoundsFull(view: View, version: nat, f: BitSet, rounds: seq<Round>)
  {
    forall k :: 0 <= k < |rounds| ==> FullExactly(view, version, f, rounds[k])
  }

  /** Every soft match above priority `p` had its round. */
  ghost predicate AllTried(view: View, version: nat, f: BitSet, rounds: seq<Round>, p: int)
  {
    forall q :: Matching(view, version, f, q) && q.1.conj != [] && q.1.priority > p ==> Tried(rounds, q.1)
  }

  /** The lookup ended without a conjunction: every soft match above the result was
      tried, and no conjunction reported on the way has a match of its own. */
  ghost predicate Exhausted(view: View, version: nat, f: BitSet, setId: SetConjId, size: nat -> nat, r: Option<ClsMatch>, rounds: seq<Round>)
  {
    && RoundsOk(view, version, f, rounds) && RoundsFull(view, version, f, rounds)
    && AllTried(view, version, f, rounds, Priority(r)) && AllFail(view, version, f, setId, size, rounds)
  }

  /** The lookup was settled by conjunction `id`: in the last round, by the scan of the
      first set that reported a conjunction with a match of its own, after every soft
      match of higher priority had been tried in vain. */
  ghost predicate Resolved(view: View, version: nat, f: BitSet, setId: SetConjId, size: nat -> nat, id: nat, r: Option<ClsMatch>,
                           rounds: seq<Round>)
  {
    && r.Some? && NestedBest(view, version, setId(f, id), r) && rounds != []
    && RoundsOk(view, version, f, rounds) && RoundsFull(view, version, f, rounds)
    && var last, before := rounds[|rounds| - 1], rounds[..|rounds| - 1];
       && AllTried(view, version, f, before, last.pri) && AllFail(view, version, f, setId, size, before)
       && NoneAbove(view, version, f, last.pri)
       && exists n: nat :: FirstToSettle(view, version, f, setId, size, last, n, id)
  }

  /** No hard match is above priority `pri`. */
  ghost predicate NoneAbove(view: View, version: nat, f: BitSet, pri: int)
  {
    forall p :: Matching(view, version, f, p) && p.1.conj == [] ==> p.1.priority <= pri
  }

  ghost predicate FirstToSettle(view: View, version: nat, f: BitSet, setId: SetConjId, size: nat -> nat, rd: Round, n: nat, id: nat)
  {
    && n < |rd.heads| && C.ReportOf(SetsOf(rd.heads), size, n) == Some(id)
    && forall j: nat :: j < n ==> FailsAt(view, version, f, setId, size, SetsOf(rd.heads), j)
  }

  /** What a lookup promises: the best hard match after all soft matches above it were
      tried in vain, or what the first conjunction with a match of its own gives. */
  ghost predicate Outcome(view: View, version: nat, f: BitSet, setId: SetConjId, size: nat -> nat, r: Option<ClsMatch>,
                          resolved: Option<nat>, rounds: seq<Round>)
  {
    && (resolved.None? ==> IsBestHard(view, version, f, r) && Exhausted(view, version, f, setId, size, r, rounds))
    && (resolved.Some? ==> Resolved(view, version, f, setId, size, resolved.value, r, rounds))
  }

  // ---- The loop ----

  /** Null, or a list of matching rules that starts with a soft match. */
  ghost predicate SoftOk(view: View, version: nat, f: BitSet, soft: seq<RulePtr>)
  {
    forall i :: 0 <= i < |soft| ==> soft[i] == [] || (PtrOk(view, version, f, soft[i]) && IsSoft(soft[i]))
  }

  ghost predicate HardOk(view: View, version: nat, f: BitSet, hard: Option<ClsMatch>)
  {
    hard.Some? ==> hard.value.conj == [] && exists m :: Matching(view, version, f, (m, hard.value))
  }

  ghost predicate InSoft(soft: seq<RulePtr>, x: ClsMatch)
  {
    exists s :: s in soft && x in s
  }

  /** No match is lost: it is not above the best hard one so far, or in a list that is
      still to be considered, or is a soft one that had its round. */
  ghost predicate Pending(view: View, version: nat, f: BitSet, hard: Option<ClsMatch>, soft: seq<RulePtr>, rounds: seq<Round>)
  {
    forall p :: Matching(view, version, f, p) ==>
      INT_MIN < p.1.priority && (p.1.priority <= Priority(hard) || InSoft(soft, p.1) || Tried(rounds, p.1))
  }

  ghost predicate ConjSetsOk(view: View, size: nat -> nat)
  {
    forall p :: p in view ==> C.SetOk(p.1.conj, size)
  }

  lemma PtrHeadMatching(view: View, version: nat, f: BitSet, s: RulePtr) returns (m: BitSet)
    requires PtrOk(view, version, f, s) && s != []
    ensures Matching(view, version, f, (m, s[0]))
  {
    m :| AllIn(view, m, f, s);
  }

  lemma NextIsPtr(view: View, version: nat, f: BitSet, s: RulePtr)
    requires PtrOk(view, version, f, s) && s != []
    ensures PtrOk(view, version, f, Next(s, version))
  {
    var m :| AllIn(view, m, f, s);
    SuffixIsPtr(view, m, version, f, s[1..]);
  }

  lemma DropKeeps(view: View, version: nat, f: BitSet, hard: Option<ClsMatch>, soft0: seq<RulePtr>, soft: seq<RulePtr>, rounds: seq<Round>)
    requires SoftOk(view, version, f, soft0) && Pending(view, version, f, hard, soft0, rounds)
    requires forall s :: s in soft <==> s in soft0 && Alive(s, Priority(hard))
    ensures SoftOk(view, version, f, soft) && Pending(view, version, f, hard, soft, rounds)
  {
    hide PtrOk, Matching, Tried;
    forall i | 0 <= i < |soft| ensures soft[i] == [] || (PtrOk(view, version, f, soft[i]) && IsSoft(soft[i])) {
      assert soft[i] in soft;
      var j :| 0 <= j < |soft0| && soft0[j] == soft[i];
    }
    forall p | Matching(view, version, f, p) && p.1.priority > Priority(hard) && !Tried(rounds, p.1) ensures InSoft(soft, p.1) {
      var s :| s in soft0 && p.1 in s;
      var j :| 0 <= j < |soft0| && soft0[j] == s;
      TopOfPtr(view, version, f, s, p.1);
    }
  }

  lemma TopOfPtr(view: View, version: nat, f: BitSet, s: RulePtr, x: ClsMatch)
    requires PtrOk(view, version, f, s) && x in s
    ensures s[0].priority >= x.priority
  {
    FirstIsTop(s, x);
  }

  lemma StaysInTail(s: RulePtr, version: nat, x: ClsMatch)
    requires s != [] && x in s && x != s[0] && x.Visible(version)
    ensures x in Next(s, version)
  {
    hide FirstVisible;
    assert x in s[1..];
    VisibleFromFirst(s[1..], version, x);
  }

  /** A rule in the list of a soft match survives the fall, unless it is the soft match
      itself. */
  lemma FallKeepsRule(view: View, version: nat, f: BitSet, softPri: int, s: RulePtr, x: ClsMatch)
    requires PtrOk(view, version, f, s) && x in s && x.Visible(version) && (AtTop(s, softPri) ==> x != s[0])
    ensures x in Fallen(s, version, softPri)
            || (AtTop(s, softPri) && Next(s, version) != [] && FallsTo(s, version, softPri, Next(s, version)[0])
                && x.priority <= Next(s, version)[0].priority)
  {
    hide PtrOk, Next, FirstVisible;
    if AtTop(s, softPri) {
      StaysInTail(s, version, x);
      NextIsPtr(view, version, f, s);
      TopOfPtr(view, version, f, Next(s, version), x);
    }
  }

  lemma FallKeeps(view: View, version: nat, f: BitSet, softPri: int, hard: Option<ClsMatch>, soft: seq<RulePtr>,
                  hard': Option<ClsMatch>, soft': seq<RulePtr>, rounds: seq<Round>)
    requires SoftOk(view, version, f, soft) && Pending(view, version, f, hard, soft, rounds)
    requires |soft'| == |soft| && forall i :: 0 <= i < |soft| ==> soft'[i] == Fallen(soft[i], version, softPri)
    requires Priority(hard') >= Priority(hard)
    requires forall i, x :: 0 <= i < |soft| && FallsTo(soft[i], version, softPri, x) ==> x.priority <= Priority(hard')
    ensures Pending(view, version, f, hard', soft', rounds + [Round(softPri, TopHeads(soft, |soft|, softPri))])
  {
    hide PtrOk, FallsTo, Fallen, AtTop, Next, TopHeads, Tried;
    var rd := Round(softPri, TopHeads(soft, |soft|, softPri));
    forall p | Matching(view, version, f, p) && p.1.priority > Priority(hard') && !Tried(rounds + [rd], p.1) ensures InSoft(soft', p.1) {
      TriedMore(rounds, rd, p.1);
      var s :| s in soft && p.1 in s;
      var j :| 0 <= j < |soft| && soft[j] == s;
      if AtTop(s, softPri) { HeadIsTop(soft, |soft|, softPri, j); }
      FallKeepsRule(view, version, f, softPri, s, p.1);
      assert soft'[j] in soft';
    }
  }

  lemma TriedMore(rounds: seq<Round>, rd: Round, x: ClsMatch)
    ensures Tried(rounds + [rd], x) <==> Tried(rounds, x) || x in rd.heads
  {
    var now := rounds + [rd];
    if Tried(rounds, x) {
      var k :| 0 <= k < |rounds| && x in rounds[k].heads;
      assert x in now[k].heads;
    }
    if x in rd.heads { assert x in now[|rounds|].heads; }
  }

  lemma FallIsOk(view: View, version: nat, f: BitSet, softPri: int, hard: Option<ClsMatch>, soft: seq<RulePtr>,
                 hard': Option<ClsMatch>, soft': seq<RulePtr>)
    requires SoftOk(view, version, f, soft) && HardOk(view, version, f, hard)
    requires |soft'| == |soft| && forall i :: 0 <= i < |soft| ==> soft'[i] == Fallen(soft[i], version, softPri)
    requires hard' == hard || (hard'.Some? && exists i :: 0 <= i < |soft| && FallsTo(soft[i], version, softPri, hard'.value))
    ensures SoftOk(view, version, f, soft') && HardOk(view, version, f, hard')
  {
    hide PtrOk, Matching, Next;
    forall i | 0 <= i < |soft| ensures soft'[i] == [] || (PtrOk(view, version, f, soft'[i]) && IsSoft(soft'[i])) {
      if soft[i] != [] { NextIsPtr(view, version, f, soft[i]); }
    }
    if hard' != hard {
      var i :| 0 <= i < |soft| && FallsTo(soft[i], version, softPri, hard'.value);
      NextIsPtr(view, version, f, soft[i]);
      var m := PtrHeadMatching(view, version, f, Next(soft[i], version));
    }
  }

  lemma AliveSetsFine(view: View, version: nat, f: BitSet, soft: seq<RulePtr>, size: nat -> nat, p: int)
    requires SoftOk(view, version, f, soft) && ConjSetsOk(view, size) && forall s :: s in soft ==> Alive(s, p)
    ensures SetsFine(soft, size) && forall i :: 0 <= i < |soft| ==> Alive(soft[i], p)
  {
    hide PtrOk, C.SetOk;
    forall i | 0 <= i < |soft| ensures IsSoft(soft[i]) && C.SetOk(soft[i][0].conj, size) {
      assert soft[i] in soft;
      var m := PtrHeadMatching(view, version, f, soft[i]);
      assert (m, soft[i][0]) in view;
    }
  }

  lemma RoundIsOk(view: View, version: nat, f: BitSet, soft: seq<RulePtr>, pri: int)
    requires SoftOk(view, version, f, soft)
    ensures RoundOk(view, version, f, Round(pri, TopHeads(soft, |soft|, pri)))
  {
    hide PtrOk, Matching, TopHeads;
    forall x | x in TopHeads(soft, |soft|, pri) ensures SoftMatch(view, version, f, pri, x) {
      var k := TopIsHead(soft, |soft|, pri, x);
      var m := PtrHeadMatching(view, version, f, soft[k]);
    }
  }

  /** All heads are below every priority that had its round, except where a list has two
      soft matches of that priority. */
  ghost predicate Lowered(view: View, version: nat, f: BitSet, soft: seq<RulePtr>, rounds: seq<Round>)
  {
    forall i, k :: 0 <= i < |soft| && 0 <= k < |rounds| && soft[i] != [] ==> Under(view, version, f, soft[i][0].priority, rounds[k].pri)
  }

  ghost predicate Under(view: View, version: nat, f: BitSet, p: int, pri: int)
  {
    p < pri || (p == pri && !OnePerList(view, version, f, pri))
  }

  /** With one soft match of a priority in a list, a round has every soft match of its
      priority. */
  lemma RoundIsFull(view: View, version: nat, f: BitSet, hard: Option<ClsMatch>, soft: seq<RulePtr>, rounds: seq<Round>, pri: int)
    requires SoftOk(view, version, f, soft) && Pending(view, version, f, hard, soft, rounds) && RoundsOk(view, version, f, rounds)
    requires Priority(hard) < pri && HeadsBelow(soft, pri) && (exists i :: 0 <= i < |soft| && AtTop(soft[i], pri))
    requires OnePerList(view, version, f, pri) && Lowered(view, version, f, soft, rounds)
    ensures RoundFull(view, version, f, Round(pri, TopHeads(soft, |soft|, pri)))
  {
    hide PtrOk, TopHeads, OnePerList, Matching, SoftOk, Pending;
    forall x | SoftMatch(view, version, f, pri, x) ensures x in TopHeads(soft, |soft|, pri) {
      NotYetTried(view, version, f, soft, rounds, pri, x);
      var j := InList(view, version, f, hard, soft, rounds, pri, x);
      HeadIsTop(soft, |soft|, pri, j);
    }
  }

  lemma NotYetTried(view: View, version: nat, f: BitSet, soft: seq<RulePtr>, rounds: seq<Round>, pri: int, x: ClsMatch)
    requires RoundsOk(view, version, f, rounds) && Lowered(view, version, f, soft, rounds) && x.priority == pri
    requires OnePerList(view, version, f, pri) && exists i :: 0 <= i < |soft| && AtTop(soft[i], pri)
    ensures !Tried(rounds, x)
  {
    hide Matching, OnePerList;
  }

  /** A soft match of the highest priority is the head of its list. */
  lemma InList(view: View, version: nat, f: BitSet, hard: Option<ClsMatch>, soft: seq<RulePtr>, rounds: seq<Round>, pri: int, x: ClsMatch)
    returns (j: nat)
    requires SoftOk(view, version, f, soft) && Pending(view, version, f, hard, soft, rounds) && !Tried(rounds, x)
    requires Priority(hard) < pri && HeadsBelow(soft, pri) && OnePerList(view, version, f, pri) && SoftMatch(view, version, f, pri, x)
    ensures j < |soft| && AtTop(soft[j], pri) && soft[j][0] == x
  {
    hide PtrOk, OnePerList, Tried;
    var m :| Matching(view, version, f, (m, x));
    assert InSoft(soft, x);
    var s :| s in soft && x in s;
    j :| 0 <= j < |soft| && soft[j] == s;
    TopOfPtr(view, version, f, s, x);
    SameAsHead(view, version, f, s, x, pri);
  }

  lemma SameAsHead(view: View, version: nat, f: BitSet, s: RulePtr, x: ClsMatch, pri: int)
    requires PtrOk(view, version, f, s) && IsSoft(s) && x in s && x.Visible(version) && x.conj != []
    requires OnePerList(view, version, f, pri) && s[0].priority == x.priority == pri
    ensures s[0] == x
  {
    var m :| AllIn(view, m, f, s);
    assert SoftPair(view, version, f, pri, (m, s[0])) && SoftPair(view, version, f, pri, (m, x));
  }

  /** After the fall heads are below the round's priority, but for second soft matches. */
  lemma FallLowers(view: View, version: nat, f: BitSet, softPri: int, soft: seq<RulePtr>, soft': seq<RulePtr>, rounds: seq<Round>)
    requires SoftOk(view, version, f, soft) && Lowered(view, version, f, soft, rounds) && HeadsBelow(soft, softPri)
    requires |soft'| == |soft| && forall i :: 0 <= i < |soft| ==> soft'[i] == Fallen(soft[i], version, softPri)
    ensures Lowered(view, version, f, soft', rounds + [Round(softPri, TopHeads(soft, |soft|, softPri))])
  {
    hide PtrOk, OnePerList, TopHeads, Next, SoftOk;
    forall i | 0 <= i < |soft| && soft'[i] != []
      ensures soft[i] != [] && soft'[i][0].priority <= soft[i][0].priority && Under(view, version, f, soft'[i][0].priority, softPri)
    {
      if AtTop(soft[i], softPri) { NextIsLower(view, version, f, soft, i); }
    }
  }

  lemma NextIsLower(view: View, version: nat, f: BitSet, soft: seq<RulePtr>, i: nat)
    requires SoftOk(view, version, f, soft) && i < |soft| && soft[i] != []
    ensures var next := Next(soft[i], version);
            next != [] ==> next[0].priority <= soft[i][0].priority
                           && (next[0].conj != [] ==> Under(view, version, f, next[0].priority, soft[i][0].priority))
  {
    hide OnePerList, FirstVisible;
    var s := soft[i];
    var next := Next(s, version);
    if next != [] {
      NextIsIn(s, version);
      NextIsPtr(view, version, f, s);
      TopOfPtr(view, version, f, s, next[0]);
      if next[0].conj != [] && next[0].priority == s[0].priority && OnePerList(view, version, f, s[0].priority) {
        SameAsHead(view, version, f, s, next[0], s[0].priority);
      }
    }
  }

  /** The next rule of a list is another one of the list. */
  lemma NextIsIn(s: RulePtr, version: nat)
    requires s != [] && Next(s, version) != []
    ensures Next(s, version)[0] in s && exists k :: 0 < k < |s| && s[k] == Next(s, version)[0]
  {
    hide FirstVisible;
    var next := Next(s, version);
    assert next == s[1..][|s| - 1 - |next|..];
    assert next[0] == s[|s| - |next|];
  }

  // ---- Lists of different tables ----

  /** The heads of different lists are not stored under one mask. */
  ghost predicate Apart(view: View, soft: seq<RulePtr>)
  {
    forall i, j, m :: 0 <= i < |soft| && 0 <= j < |soft| && i != j ==> !BothUnder(view, soft[i], soft[j], m)
  }

  ghost predicate BothUnder(view: View, s: RulePtr, s': RulePtr, m: BitSet)
  {
    s != [] && s' != [] && (m, s[0]) in view && (m, s'[0]) in view
  }

  lemma {:induction false} DropApart(view: View, soft: seq<RulePtr>, i: nat, p: int)
    requires i <= |soft| && Apart(view, soft)
    ensures Apart(view, Dropped(soft, i, p))
    decreases |soft| - i
  {
    if i < |soft| {
      if Alive(soft[i], p) {
        DropApart(view, soft, i + 1, p);
      } else {
        MoveApart(view, soft, i);
        DropApart(view, MoveLast(soft, i), i, p);
      }
    }
  }

  lemma MoveApart(view: View, soft: seq<RulePtr>, i: nat)
    requires i < |soft| && Apart(view, soft)
    ensures Apart(view, MoveLast(soft, i))
  {
    hide BothUnder;
    var now, n := MoveLast(soft, i), |soft| - 1;
    forall a, b, m | 0 <= a < |now| && 0 <= b < |now| && a != b ensures !BothUnder(view, now[a], now[b], m) {
      assert now[a] == soft[if a == i then n else a] && now[b] == soft[if b == i then n else b];
    }
  }

  /** A list stays under its mask when it falls. */
  lemma FallApart(view: View, version: nat, f: BitSet, softPri: int, soft: seq<RulePtr>, soft': seq<RulePtr>)
    requires OnceStored(view) && SoftOk(view, version, f, soft) && Apart(view, soft)
    requires |soft'| == |soft| && forall i :: 0 <= i < |soft| ==> soft'[i] == Fallen(soft[i], version, softPri)
    ensures Apart(view, soft')
  {
    hide SoftOk, Fallen, OnceStored, BothUnder;
    forall i, j, m | 0 <= i < |soft'| && 0 <= j < |soft'| && i != j ensures !BothUnder(view, soft'[i], soft'[j], m) {
      assert !BothUnder(view, soft[i], soft[j], m);
      BothFall(view, version, f, softPri, soft, i, j, m);
    }
  }

  lemma BothFall(view: View, version: nat, f: BitSet, softPri: int, soft: seq<RulePtr>, i: nat, j: nat, m: BitSet)
    requires OnceStored(view) && SoftOk(view, version, f, soft) && i < |soft| && j < |soft|
    ensures BothUnder(view, Fallen(soft[i], version, softPri), Fallen(soft[j], version, softPri), m) ==> BothUnder(view, soft[i], soft[j], m)
  {
    hide SoftOk, Fallen, OnceStored;
    if BothUnder(view, Fallen(soft[i], version, softPri), Fallen(soft[j], version, softPri), m) {
      FallsUnder(view, version, f, softPri, soft, i, m);
      FallsUnder(view, version, f, softPri, soft, j, m);
    }
  }

  lemma FallsUnder(view: View, version: nat, f: BitSet, softPri: int, soft: seq<RulePtr>, i: nat, m: BitSet)
    requires OnceStored(view) && SoftOk(view, version, f, soft) && i < |soft|
    requires var s := Fallen(soft[i], version, softPri); s != [] && (m, s[0]) in view
    ensures soft[i] != [] && (m, soft[i][0]) in view
  {
    hide Next;
    var s := soft[i];
    if AtTop(s, softPri) {
      var m' :| AllIn(view, m', f, s);
      NextIsIn(s, version);
      var k :| 0 < k < |s| && s[k] == Next(s, version)[0];
      assert (m', s[k]) in view && (m', s[0]) in view;
    }
  }

  /** A full round has each list once, so that no list has two soft matches of its
      priority. */
  lemma FullMeansOne(view: View, version: nat, f: BitSet, soft: seq<RulePtr>, pri: int)
    requires Apart(view, soft) && RoundFull(view, version, f, Round(pri, TopHeads(soft, |soft|, pri)))
    ensures OnePerList(view, version, f, pri)
  {
    hide TopHeads, Matching;
    forall p, q | SoftPair(view, version, f, pri, p) && SoftPair(view, version, f, pri, q) && p.0 == q.0 ensures p == q {
      assert Matching(view, version, f, (p.0, p.1)) && Matching(view, version, f, (q.0, q.1));
      assert SoftMatch(view, version, f, pri, p.1) && SoftMatch(view, version, f, pri, q.1);
      var i := TopIsHead(soft, |soft|, pri, p.1);
      var j := TopIsHead(soft, |soft|, pri, q.1);
      BothStored(view, version, f, p, q);
      assert BothUnder(view, soft[i], soft[j], p.0);
      assert i == j;
    }
  }

  lemma BothStored(view: View, version: nat, f: BitSet, p: (BitSet, ClsMatch), q: (BitSet, ClsMatch))
    requires Matching(view, version, f, p) && Matching(view, version, f, q) && p.0 == q.0
    ensures (p.0, p.1) in view && (p.0, q.1) in view
  {
  }

  lemma RoundFullExactly(view: View, version: nat, f: BitSet, hard: Option<ClsMatch>, soft: seq<RulePtr>, rounds: seq<Round>, pri: int)
    requires SoftOk(view, version, f, soft) && Pending(view, version, f, hard, soft, rounds) && RoundsOk(view, version, f, rounds)
    requires Priority(hard) < pri && HeadsBelow(soft, pri) && (exists i :: 0 <= i < |soft| && AtTop(soft[i], pri))
    requires Lowered(view, version, f, soft, rounds) && (OnceStored(view) ==> Apart(view, soft))
    ensures FullExactly(view, version, f, Round(pri, TopHeads(soft, |soft|, pri)))
  {
    hide SoftOk, Pending, RoundsOk, OnePerList, Lowered, Apart, RoundFull, OnceStored, TopHeads;
    if OnePerList(view, version, f, pri) { RoundIsFull(view, version, f, hard, soft, rounds, pri); }
    if OnceStored(view) && RoundFull(view, version, f, Round(pri, TopHeads(soft, |soft|, pri))) { FullMeansOne(view, version, f, soft, pri); }
  }

  /** No hard match is above the priority that has its round. */
  lemma NoneAboveTop(view: View, version: nat, f: BitSet, hard: Option<ClsMatch>, soft: seq<RulePtr>, rounds: seq<Round>, pri: int)
    requires SoftOk(view, version, f, soft) && Pending(view, version, f, hard, soft, rounds) && Priority(hard) <= pri && HeadsBelow(soft, pri)
    requires RoundsOk(view, version, f, rounds)
    ensures NoneAbove(view, version, f, pri) && AllTried(view, version, f, rounds, pri)
  {
    hide PtrOk, Matching, Tried;
    forall p | Matching(view, version, f, p) && p.1.priority > pri ensures p.1.conj != [] && Tried(rounds, p.1) {
      if InSoft(soft, p.1) {
        var s :| s in soft && p.1 in s;
        var j :| 0 <= j < |soft| && soft[j] == s;
        TopOfPtr(view, version, f, s, p.1);
      }
      TriedIsSoft(view, version, f, rounds, p.1);
    }
  }

  lemma TriedIsSoft(view: View, version: nat, f: BitSet, rounds: seq<Round>, x: ClsMatch)
    requires RoundsOk(view, version, f, rounds) && Tried(rounds, x)
    ensures x.conj != []
  {
    hide Matching;
    var k :| 0 <= k < |rounds| && x in rounds[k].heads;
    assert RoundOk(view, version, f, rounds[k]);
  }

  lemma NothingPending(view: View, version: nat, f: BitSet, hard: Option<ClsMatch>, rounds: seq<Round>)
    requires HardOk(view, version, f, hard) && Pending(view, version, f, hard, [], rounds) && RoundsOk(view, version, f, rounds)
    ensures IsBestHard(view, version, f, hard) && AllTried(view, version, f, rounds, Priority(hard))
  {
    hide Matching, Tried, RoundsOk;
    forall p | Matching(view, version, f, p) && Tried(rounds, p.1) ensures p.1.conj != [] { TriedIsSoft(view, version, f, rounds, p.1); }
  }

  /** One more round that came to nothing. */
  lemma RoundDone(view: View, version: nat, f: BitSet, setId: SetConjId, size: nat -> nat, rounds: seq<Round>, rd: Round)
    requires RoundsOk(view, version, f, rounds) && RoundsFull(view, version, f, rounds) && RoundOk(view, version, f, rd)
    requires FullExactly(view, version, f, rd)
    ensures RoundsOk(view, version, f, rounds + [rd]) && RoundsFull(view, version, f, rounds + [rd])
    ensures AllFail(view, version, f, setId, size, rounds) && RoundFails(view, version, f, setId, size, rd) ==>
              AllFail(view, version, f, setId, size, rounds + [rd])
  {
    hide RoundOk, FullExactly, RoundFails;
  }

  method SettleSoft(c: Config, tables: Tables, order: seq<Entry>, tries: seq<T.Trie>, version: nat, f: BitSet, wc: BitSet,
                    setId: SetConjId, hard: Option<ClsMatch>, soft: seq<RulePtr>, ghost size: nat -> nat, ghost safe: bool)
    returns (r: Option<ClsMatch>, resolved: Option<nat>, wc': BitSet, ghost rounds: seq<Round>)
    requires ConfigOk(c) && Ready(c, tables, order) && CountsOk(c, tables, tries) && ConjSetsOk(Contents(tables), size)
    requires HardOk(Contents(tables), version, f, hard) && SoftOk(Contents(tables), version, f, soft)
    requires Pending(Contents(tables), version, f, hard, soft, []) && Priority(hard) >= INT_MIN && TriesFit(c, tables, tries)
    requires OnceStored(Contents(tables)) ==> Apart(Contents(tables), soft)
    ensures wc <= wc'
    ensures Outcome(Contents(tables), version, f, setId, size, r, resolved, rounds)
    ensures var s := Settle(Env(c, tables, order, tries, version, setId, size), f, hard, soft, wc, safe);
            r == s.r && resolved == s.resolved && wc' == s.wc
  {
    hide ConfigOk, Ready, CountsOk, ConjSetsOk, HardOk, SoftOk, Pending, SetsFine, Fallen, FallsTo, AtTop, Alive, HeadsBelow,
         IsBestHard, NestedBest, Contents, TopSets, TopHeads, Exhausted, Resolved, RoundsOk, RoundsFull, RoundOk, RoundFull,
         AllFail, RoundFails, FailsAt, Lowered, FullExactly, OnceStored, Apart, AllTried, NoneAbove, C.ReportOf, TriesFit, Settle, Try, Search,
         Dropped, TopOf, AllFallen, FallHard, TotalLen;
    ghost var e := Env(c, tables, order, tries, version, setId, size);
    ghost var safe' := safe;
    ghost var view := Contents(tables);
    r, resolved, wc', rounds := hard, None, wc, [];
    var left := soft;
    NoRounds(view, version, f, setId, size, soft);
    while true
      invariant HardOk(view, version, f, r) && SoftOk(view, version, f, left) && Pending(view, version, f, r, left, rounds)
      invariant Priority(r) >= INT_MIN && wc <= wc' && resolved.None?
      invariant RoundsOk(view, version, f, rounds) && RoundsFull(view, version, f, rounds) && AllFail(view, version, f, setId, size, rounds)
      invariant Lowered(view, version, f, left, rounds) && (OnceStored(view) ==> Apart(view, left))
      invariant Settle(e, f, hard, soft, wc, safe) == Settle(e, f, r, left, wc', safe')
      decreases TotalLen(left)
    {
      ghost var before := left;
      SettleTurn(e, f, r, left, wc', safe');
      left := DropSettled(left, Priority(r));
      DropKeeps(view, version, f, r, before, left, rounds);
      DropLowered(view, version, f, before, left, rounds);
      if OnceStored(view) { DropApart(view, before, 0, Priority(r)); }
      if left == [] { break; }
      AliveSetsFine(view, version, f, left, size, Priority(r));
      var softPri, nSoftPri := TopPriority(left, Priority(r));
      ghost var rd := Round(softPri, TopHeads(left, |left|, softPri));
      RoundIsOk(view, version, f, left, softPri);
      RoundFullExactly(view, version, f, r, left, rounds, softPri);
      RoundDone(view, version, f, setId, size, rounds, rd);
      var rule, id;
      ghost var n;
      ghost var tally := Try(e, f, TopSets(left, |left|, softPri), 0, wc', safe');
      rule, id, wc', n := ResolveTop(c, tables, order, tries, version, f, wc', setId, left, softPri, nSoftPri, size, safe');
      TopSetsOfHeads(left, |left|, softPri);
      if rule.Some? {
        NoneAboveTop(view, version, f, r, left, rounds, softPri);
        RoundSettles(view, version, f, setId, size, rounds, rd, n, id, rule);
        return rule, Some(id), wc', rounds + [rd];
      }
      RoundInVain(view, version, f, setId, size, rd);
      var left', r' := FallBack(left, softPri, version, r);
      FallBackShrinks(left, softPri, version, left');
      FallKeeps(view, version, f, softPri, r, left, r', left', rounds);
      FallIsOk(view, version, f, softPri, r, left, r', left');
      FallLowers(view, version, f, softPri, left, left', rounds);
      if OnceStored(view) { FallApart(view, version, f, softPri, left, left'); }
      left, r, rounds, safe' := left', r', rounds + [rd], tally.safe;
    }
    NothingPending(view, version, f, r, rounds);
    IsExhausted(view, version, f, setId, size, r, rounds);
  }

  /** One turn of the loop function. */
  lemma SettleTurn(e: Env, f: BitSet, hard: Option<ClsMatch>, left: seq<RulePtr>, wc: BitSet, safe: bool)
    requires EnvOk(e)
    ensures var now := Dropped(left, 0, Priority(hard));
            if now == [] then Settle(e, f, hard, left, wc, safe) == Result(hard, None, wc, safe)
            else
              && (forall i :: 0 <= i < |now| ==> now[i] != [])
              && var p := TopOf(now, |now|);
                 var s := Try(e, f, TopSets(now, |now|, p), 0, wc, safe);
                 Settle(e, f, hard, left, wc, safe) ==
                   if s.found.Some? then Result(Search(e, e.setId(f, s.found.value), false).hard, s.found, s.wc, s.safe)
                   else Settle(e, f, FallHard(now, e.version, p, hard, |now|), AllFallen(now, e.version, p), s.wc, s.safe)
  {
    hide EnvOk, Try, Search, TopSets, Fallen, FallHard, Dropped, TopOf, TotalLen, AllFallen;
    DroppedIsAlive(left, 0, Priority(hard));
  }

  lemma NoRounds(view: View, version: nat, f: BitSet, setId: SetConjId, size: nat -> nat, soft: seq<RulePtr>)
    ensures RoundsOk(view, version, f, []) && RoundsFull(view, version, f, []) && AllFail(view, version, f, setId, size, []) && Lowered(view, version, f, soft, [])
  {
  }

  lemma DropLowered(view: View, version: nat, f: BitSet, soft0: seq<RulePtr>, soft: seq<RulePtr>, rounds: seq<Round>)
    requires forall s :: s in soft ==> s in soft0
    ensures Lowered(view, version, f, soft0, rounds) ==> Lowered(view, version, f, soft, rounds)
  {
    hide Under;
    forall i | 0 <= i < |soft| ensures exists j :: 0 <= j < |soft0| && soft0[j] == soft[i] { assert soft[i] in soft; }
  }

  lemma RoundInVain(view: View, version: nat, f: BitSet, setId: SetConjId, size: nat -> nat, rd: Round)
    requires forall j: nat :: j < |rd.heads| ==> FailsAt(view, version, f, setId, size, SetsOf(rd.heads), j)
    ensures RoundFails(view, version, f, setId, size, rd)
  {
    hide FailsAt;
  }

  lemma RoundSettles(view: View, version: nat, f: BitSet, setId: SetConjId, size: nat -> nat, rounds: seq<Round>, rd: Round, n: nat,
                     id: nat, r: Option<ClsMatch>)
    requires r.Some? && NestedBest(view, version, setId(f, id), r) && FirstToSettle(view, version, f, setId, size, rd, n, id)
    requires RoundsOk(view, version, f, rounds + [rd]) && RoundsFull(view, version, f, rounds + [rd])
    requires AllTried(view, version, f, rounds, rd.pri) && AllFail(view, version, f, setId, size, rounds) && NoneAbove(view, version, f, rd.pri)
    ensures Resolved(view, version, f, setId, size, id, r, rounds + [rd])
  {
    hide NestedBest, RoundsOk, RoundsFull, AllTried, AllFail, NoneAbove, FirstToSettle;
    assert (rounds + [rd])[..|rounds|] == rounds;
  }

  lemma IsExhausted(view: View, version: nat, f: BitSet, setId: SetConjId, size: nat -> nat, r: Option<ClsMatch>, rounds: seq<Round>)
    requires RoundsOk(view, version, f, rounds) && RoundsFull(view, version, f, rounds)
    requires AllTried(view, version, f, rounds, Priority(r)) && AllFail(view, version, f, setId, size, rounds)
    ensures Exhausted(view, version, f, setId, size, r, rounds)
  {
  }

  // ---- classifier_lookup ----

  lemma SearchIsPending(c: Config, tables: Tables, order: seq<Entry>, n: nat, version: nat, f: BitSet,
                        hard: Option<ClsMatch>, soft: seq<RulePtr>)
    requires Ready(c, tables, order) && n <= |order| && Searched(c, tables, order, n, version, f, hard, soft, true)
    requires RestBelow(order, n, Priority(hard))
    ensures HardOk(Contents(tables), version, f, hard) && SoftOk(Contents(tables), version, f, soft)
    ensures Pending(Contents(tables), version, f, hard, soft, [])
  {
    hide TablesOk, OrderOk, Answer, Contents, Matching, PtrOk, Settled, HeadOfTable, FromTable;
    HardMatches(c, tables, order, n, version, f, hard, soft, true);
    forall i | 0 <= i < |soft| ensures PtrOk(Contents(tables), version, f, soft[i]) && IsSoft(soft[i]) {
      ListIsPtr(c, tables, order, n, version, f, soft[i]);
    }
    forall p | Matching(Contents(tables), version, f, p)
      ensures INT_MIN < p.1.priority && (p.1.priority <= Priority(hard) || InSoft(soft, p.1))
    {
      Reached(c, tables, order, n, version, f, hard, soft, true, p);
    }
  }

  lemma ListIsPtr(c: Config, tables: Tables, order: seq<Entry>, n: nat, version: nat, f: BitSet, s: RulePtr)
    requires Ready(c, tables, order) && n <= |order| && FromTable(c, tables, order, n, version, f, s)
    ensures PtrOk(Contents(tables), version, f, s)
  {
    hide Ready, Answer, PtrOk;
    var k :| 0 <= k < n && s == Answer(c, tables, order, k, version, f);
    AnswerAtPlace(c, tables, order, k, version, f);
  }

  lemma AnswerAtPlace(c: Config, tables: Tables, order: seq<Entry>, k: nat, version: nat, f: BitSet)
    requires Ready(c, tables, order) && k < |order|
    ensures PtrOk(Contents(tables), version, f, Answer(c, tables, order, k, version, f))
    ensures Answer(c, tables, order, k, version, f) != [] ==> Answer(c, tables, order, k, version, f)[0].priority > INT_MIN
  {
    hide TablesOk, FindSpec, Contents;
    AnswerIsPtr(c, tables, order[k].mask, version, f);
  }

  lemma SoftBelowHard(view: View, version: nat, f: BitSet, hard: Option<ClsMatch>, soft: seq<RulePtr>)
    requires SoftOk(view, version, f, soft) && Pending(view, version, f, hard, soft, []) && HeadsBelow(soft, Priority(hard))
    ensures Pending(view, version, f, hard, [], [])
  {
    hide PtrOk, Matching;
    forall p | Matching(view, version, f, p) ensures p.1.priority <= Priority(hard) {
      if p.1.priority > Priority(hard) {
        var s :| s in soft && p.1 in s;
        var j :| 0 <= j < |soft| && soft[j] == s;
        TopOfPtr(view, version, f, s, p.1);
      }
    }
  }

  lemma HardAboveMin(c: Config, tables: Tables, version: nat, f: BitSet, hard: Option<ClsMatch>)
    requires TablesOk(c, tables) && HardOk(Contents(tables), version, f, hard)
    ensures Priority(hard) >= INT_MIN
  {
    hide TablesOk, Contents;
    if hard.Some? {
      var m :| Matching(Contents(tables), version, f, (m, hard.value));
      StoredBounds(c, tables, (m, hard.value));
    }
  }

  lemma NoSoft(c: Config, tables: Tables, order: seq<Entry>, n: nat, version: nat, f: BitSet,
               hard: Option<ClsMatch>, soft: seq<RulePtr>)
    requires Ready(c, tables, order) && n <= |order| && Searched(c, tables, order, n, version, f, hard, soft, true)
    requires NoConjunctions(Contents(tables))
    ensures soft == []
  {
    hide Ready, Answer, Contents, NoConjunctions, Settled, HeadOfTable, FromTable, IsSoft;
    if soft != [] { ListHasNoSet(c, tables, order, n, version, f, soft[0]); }
  }

  lemma ListHasNoSet(c: Config, tables: Tables, order: seq<Entry>, n: nat, version: nat, f: BitSet, s: RulePtr)
    requires Ready(c, tables, order) && n <= |order| && FromTable(c, tables, order, n, version, f, s)
    requires NoConjunctions(Contents(tables))
    ensures !IsSoft(s)
  {
    hide Ready, Answer, Contents, NoConjunctions;
    var k :| 0 <= k < n && s == Answer(c, tables, order, k, version, f);
    AnswerHasNoSet(c, tables, order, k, version, f);
  }

  /** classifier_lookup__ with conjunctive matches. */
  method LookupIn(c: Config, tables: Tables, order: seq<Entry>, tries: seq<T.Trie>, version: nat, f: BitSet, wc: BitSet,
                  setId: SetConjId, ghost size: nat -> nat)
    returns (r: Option<ClsMatch>, resolved: Option<nat>, wc': BitSet, ghost rounds: seq<Round>)
    requires ConfigOk(c) && Ready(c, tables, order) && CountsOk(c, tables, tries) && ConjSetsOk(Contents(tables), size)
    ensures wc <= wc'
    ensures Outcome(Contents(tables), version, f, setId, size, r, resolved, rounds)
    ensures NoConjunctions(Contents(tables)) ==>
              resolved.None? && IsBest(Contents(tables), version, f, r) && HighOnly(Contents(tables), Priority(r), wc, wc')
    ensures NoConjunctions(Contents(tables)) ==>
              (BestForAll(Contents(tables), version, f, wc', r) <==> NoneAgrees(Contents(tables), version, f, wc', Priority(r)))
    ensures EnvOk(Env(c, tables, order, tries, version, setId, size))
    ensures var s := LookupRun(Env(c, tables, order, tries, version, setId, size), f, wc);
            && r == s.r && resolved == s.resolved && wc' == s.wc
            && (NoConjunctions(Contents(tables)) && (s.safe || HashesFree(c, tables, order, f)) ==>
                  BestForAll(Contents(tables), version, f, wc', r))
  {
    hide ConfigOk, TablesOk, OrderOk, CountsOk, ConjSetsOk, HardOk, SoftOk, Pending, IsBestHard, Resolved, NoConjunctions, Contents,
         Searched, AllSound, IsBest, BestForAll, HeadsBelow, Exhausted, RoundsOk, RoundsFull, AllFail, AllTried, NoneAgrees, TriesFit, OnceStored, Apart,
         MainLoop, Stop, FoldedBy, AllSafe, Settle, Dropped, HashesFree, HighOnly;
    var hard, soft, softPri;
    ghost var n;
    hard, soft, softPri, wc', n := SearchTables(c, tables, order, tries, version, f, wc, true);
    SearchIsPending(c, tables, order, n, version, f, hard, soft);
    HardAboveMin(c, tables, version, f, hard);
    ghost var e := Env(c, tables, order, tries, version, setId, size);
    ghost var safe := SearchSafe(e, f, true, wc);
    ghost var plain := NoConjunctions(Contents(tables));
    if plain {
      NoSoft(c, tables, order, n, version, f, hard, soft);
      StopsAtBest(c, tables, order, n, version, f, hard, soft, true);
      SearchIsHigh(c, tables, order, tries, version, f, wc, true);
      MaskIsFolded(c, tables, order, tries, version, f, wc, hard, soft, n, true);
      StoredFit(c, tables);
      BestForAllExactly(Contents(tables), version, f, wc', hard);
      if HashesFree(c, tables, order, f) { FreeIsAllSafe(c, tables, order, tries, version, f, wc, n); }
      if safe {
        SafeIsSound(c, tables, order, tries, version, f, wc, n);
        StopsAtBestForAll(c, tables, order, n, version, f, wc', hard, soft, true);
      }
    }
    if Priority(hard) >= softPri {
      Lower(soft, softPri, Priority(hard));
      SoftBelowHard(Contents(tables), version, f, hard, soft);
      NoRounds(Contents(tables), version, f, setId, size, soft);
      NothingPending(Contents(tables), version, f, hard, []);
      IsExhausted(Contents(tables), version, f, setId, size, hard, []);
      AllDropped(soft, Priority(hard));
      SettleTurn(e, f, hard, soft, wc', safe);
      return hard, None, wc', [];
    }
    if OnceStored(Contents(tables)) { SoftApart(c, tables, order, version, f, n); }
    r, resolved, wc', rounds := SettleSoft(c, tables, order, tries, version, f, wc', setId, hard, soft, size, safe);
  }

  /** A soft match of the main loop is the answer of a table searched. */
  ghost predicate AnsweredBy(c: Config, tables: Tables, order: seq<Entry>, version: nat, f: BitSet, n: nat, s: RulePtr, k: nat)
    requires Ready(c, tables, order) && n <= |order|
  {
    k < n && s == Answer(c, tables, order, k, version, f)
  }

  /** The soft matches of the main loop are answers of different tables. */
  lemma {:induction false} SoftPlaces(c: Config, tables: Tables, order: seq<Entry>, version: nat, f: BitSet, n: nat) returns (places: seq<nat>)
    requires Ready(c, tables, order) && n <= |order|
    ensures var soft := MainLoop(c, tables, order, version, f, true, n).soft;
            && |places| == |soft|
            && (forall i :: 0 <= i < |soft| ==> soft[i] != [] && AnsweredBy(c, tables, order, version, f, n, soft[i], places[i]))
            && (forall i, j :: 0 <= i < j < |soft| ==> places[i] < places[j])
  {
    hide Ready, Answer;
    if n == 0 {
      places := [];
    } else {
      var was := MainLoop(c, tables, order, version, f, true, n - 1);
      places := SoftPlaces(c, tables, order, version, f, n - 1);
      forall i | 0 <= i < |was.soft| ensures AnsweredBy(c, tables, order, version, f, n, was.soft[i], places[i]) {
        assert AnsweredBy(c, tables, order, version, f, n - 1, was.soft[i], places[i]);
      }
      if MainLoop(c, tables, order, version, f, true, n).soft != was.soft { places := places + [n - 1]; }
    }
  }

  lemma SoftApart(c: Config, tables: Tables, order: seq<Entry>, version: nat, f: BitSet, n: nat)
    requires Ready(c, tables, order) && n <= |order| && OnceStored(Contents(tables))
    ensures Apart(Contents(tables), MainLoop(c, tables, order, version, f, true, n).soft)
  {
    hide Ready, Answer, Contents, MainLoop, OnceStored;
    var soft := MainLoop(c, tables, order, version, f, true, n).soft;
    var places := SoftPlaces(c, tables, order, version, f, n);
    forall i, j, m | 0 <= i < |soft| && 0 <= j < |soft| && i != j ensures !BothUnder(Contents(tables), soft[i], soft[j], m) {
      assert AnsweredBy(c, tables, order, version, f, n, soft[i], places[i]) && AnsweredBy(c, tables, order, version, f, n, soft[j], places[j]);
      assert places[i] != places[j] by { if i < j { assert places[i] < places[j]; } else { assert places[j] < places[i]; } }
      DifferentTables(c, tables, order, version, f, places[i], places[j], m);
    }
  }

  lemma DifferentTables(c: Config, tables: Tables, order: seq<Entry>, version: nat, f: BitSet, k: nat, k': nat, m: BitSet)
    requires Ready(c, tables, order) && k < |order| && k' < |order| && k != k' && OnceStored(Contents(tables))
    ensures !BothUnder(Contents(tables), Answer(c, tables, order, k, version, f), Answer(c, tables, order, k', version, f), m)
  {
    hide TablesOk, Answer, Contents, Matching;
    var s, s' := Answer(c, tables, order, k, version, f), Answer(c, tables, order, k', version, f);
    if s != [] && s' != [] {
      HeadStored(c, tables, order, version, f, k);
      HeadStored(c, tables, order, version, f, k');
      assert order[k].mask != order[k'].mask by { if k < k' { } else { } }
    }
  }

  lemma HeadStored(c: Config, tables: Tables, order: seq<Entry>, version: nat, f: BitSet, k: nat)
    requires Ready(c, tables, order) && k < |order| && Answer(c, tables, order, k, version, f) != []
    ensures (order[k].mask, Answer(c, tables, order, k, version, f)[0]) in Contents(tables)
  {
    hide Ready, Answer, Contents;
    HeadMatching(c, tables, order, k, version, f, Answer(c, tables, order, k, version, f)[0]);
  }

  lemma Lower(soft: seq<RulePtr>, p: int, q: int)
    requires HeadsBelow(soft, p) && p <= q
    ensures HeadsBelow(soft, q)
  {
  }
}
