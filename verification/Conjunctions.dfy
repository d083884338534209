/** find_conjunctive_match: given the conjunction sets of several "soft"
    matches, which conjunction has all of its clauses among them?

    A 64-bit clause word is the set of positions of its 1-bits. */
module Conjunctions {
  import opened Basics
  import opened Flows
  import opened Subtables

  type ConjSet = seq<Conjunction>
  type Clauses = BitSet
  type Matches = map<nat, Clauses>

  const CLAUSE_BITS: nat := 64

  /** UINT64_MAX << (n & 63). */
  function InitialClauses(n: nat): (m: Clauses)
    ensures forall k: nat :: k in m <==> n % CLAUSE_BITS <= k < CLAUSE_BITS
  {
    PrefixBits(n % CLAUSE_BITS, CLAUSE_BITS - n % CLAUSE_BITS)
  }

  const ALL_CLAUSES: Clauses := PrefixBits(0, CLAUSE_BITS)

  /** What the callers guarantee of conjunction sets: clause numbers are below
      the number of clauses, which is between 1 and 63 and a property of the
      conjunction, and a set has a conjunction at most once. */
  ghost predicate SetOk(s: ConjSet, size: nat -> nat)
  {
    && (forall i :: 0 <= i < |s| ==> 1 <= s[i].nClauses < CLAUSE_BITS && s[i].clause < s[i].nClauses && s[i].nClauses == size(s[i].id))
    && (forall i, j :: 0 <= i < j < |s| ==> s[i].id != s[j].id)
  }

  ghost predicate SetsOk(sets: seq<ConjSet>, size: nat -> nat)
  {
    forall i :: 0 <= i < |sets| ==> SetOk(sets[i], size)
  }

  /** Clause `k` of conjunction `id` is among the first `n` entries of `s`. */
  ghost predicate HasClause(s: ConjSet, n: nat, id: nat, k: nat)
  {
    exists i :: 0 <= i < n && i < |s| && s[i].id == id && s[i].clause == k
  }

  /** Clause `k` of conjunction `id` is in one of the sets. */
  ghost predicate Seen(sets: seq<ConjSet>, id: nat, k: nat)
  {
    exists i :: 0 <= i < |sets| && HasClause(sets[i], |sets[i]|, id, k)
  }

  /** Every clause of conjunction `id` is in one of the sets. */
  ghost predicate Covered(sets: seq<ConjSet>, size: nat -> nat, id: nat)
  {
    size(id) > 0 && forall k: nat :: k < size(id) ==> Seen(sets, id, k)
  }

  lemma AllClausesBits(m: Clauses)
    requires forall k: nat :: k in m ==> k < CLAUSE_BITS
    ensures m == ALL_CLAUSES <==> forall k: nat :: k < CLAUSE_BITS ==> k in m
  {
  }

  /** One turn of the scan: the conjunction's clause word gets one more bit. */
  function AddClause(matches: Matches, c: Conjunction): Matches
  {
    var was := if c.id in matches then matches[c.id] else InitialClauses(c.nClauses);
    matches[c.id := was + {c.clause}]
  }

  // ---- The scan of one set ----

  /** The smallest number of clauses in a set, which is kept with the set. */
  function MinClauses(s: ConjSet): (n: nat)
    requires s != []
    ensures forall i :: 0 <= i < |s| ==> n <= s[i].nClauses
    ensures exists i :: 0 <= i < |s| && n == s[i].nClauses
  {
    if |s| == 1 then s[0].nClauses
    else
      var rest := MinClauses(s[..|s| - 1]);
      if s[|s| - 1].nClauses < rest then s[|s| - 1].nClauses else rest
  }

  /** What find_conjunctive_match reports from entry `i` of the set on, and the clause
      words it leaves. */
  function Scan(s: ConjSet, maxN: nat, matches: Matches, i: nat): (Option<nat>, Matches)
    requires i <= |s|
    decreases |s| - i
  {
    if i == |s| then (None, matches)
    else if s[i].nClauses > maxN then Scan(s, maxN, matches, i + 1)
    else
      var now := AddClause(matches, s[i]);
      if now[s[i].id] == ALL_CLAUSES then (Some(s[i].id), now) else Scan(s, maxN, now, i + 1)
  }

  lemma {:induction false} AllTooLarge(s: ConjSet, maxN: nat, matches: Matches, i: nat)
    requires i <= |s| && forall j :: 0 <= j < |s| ==> s[j].nClauses > maxN
    ensures Scan(s, maxN, matches, i) == (None, matches)
    decreases |s| - i
  {
    if i < |s| { AllTooLarge(s, maxN, matches, i + 1); }
  }

  /** The set is number `j` of a round of `sets`, with as many clauses allowed as there
      are sets, and the clause words are those left by the sets before it. */
  ghost predicate InLine(s: ConjSet, maxN: nat, matches: Matches, sets: seq<ConjSet>, size: nat -> nat, j: nat)
  {
    SetsOk(sets, size) && j < |sets| && sets[j] == s && |sets| == maxN && Exact(matches, sets, size, maxN, j, 0)
  }

  lemma ScanInLine(s: ConjSet, maxN: nat, matches: Matches)
    ensures forall sets: seq<ConjSet>, size: nat -> nat, j: nat :: InLine(s, maxN, matches, sets, size, j) ==>
              Scan(s, maxN, matches, 0).0 == ReportOf(sets, size, j) && Exact(Scan(s, maxN, matches, 0).1, sets, size, maxN, j + 1, 0)
  {
    hide Scan, SetsOk, Exact, ReportOf;
    forall sets: seq<ConjSet>, size: nat -> nat, j: nat | InLine(s, maxN, matches, sets, size, j)
      ensures Scan(s, maxN, matches, 0).0 == ReportOf(sets, size, j) && Exact(Scan(s, maxN, matches, 0).1, sets, size, maxN, j + 1, 0)
    {
      ScanIsExact(matches, sets, size, j, 0);
    }
  }

  /** find_conjunctive_match: reports the conjunction that the set completes first, among
      the entries that the scans of its round look at, and keeps the clause words
      exact. */
  method FindConjunctiveMatch(s: ConjSet, maxN: nat, matches: Matches) returns (found: Option<nat>, matches': Matches)
    requires s != []
    ensures (found, matches') == Scan(s, maxN, matches, 0)
    ensures forall sets: seq<ConjSet>, size: nat -> nat, j: nat :: InLine(s, maxN, matches, sets, size, j) ==>
              found == ReportOf(sets, size, j) && Exact(matches', sets, size, maxN, j + 1, 0)
  {
    hide InLine, ReportOf, Exact, AddClause, PrefixBits;
    ScanInLine(s, maxN, matches);
    if maxN < MinClauses(s) {
      AllTooLarge(s, maxN, matches, 0);
      return None, matches;
    }
    matches' := matches;
    var i := 0;
    while i < |s|
      invariant i <= |s| && Scan(s, maxN, matches, 0) == Scan(s, maxN, matches', i)
    {
      if s[i].nClauses <= maxN {
        AddedIsIn(matches', s[i]);
        matches' := AddClause(matches', s[i]);
        if matches'[s[i].id] == ALL_CLAUSES { return Some(s[i].id), matches'; }
      }
      i := i + 1;
    }
    found := None;
  }

  // ---- What the scan of several sets reports ----

  /** Entry `i` of set `j` is looked at: no entry before it in the set completes its
      conjunction, which ends the scan of the set. */
  ghost predicate Taken(sets: seq<ConjSet>, size: nat -> nat, j: nat, i: nat)
    requires j < |sets| && i <= |sets[j]|
    decreases j, i, 3
  {
    forall i' :: 0 <= i' < i ==> !Completes(sets, size, j, i')
  }

  /** With entry `i` of set `j`, every clause of its conjunction is in an entry that
      was looked at. */
  ghost predicate Completes(sets: seq<ConjSet>, size: nat -> nat, j: nat, i: nat)
    requires j < |sets| && i < |sets[j]|
    decreases j, i + 1, 2
  {
    AllBefore(sets, size, j, i + 1, sets[j][i].id)
  }

  ghost predicate AllBefore(sets: seq<ConjSet>, size: nat -> nat, j: nat, n: nat, id: nat)
    decreases j, n, 1
  {
    forall k: nat :: k < size(id) ==> TakenBefore(sets, size, j, n, id, k)
  }

  /** Clause `k` of conjunction `id` is in an entry that was looked at, before entry
      `n` of set `j`. */
  ghost predicate TakenBefore(sets: seq<ConjSet>, size: nat -> nat, j: nat, n: nat, id: nat, k: nat)
    decreases j, n, 0
  {
    exists j': nat, i': nat :: Earlier(j', i', j, n) && IsEntry(sets, j', i', id, k) && Taken(sets, size, j', i')
  }

  predicate Earlier(j': nat, i': nat, j: nat, n: nat) { j' < j || (j' == j && i' < n) }

  predicate IsEntry(sets: seq<ConjSet>, j: nat, i: nat, id: nat, k: nat)
  {
    j < |sets| && i < |sets[j]| && sets[j][i].id == id && sets[j][i].clause == k
  }

  /** The scan of set `j` reports the conjunction of its entry `i`. */
  ghost predicate Reports(sets: seq<ConjSet>, size: nat -> nat, j: nat, i: nat)
    requires j < |sets|
  {
    i < |sets[j]| && Taken(sets, size, j, i) && Completes(sets, size, j, i)
  }

  ghost function ReportOf(sets: seq<ConjSet>, size: nat -> nat, j: nat): Option<nat>
    requires j < |sets|
  {
    if exists i: nat :: Reports(sets, size, j, i) then
      var i: nat :| Reports(sets, size, j, i);
      Some(sets[j][i].id)
    else None
  }

  lemma TakenMeans(sets: seq<ConjSet>, size: nat -> nat, j: nat, i: nat, i': nat)
    requires j < |sets| && i' < i <= |sets[j]| && Taken(sets, size, j, i)
    ensures !Completes(sets, size, j, i')
  {
    hide Completes;
  }

  lemma ReportIs(sets: seq<ConjSet>, size: nat -> nat, j: nat, i: nat)
    requires j < |sets| && Reports(sets, size, j, i)
    ensures ReportOf(sets, size, j) == Some(sets[j][i].id)
  {
    hide Taken, Completes;
    forall i': nat | Reports(sets, size, j, i') ensures i' == i {
      if i < i' { TakenMeans(sets, size, j, i', i); }
      if i' < i { TakenMeans(sets, size, j, i, i'); }
    }
  }

  /** Some scan reports the conjunction. */
  ghost predicate Reported(sets: seq<ConjSet>, size: nat -> nat, id: nat)
  {
    exists j: nat :: j < |sets| && ReportOf(sets, size, j) == Some(id)
  }

  /** Clause `k` of the conjunction is in an entry that is looked at. */
  ghost predicate TakenSomewhere(sets: seq<ConjSet>, size: nat -> nat, id: nat, k: nat)
  {
    exists j: nat, i: nat :: IsEntry(sets, j, i, id, k) && Taken(sets, size, j, i)
  }

  // ---- Clause words are what was looked at ----

  /** Before entry `n` of set `j` the clause words have exactly the clauses looked at,
      for conjunctions that are not too large to be complete, and all bits beyond the
      last clause. */
  ghost predicate Exact(matches: Matches, sets: seq<ConjSet>, size: nat -> nat, maxN: nat, j: nat, n: nat)
  {
    && (forall id: nat, k: nat {:trigger TakenBefore(sets, size, j, n, id, k)} :: k < size(id) <= maxN ==>
          (TakenBefore(sets, size, j, n, id, k) <==> HasBit(matches, id, k)))
    && (forall id: nat, k: nat {:trigger HasBit(matches, id, k)} :: HasBit(matches, id, k) ==> k < CLAUSE_BITS)
    && (forall id: nat, k: nat {:trigger HasBit(matches, id, k)} :: id in matches && size(id) <= k < CLAUSE_BITS ==> HasBit(matches, id, k))
  }

  predicate HasBit(matches: Matches, id: nat, k: nat) { id in matches && k in matches[id] }

  lemma TakenOneMore(sets: seq<ConjSet>, size: nat -> nat, j: nat, n: nat, n': nat, id: nat, k: nat)
    requires j < |sets| && n < |sets[j]| && n' == n + 1 && Taken(sets, size, j, n)
    ensures TakenBefore(sets, size, j, n', id, k) <==> TakenBefore(sets, size, j, n, id, k) || IsEntry(sets, j, n, id, k)
  {
    hide Taken;
    if TakenBefore(sets, size, j, n', id, k) {
      var j': nat, i': nat :| Earlier(j', i', j, n') && IsEntry(sets, j', i', id, k) && Taken(sets, size, j', i');
      assert Earlier(j', i', j, n) || (j' == j && i' == n);
    }
    if TakenBefore(sets, size, j, n, id, k) {
      var j': nat, i': nat :| Earlier(j', i', j, n) && IsEntry(sets, j', i', id, k) && Taken(sets, size, j', i');
      assert Earlier(j', i', j, n');
    }
    if IsEntry(sets, j, n, id, k) { assert Earlier(j, n, j, n'); }
  }

  /** No entry from `n` on is looked at in the set. */
  lemma TakenSetDone(sets: seq<ConjSet>, size: nat -> nat, j: nat, j': nat, n: nat, id: nat, k: nat)
    requires j < |sets| && n <= |sets[j]| && j' == j + 1
    requires n < |sets[j]| ==> n > 0 && Completes(sets, size, j, n - 1)
    ensures TakenBefore(sets, size, j', 0, id, k) <==> TakenBefore(sets, size, j, n, id, k)
  {
    hide Completes;
    if TakenBefore(sets, size, j', 0, id, k) {
      var a: nat, b: nat :| Earlier(a, b, j', 0) && IsEntry(sets, a, b, id, k) && Taken(sets, size, a, b);
      assert Earlier(a, b, j, n);
    }
    if TakenBefore(sets, size, j, n, id, k) {
      var a: nat, b: nat :| Earlier(a, b, j, n) && IsEntry(sets, a, b, id, k) && Taken(sets, size, a, b);
      assert Earlier(a, b, j', 0);
    }
  }

  lemma ExactSetDone(matches: Matches, sets: seq<ConjSet>, size: nat -> nat, maxN: nat, j: nat, n: nat)
    requires j < |sets| && n <= |sets[j]| && Exact(matches, sets, size, maxN, j, n)
    requires n < |sets[j]| ==> n > 0 && Completes(sets, size, j, n - 1)
    ensures Exact(matches, sets, size, maxN, j + 1, 0)
  {
    hide Completes, TakenBefore, HasBit;
    var j' := j + 1;
    forall id: nat, k: nat | k < size(id) <= maxN ensures TakenBefore(sets, size, j', 0, id, k) <==> HasBit(matches, id, k) {
      TakenSetDone(sets, size, j, j', n, id, k);
    }
  }

  lemma SetOkAt(sets: seq<ConjSet>, size: nat -> nat, j: nat, i: nat)
    requires SetsOk(sets, size) && j < |sets| && i < |sets[j]|
    ensures var c := sets[j][i]; 1 <= c.nClauses < CLAUSE_BITS && c.clause < c.nClauses && c.nClauses == size(c.id)
  {
    assert SetOk(sets[j], size);
  }

  /** One clause word gets a bit, a new one also those beyond the last clause. */
  lemma AddClauseBits(matches: Matches, c: Conjunction, id: nat, k: nat)
    requires 1 <= c.nClauses < CLAUSE_BITS
    ensures HasBit(AddClause(matches, c), id, k) <==>
            HasBit(matches, id, k) || (id == c.id && (k == c.clause || (id !in matches && c.nClauses <= k < CLAUSE_BITS)))
    ensures id in AddClause(matches, c) <==> id in matches || id == c.id
  {
  }

  lemma ExactAdd(matches: Matches, sets: seq<ConjSet>, size: nat -> nat, maxN: nat, j: nat, n: nat)
    requires SetsOk(sets, size) && j < |sets| && n < |sets[j]| && Taken(sets, size, j, n)
    requires Exact(matches, sets, size, maxN, j, n) && sets[j][n].nClauses <= maxN
    ensures Exact(AddClause(matches, sets[j][n]), sets, size, maxN, j, n + 1)
  {
    hide Taken, TakenBefore, HasBit, AddClause, SetsOk;
    var c, n' := sets[j][n], n + 1;
    var now := AddClause(matches, c);
    SetOkAt(sets, size, j, n);
    forall id: nat, k: nat
      ensures k < size(id) <= maxN ==> (TakenBefore(sets, size, j, n', id, k) <==> HasBit(now, id, k))
      ensures HasBit(now, id, k) ==> k < CLAUSE_BITS
      ensures id in now && size(id) <= k < CLAUSE_BITS ==> HasBit(now, id, k)
    {
      TakenOneMore(sets, size, j, n, n', id, k);
      AddClauseBits(matches, c, id, k);
      assert TakenBefore(sets, size, j, n, id, k) || !TakenBefore(sets, size, j, n, id, k);
      assert HasBit(matches, id, k) || !HasBit(matches, id, k);
    }
  }

  lemma ExactSkip(matches: Matches, sets: seq<ConjSet>, size: nat -> nat, maxN: nat, j: nat, n: nat)
    requires SetsOk(sets, size) && j < |sets| && n < |sets[j]| && Taken(sets, size, j, n)
    requires Exact(matches, sets, size, maxN, j, n) && sets[j][n].nClauses > maxN
    ensures Exact(matches, sets, size, maxN, j, n + 1)
  {
    hide Taken, TakenBefore, HasBit, SetsOk;
    var n' := n + 1;
    SetOkAt(sets, size, j, n);
    forall id: nat, k: nat | k < size(id) <= maxN ensures TakenBefore(sets, size, j, n', id, k) <==> HasBit(matches, id, k) {
      TakenOneMore(sets, size, j, n, n', id, k);
    }
  }

  /** The clause word is full exactly when the entry completes its conjunction. */
  lemma FullIsComplete(matches: Matches, sets: seq<ConjSet>, size: nat -> nat, maxN: nat, j: nat, n: nat)
    requires SetsOk(sets, size) && j < |sets| && n < |sets[j]| && sets[j][n].nClauses <= maxN
    requires Exact(matches, sets, size, maxN, j, n + 1) && sets[j][n].id in matches
    ensures matches[sets[j][n].id] == ALL_CLAUSES <==> Completes(sets, size, j, n)
  {
    hide TakenBefore, SetsOk;
    var id, n' := sets[j][n].id, n + 1;
    SetOkAt(sets, size, j, n);
    assert Completes(sets, size, j, n) == AllBefore(sets, size, j, n', id);
    assert forall k: nat :: k in matches[id] <==> HasBit(matches, id, k);
    AllClausesBits(matches[id]);
    if Completes(sets, size, j, n) {
      forall k: nat | k < CLAUSE_BITS ensures k in matches[id] {
        if k < size(id) { assert TakenBefore(sets, size, j, n', id, k); } else { assert HasBit(matches, id, k) || id in matches; }
        assert HasBit(matches, id, k);
      }
    }
    if matches[id] == ALL_CLAUSES {
      forall k: nat | k < size(id) ensures TakenBefore(sets, size, j, n', id, k) { assert HasBit(matches, id, k); }
    }
  }

  lemma CompleteIsCovered(sets: seq<ConjSet>, size: nat -> nat, j: nat, i: nat)
    requires SetsOk(sets, size) && j < |sets| && i < |sets[j]| && Completes(sets, size, j, i)
    ensures Covered(sets, size, sets[j][i].id)
  {
    hide Taken, SetsOk;
    var id, n := sets[j][i].id, i + 1;
    SetOkAt(sets, size, j, i);
    assert AllBefore(sets, size, j, n, id);
    forall k: nat | k < size(id) ensures Seen(sets, id, k) {
      assert TakenBefore(sets, size, j, n, id, k);
      var j': nat, i': nat :| Earlier(j', i', j, n) && IsEntry(sets, j', i', id, k) && Taken(sets, size, j', i');
      assert HasClause(sets[j'], |sets[j']|, id, k);
    }
  }

  /** A conjunction with more clauses than there are sets is not completed. */
  lemma TooLarge(sets: seq<ConjSet>, size: nat -> nat, j: nat, i: nat)
    requires SetsOk(sets, size) && j < |sets| && i < |sets[j]| && sets[j][i].nClauses > |sets|
    ensures !Completes(sets, size, j, i)
  {
    hide Completes;
    if Completes(sets, size, j, i) {
      var id := sets[j][i].id;
      CompleteIsCovered(sets, size, j, i);
      SetOkAt(sets, size, j, i);
      var holders := CoverNeedsSets(sets, size, id, size(id));
      BelowSize(holders, |sets|);
    }
  }

  lemma TakenOn(sets: seq<ConjSet>, size: nat -> nat, j: nat, n: nat)
    requires j < |sets| && n < |sets[j]| && Taken(sets, size, j, n) && !Completes(sets, size, j, n)
    ensures Taken(sets, size, j, n + 1)
  {
    hide Completes;
  }

  lemma NoReport(sets: seq<ConjSet>, size: nat -> nat, j: nat)
    requires j < |sets| && Taken(sets, size, j, |sets[j]|)
    ensures ReportOf(sets, size, j) == None
  {
    hide Completes;
  }

  /** The scan of a set reports what the account of the sets above says, and keeps the
      clause words exact whether it reports or not. */
  lemma {:induction false} ScanIsExact(matches: Matches, sets: seq<ConjSet>, size: nat -> nat, j: nat, n: nat)
    requires SetsOk(sets, size) && j < |sets| && n <= |sets[j]| && Taken(sets, size, j, n)
    requires Exact(matches, sets, size, |sets|, j, n)
    ensures Scan(sets[j], |sets|, matches, n).0 == ReportOf(sets, size, j)
    ensures Exact(Scan(sets[j], |sets|, matches, n).1, sets, size, |sets|, j + 1, 0)
    decreases |sets[j]| - n
  {
    hide SetsOk, Taken, Completes, Exact, ReportOf, AddClause;
    if n == |sets[j]| {
      NoReport(sets, size, j);
      ExactSetDone(matches, sets, size, |sets|, j, n);
    } else if sets[j][n].nClauses > |sets| {
      ExactSkip(matches, sets, size, |sets|, j, n);
      TooLarge(sets, size, j, n);
      TakenOn(sets, size, j, n);
      ScanIsExact(matches, sets, size, j, n + 1);
    } else {
      var now := AddClause(matches, sets[j][n]);
      ExactAdd(matches, sets, size, |sets|, j, n);
      AddedIsIn(matches, sets[j][n]);
      FullIsComplete(now, sets, size, |sets|, j, n);
      if now[sets[j][n].id] == ALL_CLAUSES {
        ReportIs(sets, size, j, n);
        ExactSetDone(now, sets, size, |sets|, j, n + 1);
      } else {
        TakenOn(sets, size, j, n);
        ScanIsExact(now, sets, size, j, n + 1);
      }
    }
  }

  lemma AddedIsIn(matches: Matches, c: Conjunction)
    ensures c.id in AddClause(matches, c)
  {
  }

  lemma NothingTaken(sets: seq<ConjSet>, size: nat -> nat)
    ensures Exact(map[], sets, size, |sets|, 0, 0)
  {
  }

  // ---- Which conjunctions are reported ----

  /** A set contributes at most one clause of a conjunction. */
  lemma OneClausePerSet(s: ConjSet, size: nat -> nat, id: nat, k: nat, k': nat)
    requires SetOk(s, size) && HasClause(s, |s|, id, k) && HasClause(s, |s|, id, k')
    ensures k == k'
  {
    var i :| 0 <= i < |s| && s[i].id == id && s[i].clause == k;
    var j :| 0 <= j < |s| && s[j].id == id && s[j].clause == k';
  }

  /** Which of the sets holds clause `k`. */
  ghost function Holder(sets: seq<ConjSet>, id: nat, k: nat): (i: nat)
    requires Seen(sets, id, k)
    ensures i < |sets| && HasClause(sets[i], |sets[i]|, id, k)
  {
    var i :| 0 <= i < |sets| && HasClause(sets[i], |sets[i]|, id, k);
    i
  }

  /** Covering `n` clauses takes `n` sets. */
  lemma {:induction false} CoverNeedsSets(sets: seq<ConjSet>, size: nat -> nat, id: nat, n: nat) returns (holders: set<nat>)
    requires SetsOk(sets, size) && forall k: nat :: k < n ==> Seen(sets, id, k)
    ensures |holders| == n && forall i :: i in holders <==> exists k: nat :: k < n && Holder(sets, id, k) == i
    ensures forall i :: i in holders ==> i < |sets|
    decreases n
  {
    if n == 0 {
      holders := {};
    } else {
      var less := CoverNeedsSets(sets, size, id, n - 1);
      assert Seen(sets, id, n - 1);
      var h := Holder(sets, id, n - 1);
      assert h !in less by {
        forall k: nat | k < n - 1 ensures Holder(sets, id, k) != h {
          if Holder(sets, id, k) == h { OneClausePerSet(sets[h], size, id, k, n - 1); }
        }
      }
      holders := less + {h};
    }
  }

  lemma {:induction false} BelowSize(s: set<nat>, n: nat)
    requires forall i :: i in s ==> i < n
    ensures |s| <= n
    decreases n
  {
    if n > 0 { BelowSize(s - {n - 1}, n - 1); }
    else { assert s == {}; }
  }

  lemma ReportIsCovered(sets: seq<ConjSet>, size: nat -> nat, j: nat, id: nat)
    requires SetsOk(sets, size) && j < |sets| && ReportOf(sets, size, j) == Some(id)
    ensures Covered(sets, size, id)
  {
    hide Completes, Taken, Covered;
    var i: nat :| Reports(sets, size, j, i) && sets[j][i].id == id;
    CompleteIsCovered(sets, size, j, i);
  }

  /** Entry `i` of set `j` is of conjunction `id` and is looked at. */
  ghost predicate TakenFor(sets: seq<ConjSet>, size: nat -> nat, j: nat, i: nat, id: nat)
  {
    j < |sets| && i < |sets[j]| && sets[j][i].id == id && Taken(sets, size, j, i)
  }

  /** The last of the first `n` sets in which an entry of the conjunction is looked
      at. */
  lemma {:induction false} LastTaken(sets: seq<ConjSet>, size: nat -> nat, id: nat, n: nat, j0: nat, i0: nat) returns (j: nat, i: nat)
    requires n <= |sets| && j0 < n && TakenFor(sets, size, j0, i0, id)
    ensures j < n && TakenFor(sets, size, j, i, id)
    ensures forall j': nat, i': nat :: j < j' < n ==> !TakenFor(sets, size, j', i', id)
    decreases n
  {
    hide TakenFor;
    var last := n - 1;
    if i': nat :| TakenFor(sets, size, last, i', id) {
      j, i := last, i';
    } else {
      j, i := LastTaken(sets, size, id, n - 1, j0, i0);
    }
  }

  /** Exactly when a conjunction is reported: every clause of it stands in some set in
      which nothing is completed before it. */
  lemma ReportedExactly(sets: seq<ConjSet>, size: nat -> nat, id: nat)
    requires SetsOk(sets, size) && size(id) > 0
    ensures Reported(sets, size, id) <==> forall k: nat :: k < size(id) ==> TakenSomewhere(sets, size, id, k)
  {
    hide SetsOk, Taken, ReportOf;
    if Reported(sets, size, id) {
      var j: nat :| j < |sets| && ReportOf(sets, size, j) == Some(id);
      ReportTakesAll(sets, size, j, id);
    }
    if forall k: nat :: k < size(id) ==> TakenSomewhere(sets, size, id, k) {
      assert TakenSomewhere(sets, size, id, 0);
      var j0: nat, i0: nat :| IsEntry(sets, j0, i0, id, 0) && Taken(sets, size, j0, i0);
      var j, i := LastTaken(sets, size, id, |sets|, j0, i0);
      var n := i + 1;
      forall k: nat | k < size(id) ensures TakenBefore(sets, size, j, n, id, k) {
        assert TakenSomewhere(sets, size, id, k);
        var j': nat, i': nat :| IsEntry(sets, j', i', id, k) && Taken(sets, size, j', i');
        assert TakenFor(sets, size, j', i', id);
        if j' == j { OneEntryPerSet(sets, size, j, i, i'); }
        assert Earlier(j', i', j, n);
      }
      assert AllBefore(sets, size, j, n, id);
      ReportIs(sets, size, j, i);
    }
  }

  lemma OneEntryPerSet(sets: seq<ConjSet>, size: nat -> nat, j: nat, i: nat, i': nat)
    requires SetsOk(sets, size) && j < |sets| && i < |sets[j]| && i' < |sets[j]| && sets[j][i].id == sets[j][i'].id
    ensures i == i'
  {
    assert SetOk(sets[j], size);
  }

  lemma ReportTakesAll(sets: seq<ConjSet>, size: nat -> nat, j: nat, id: nat)
    requires j < |sets| && ReportOf(sets, size, j) == Some(id)
    ensures forall k: nat :: k < size(id) ==> TakenSomewhere(sets, size, id, k)
  {
    hide Taken;
    var i: nat :| Reports(sets, size, j, i) && sets[j][i].id == id;
    assert AllBefore(sets, size, j, i + 1, id);
    var n := i + 1;
    forall k: nat | k < size(id) ensures TakenSomewhere(sets, size, id, k) {
      assert TakenBefore(sets, size, j, n, id, k);
    }
  }

  /** Another covered conjunction stands before `id` in some set. */
  ghost predicate Preceded(sets: seq<ConjSet>, size: nat -> nat, id: nat)
  {
    exists j: nat, i: nat, i': nat :: j < |sets| && i' < i < |sets[j]| && sets[j][i].id == id && Covered(sets, size, sets[j][i'].id)
  }

  /** A covered conjunction is reported unless another covered one stands before it in
      some set. */
  lemma CoveredIsReported(sets: seq<ConjSet>, size: nat -> nat, id: nat)
    requires SetsOk(sets, size) && Covered(sets, size, id) && !Preceded(sets, size, id)
    ensures Reported(sets, size, id)
  {
    hide SetsOk, Completes, Reported;
    forall k: nat | k < size(id) ensures TakenSomewhere(sets, size, id, k) {
      assert Seen(sets, id, k);
      var j: nat :| j < |sets| && HasClause(sets[j], |sets[j]|, id, k);
      var i: nat :| i < |sets[j]| && sets[j][i].id == id && sets[j][i].clause == k;
      forall i': nat | i' < i ensures !Completes(sets, size, j, i') {
        if Completes(sets, size, j, i') { CompleteIsCovered(sets, size, j, i'); }
      }
      assert IsEntry(sets, j, i, id, k) && Taken(sets, size, j, i);
    }
    ReportedExactly(sets, size, id);
  }

  /** Some conjunction is reported exactly when some conjunction is covered. */
  lemma SomeReported(sets: seq<ConjSet>, size: nat -> nat)
    requires SetsOk(sets, size)
    ensures (exists id: nat :: Reported(sets, size, id)) <==> (exists id: nat :: Covered(sets, size, id))
  {
    hide SetsOk, Completes, ReportOf, Covered;
    if id: nat :| Reported(sets, size, id) {
      var j: nat :| j < |sets| && ReportOf(sets, size, j) == Some(id);
      ReportIsCovered(sets, size, j, id);
    }
    if id: nat :| Covered(sets, size, id) {
      if !exists t: nat :: Reported(sets, size, t) {
        NothingReported(sets, size, id);
      }
    }
  }

  /** As long as nothing is reported every entry is looked at. */
  lemma {:induction false} AllTaken(sets: seq<ConjSet>, size: nat -> nat, j: nat, i: nat)
    requires j < |sets| && i <= |sets[j]| && forall t: nat :: !Reported(sets, size, t)
    ensures Taken(sets, size, j, i)
    decreases i
  {
    hide Completes, ReportOf;
    if i > 0 {
      AllTaken(sets, size, j, i - 1);
      if Completes(sets, size, j, i - 1) { ReportsIsReported(sets, size, j, i - 1); }
    }
  }

  lemma ReportsIsReported(sets: seq<ConjSet>, size: nat -> nat, j: nat, i: nat)
    requires j < |sets| && Reports(sets, size, j, i)
    ensures Reported(sets, size, sets[j][i].id)
  {
    hide Reports, ReportOf;
    ReportIs(sets, size, j, i);
  }

  lemma NothingReported(sets: seq<ConjSet>, size: nat -> nat, id: nat)
    requires SetsOk(sets, size) && Covered(sets, size, id)
    ensures exists t: nat :: Reported(sets, size, t)
  {
    hide SetsOk, Taken, Reported;
    if forall t: nat :: !Reported(sets, size, t) {
      forall k: nat | k < size(id) ensures TakenSomewhere(sets, size, id, k) {
        assert Seen(sets, id, k);
        var j: nat :| j < |sets| && HasClause(sets[j], |sets[j]|, id, k);
        var i: nat :| i < |sets[j]| && sets[j][i].id == id && sets[j][i].clause == k;
        AllTaken(sets, size, j, i);
        assert IsEntry(sets, j, i, id, k);
      }
      ReportedExactly(sets, size, id);
    }
  }

  // ---- Where the scan falls short ----

  /** Two soft matches that each have one clause of two conjunctions. */
  const CROSSED: seq<ConjSet> :=
    [[Conjunction(1, 0, 2), Conjunction(2, 0, 2)], [Conjunction(1, 1, 2), Conjunction(2, 1, 2)]]

  function TwoClauses(id: nat): nat { 2 }

  /** A covered conjunction can go unreported: the second set completes conjunction 1,
      and its clause of conjunction 2 is not looked at. */
  lemma MissedConjunction()
    ensures SetsOk(CROSSED, TwoClauses) && Covered(CROSSED, TwoClauses, 1) && Covered(CROSSED, TwoClauses, 2)
    ensures Reported(CROSSED, TwoClauses, 1) && !Reported(CROSSED, TwoClauses, 2)
  {
    hide Taken, Reported;
    CrossedCovered();
    CrossedTaken();
    assert IsEntry(CROSSED, 0, 0, 1, 0) && IsEntry(CROSSED, 1, 0, 1, 1);
    forall k: nat | k < TwoClauses(1) ensures TakenSomewhere(CROSSED, TwoClauses, 1, k) { assert k == 0 || k == 1; }
    ReportedExactly(CROSSED, TwoClauses, 1);
    assert !TakenSomewhere(CROSSED, TwoClauses, 2, 1);
    ReportedExactly(CROSSED, TwoClauses, 2);
  }

  lemma CrossedCovered()
    ensures SetsOk(CROSSED, TwoClauses) && Covered(CROSSED, TwoClauses, 1) && Covered(CROSSED, TwoClauses, 2)
  {
    forall id: nat, k: nat | 1 <= id <= 2 && k < 2 ensures Seen(CROSSED, id, k) {
      assert CROSSED[k][id - 1] == Conjunction(id, k, 2);
      assert HasClause(CROSSED[k], |CROSSED[k]|, id, k);
    }
  }

  lemma CrossedTaken()
    ensures Taken(CROSSED, TwoClauses, 0, 0) && Taken(CROSSED, TwoClauses, 1, 0) && !Taken(CROSSED, TwoClauses, 1, 1)
  {
    assert Taken(CROSSED, TwoClauses, 0, 0) && Taken(CROSSED, TwoClauses, 1, 0);
    assert Completes(CROSSED, TwoClauses, 1, 0) by {
      hide Taken;
      forall k: nat | k < TwoClauses(1) ensures TakenBefore(CROSSED, TwoClauses, 1, 1, 1, k) {
        assert Earlier(k, 0, 1, 1) && IsEntry(CROSSED, k, 0, 1, k) && (k == 0 || k == 1);
      }
      assert AllBefore(CROSSED, TwoClauses, 1, 1, 1);
    }
  }

  /** Conjunction 1 has one clause, conjunction 2 has two. */
  const CUT_SHORT: seq<ConjSet> := [[Conjunction(1, 0, 1), Conjunction(2, 0, 2)], [Conjunction(2, 1, 2)]]

  function OneOrTwo(id: nat): nat { if id == 1 then 1 else 2 }

  /** A clause can be lost in an earlier set: nothing stands before conjunction 2 in
      the set with its last clause, and it still goes unreported. */
  lemma LostClause()
    ensures SetsOk(CUT_SHORT, OneOrTwo) && Covered(CUT_SHORT, OneOrTwo, 2) && !Reported(CUT_SHORT, OneOrTwo, 2)
  {
    hide Reported;
    forall k: nat | k < 2 ensures Seen(CUT_SHORT, 2, k) {
      assert CUT_SHORT[k][1 - k] == Conjunction(2, k, 2);
      assert HasClause(CUT_SHORT[k], |CUT_SHORT[k]|, 2, k);
    }
    assert Taken(CUT_SHORT, OneOrTwo, 0, 0);
    assert Completes(CUT_SHORT, OneOrTwo, 0, 0) by {
      assert Earlier(0, 0, 0, 1) && IsEntry(CUT_SHORT, 0, 0, 1, 0);
      assert AllBefore(CUT_SHORT, OneOrTwo, 0, 1, 1);
    }
    assert !Taken(CUT_SHORT, OneOrTwo, 0, 1);
    assert !TakenSomewhere(CUT_SHORT, OneOrTwo, 2, 0);
    ReportedExactly(CUT_SHORT, OneOrTwo, 2);
  }

  /** A conjunction's first clause word is full with any one clause exactly when the
      conjunction has that clause only, or 64: then the initial word is full. */
  lemma SixtyFourClauses(matches: Matches, id: nat, k: nat, n: nat)
    requires id !in matches && k < n && 1 <= n <= CLAUSE_BITS
    ensures AddClause(matches, Conjunction(id, k, n))[id] == ALL_CLAUSES <==> n == 1 || n == CLAUSE_BITS
  {
    hide PrefixBits;
    var word := AddClause(matches, Conjunction(id, k, n))[id];
    AllClausesBits(word);
    if 1 < n < CLAUSE_BITS {
      var other := if k == 0 then 1 else 0;
      assert other !in word;
    }
  }

  /** So 64 soft matches with the same clause of a 64-clause conjunction get it
      reported at once, with 63 clauses missing. */
  lemma FalseReport(id: nat, k: nat, size: nat -> nat)
    requires size(id) == CLAUSE_BITS && k < CLAUSE_BITS
    ensures var sets := seq(CLAUSE_BITS, _ => [Conjunction(id, k, CLAUSE_BITS)]);
            Scan(sets[0], |sets|, map[], 0).0 == Some(id) && !Covered(sets, size, id)
  {
    var sets := seq(CLAUSE_BITS, _ => [Conjunction(id, k, CLAUSE_BITS)]);
    SixtyFourClauses(map[], id, k, CLAUSE_BITS);
    var other := if k == 0 then 1 else 0;
    assert !Seen(sets, id, other);
  }
}
