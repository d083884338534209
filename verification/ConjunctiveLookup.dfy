/** When a lookup finds a conjunction: what the rounds of the soft match loop say about
    the stored rules. */
module ConjunctiveLookup {
  import opened Basics
  import opened Flows
  import opened Subtables
  import opened ClassifierLookup
  import opened LookupFunction
  import opened SoftMatches

  /** The sets are those of matching rules of priority `pri`. */
  ghost predicate SetsAt(view: View, version: nat, f: BitSet, pri: int, sets: seq<C.ConjSet>)
  {
    forall i :: 0 <= i < |sets| ==> SetAt(view, version, f, pri, sets[i])
  }

  ghost predicate SetAt(view: View, version: nat, f: BitSet, pri: int, s: C.ConjSet)
  {
    exists x :: SoftMatch(view, version, f, pri, x) && x.conj == s
  }

  /** Matching rules of priority `pri` cover all clauses of conjunction `id`. */
  ghost predicate CoveredAt(view: View, version: nat, f: BitSet, size: nat -> nat, pri: int, id: nat)
  {
    exists sets :: SetsAt(view, version, f, pri, sets) && C.Covered(sets, size, id)
  }

  /** Another conjunction covered at that priority stands before `id` in the set of a
      matching rule. */
  ghost predicate PrecededAt(view: View, version: nat, f: BitSet, size: nat -> nat, pri: int, id: nat)
  {
    exists s: C.ConjSet, i: nat, i': nat ::
      SetAt(view, version, f, pri, s) && i' < i < |s| && s[i].id == id && CoveredAt(view, version, f, size, pri, s[i'].id)
  }

  // ---- A full round ----

  lemma RoundSetsAt(view: View, version: nat, f: BitSet, rd: Round)
    requires RoundOk(view, version, f, rd)
    ensures SetsAt(view, version, f, rd.pri, SetsOf(rd.heads))
  {
    hide SoftMatch;
    forall i | 0 <= i < |rd.heads| ensures SetAt(view, version, f, rd.pri, SetsOf(rd.heads)[i]) {
      assert rd.heads[i] in rd.heads;
    }
  }

  lemma RoundSetsOk(view: View, version: nat, f: BitSet, size: nat -> nat, rd: Round)
    requires RoundOk(view, version, f, rd) && ConjSetsOk(view, size)
    ensures C.SetsOk(SetsOf(rd.heads), size)
  {
    hide C.SetOk;
    forall i | 0 <= i < |rd.heads| ensures C.SetOk(SetsOf(rd.heads)[i], size) {
      assert rd.heads[i] in rd.heads;
      assert SoftMatch(view, version, f, rd.pri, rd.heads[i]);
      var m :| Matching(view, version, f, (m, rd.heads[i]));
    }
  }

  /** Covered at the priority means covered by the sets of its round. */
  lemma RoundCovers(view: View, version: nat, f: BitSet, size: nat -> nat, rd: Round, id: nat)
    requires RoundOk(view, version, f, rd) && RoundFull(view, version, f, rd)
    ensures CoveredAt(view, version, f, size, rd.pri, id) <==> C.Covered(SetsOf(rd.heads), size, id)
  {
    hide SoftMatch, RoundOk;
    RoundSetsAt(view, version, f, rd);
    if CoveredAt(view, version, f, size, rd.pri, id) {
      var sets :| SetsAt(view, version, f, rd.pri, sets) && C.Covered(sets, size, id);
      forall k: nat | k < size(id) ensures C.Seen(SetsOf(rd.heads), id, k) {
        assert C.Seen(sets, id, k);
        var i :| 0 <= i < |sets| && C.HasClause(sets[i], |sets[i]|, id, k);
        assert SetAt(view, version, f, rd.pri, sets[i]);
        var x :| SoftMatch(view, version, f, rd.pri, x) && x.conj == sets[i];
        var j :| 0 <= j < |rd.heads| && rd.heads[j] == x;
        assert C.HasClause(SetsOf(rd.heads)[j], |SetsOf(rd.heads)[j]|, id, k);
      }
    }
  }

  /** In a round that came to nothing, a covered conjunction that no other one precedes
      has no match of its own. */
  lemma FailedRound(view: View, version: nat, f: BitSet, setId: SetConjId, size: nat -> nat, rd: Round, id: nat)
    requires RoundOk(view, version, f, rd) && RoundFull(view, version, f, rd) && ConjSetsOk(view, size)
    requires RoundFails(view, version, f, setId, size, rd)
    requires CoveredAt(view, version, f, size, rd.pri, id) && !PrecededAt(view, version, f, size, rd.pri, id)
    ensures NestedBest(view, version, setId(f, id), None)
  {
    hide NestedBest, RoundOk, RoundFull, ConjSetsOk, CoveredAt, C.Covered, C.SetsOk, C.ReportOf, SetAt;
    var sets := SetsOf(rd.heads);
    RoundSetsOk(view, version, f, size, rd);
    RoundCovers(view, version, f, size, rd, id);
    assert !C.Preceded(sets, size, id) by { NotPreceded(view, version, f, size, rd, id); }
    C.CoveredIsReported(sets, size, id);
    var j: nat :| j < |sets| && C.ReportOf(sets, size, j) == Some(id);
    assert FailsAt(view, version, f, setId, size, sets, j);
  }

  lemma NotPreceded(view: View, version: nat, f: BitSet, size: nat -> nat, rd: Round, id: nat)
    requires RoundOk(view, version, f, rd) && RoundFull(view, version, f, rd) && !PrecededAt(view, version, f, size, rd.pri, id)
    ensures !C.Preceded(SetsOf(rd.heads), size, id)
  {
    hide RoundOk, RoundFull, CoveredAt, C.Covered, SetAt;
    var sets: seq<C.ConjSet> := SetsOf(rd.heads);
    RoundSetsAt(view, version, f, rd);
    forall j: nat, i: nat, i': nat | j < |sets| && i' < i < |sets[j]| && sets[j][i].id == id
      ensures !C.Covered(sets, size, sets[j][i'].id)
    {
      assert SetAt(view, version, f, rd.pri, sets[j]);
      RoundCovers(view, version, f, size, rd, sets[j][i'].id);
    }
  }

  /** In a round that came to nothing, where something is covered, some covered
      conjunction was looked up and has no match of its own. */
  lemma FailedRoundTried(view: View, version: nat, f: BitSet, setId: SetConjId, size: nat -> nat, rd: Round, id: nat) returns (t: nat)
    requires RoundOk(view, version, f, rd) && RoundFull(view, version, f, rd) && ConjSetsOk(view, size)
    requires RoundFails(view, version, f, setId, size, rd) && CoveredAt(view, version, f, size, rd.pri, id)
    ensures CoveredAt(view, version, f, size, rd.pri, t) && NestedBest(view, version, setId(f, t), None)
  {
    hide NestedBest, RoundOk, RoundFull, ConjSetsOk, CoveredAt, C.Covered, C.SetsOk, C.ReportOf;
    var sets := SetsOf(rd.heads);
    RoundSetsOk(view, version, f, size, rd);
    RoundCovers(view, version, f, size, rd, id);
    C.SomeReported(sets, size);
    t :| C.Reported(sets, size, t);
    var j: nat :| j < |sets| && C.ReportOf(sets, size, j) == Some(t);
    C.ReportIsCovered(sets, size, j, t);
    RoundCovers(view, version, f, size, rd, t);
    assert FailsAt(view, version, f, setId, size, sets, j);
  }

  // ---- The whole lookup ----

  /** A priority at which something is covered had its round, if its soft matches had
      theirs. */
  lemma RoundFor(view: View, version: nat, f: BitSet, size: nat -> nat, rounds: seq<Round>, p: int, pri: int, id: nat) returns (k: nat)
    requires RoundsOk(view, version, f, rounds) && AllTried(view, version, f, rounds, p) && p < pri
    requires CoveredAt(view, version, f, size, pri, id)
    ensures k < |rounds| && rounds[k].pri == pri
  {
    hide Matching;
    var sets :| SetsAt(view, version, f, pri, sets) && C.Covered(sets, size, id);
    assert C.Seen(sets, id, 0);
    var i :| 0 <= i < |sets| && C.HasClause(sets[i], |sets[i]|, id, 0);
    assert SetAt(view, version, f, pri, sets[i]);
    var x :| SoftMatch(view, version, f, pri, x) && x.conj == sets[i];
    var m :| Matching(view, version, f, (m, x));
    assert Tried(rounds, x);
    k :| 0 <= k < |rounds| && x in rounds[k].heads;
    assert RoundOk(view, version, f, rounds[k]);
  }

  lemma InVain(view: View, version: nat, f: BitSet, setId: SetConjId, size: nat -> nat, rounds: seq<Round>, p: int, pri: int, id: nat)
    returns (t: nat)
    requires ConjSetsOk(view, size) && OnePerList(view, version, f, pri)
    requires RoundsOk(view, version, f, rounds) && RoundsFull(view, version, f, rounds) && AllFail(view, version, f, setId, size, rounds)
    requires AllTried(view, version, f, rounds, p) && p < pri && CoveredAt(view, version, f, size, pri, id)
    ensures CoveredAt(view, version, f, size, pri, t) && NestedBest(view, version, setId(f, t), None)
    ensures !PrecededAt(view, version, f, size, pri, id) ==> NestedBest(view, version, setId(f, id), None)
  {
    hide NestedBest, RoundOk, RoundFull, ConjSetsOk, CoveredAt, PrecededAt, OnePerList, RoundFails, AllTried;
    var k := RoundFor(view, version, f, size, rounds, p, pri, id);
    assert RoundOk(view, version, f, rounds[k]) && FullExactly(view, version, f, rounds[k]);
    assert RoundFails(view, version, f, setId, size, rounds[k]);
    t := FailedRoundTried(view, version, f, setId, size, rounds[k], id);
    if !PrecededAt(view, version, f, size, pri, id) { FailedRound(view, version, f, setId, size, rounds[k], id); }
  }

  /** A conjunction whose clauses are covered by matching rules of a priority above every
      hard match, that no other covered one precedes in a set, and that has a match of
      its own, is not overlooked: the lookup ends with a conjunction, at that priority or
      a higher one. */
  lemma ConjunctionIsFound(view: View, version: nat, f: BitSet, setId: SetConjId, size: nat -> nat, r: Option<ClsMatch>,
                           resolved: Option<nat>, rounds: seq<Round>, pri: int, id: nat)
    requires Outcome(view, version, f, setId, size, r, resolved, rounds) && ConjSetsOk(view, size) && OnePerList(view, version, f, pri)
    requires CoveredAt(view, version, f, size, pri, id) && !PrecededAt(view, version, f, size, pri, id)
    requires !NestedBest(view, version, setId(f, id), None)
    requires forall p :: Matching(view, version, f, p) && p.1.conj == [] ==> p.1.priority < pri
    requires pri > INT_MIN
    ensures resolved.Some? && rounds != [] && rounds[|rounds| - 1].pri >= pri
  {
    hide NestedBest, RoundsOk, RoundsFull, ConjSetsOk, CoveredAt, PrecededAt, OnePerList, AllFail, AllTried, Matching, NoneAbove;
    if resolved.None? {
      HardIsBelow(view, version, f, r, pri);
      var t := InVain(view, version, f, setId, size, rounds, Priority(r), pri, id);
    } else if rounds[|rounds| - 1].pri < pri {
      var n := |rounds| - 1;
      Shorter(view, version, f, rounds, n);
      var t := InVain(view, version, f, setId, size, rounds[..n], rounds[n].pri, pri, id);
    }
  }

  lemma HardIsBelow(view: View, version: nat, f: BitSet, r: Option<ClsMatch>, pri: int)
    requires IsBestHard(view, version, f, r) && pri > INT_MIN
    requires forall p :: Matching(view, version, f, p) && p.1.conj == [] ==> p.1.priority < pri
    ensures Priority(r) < pri
  {
    hide Matching;
  }

  lemma Shorter(view: View, version: nat, f: BitSet, rounds: seq<Round>, n: nat)
    requires RoundsOk(view, version, f, rounds) && RoundsFull(view, version, f, rounds) && n <= |rounds|
    ensures RoundsOk(view, version, f, rounds[..n]) && RoundsFull(view, version, f, rounds[..n])
  {
    hide RoundOk, FullExactly;
  }

  /** A lookup that ends without a conjunction, though one is covered above its result,
      has looked a covered one up in vain. */
  lemma NoneMeansInVain(view: View, version: nat, f: BitSet, setId: SetConjId, size: nat -> nat, r: Option<ClsMatch>,
                        resolved: Option<nat>, rounds: seq<Round>, pri: int, id: nat) returns (t: nat)
    requires Outcome(view, version, f, setId, size, r, resolved, rounds) && ConjSetsOk(view, size) && OnePerList(view, version, f, pri)
    requires resolved.None? && CoveredAt(view, version, f, size, pri, id) && Priority(r) < pri
    ensures CoveredAt(view, version, f, size, pri, t) && NestedBest(view, version, setId(f, t), None)
  {
    hide NestedBest, RoundsOk, RoundsFull, ConjSetsOk, CoveredAt, PrecededAt, OnePerList, AllFail, AllTried, IsBestHard;
    t := InVain(view, version, f, setId, size, rounds, Priority(r), pri, id);
  }

  /** What settles a lookup is covered by matching rules that no hard match exceeds. */
  lemma ResolvedIsCovered(view: View, version: nat, f: BitSet, setId: SetConjId, size: nat -> nat, id: nat, r: Option<ClsMatch>, rounds: seq<Round>)
    requires Resolved(view, version, f, setId, size, id, r, rounds) && ConjSetsOk(view, size)
    ensures CoveredAt(view, version, f, size, rounds[|rounds| - 1].pri, id) && NoneAbove(view, version, f, rounds[|rounds| - 1].pri)
  {
    hide NestedBest, RoundsFull, ConjSetsOk, AllFail, AllTried, NoneAbove, C.ReportOf, C.Covered, FailsAt, RoundOk;
    var last := rounds[|rounds| - 1];
    var n: nat :| FirstToSettle(view, version, f, setId, size, last, n, id);
    RoundSetsOk(view, version, f, size, last);
    RoundSetsAt(view, version, f, last);
    C.ReportIsCovered(SetsOf(last.heads), size, n, id);
  }

  /** With the two crossed sets of `Conjunctions.CROSSED` a round comes to nothing
      exactly when conjunction 1 has no match of its own, whatever conjunction 2 has. */
  lemma MissedRound(view: View, version: nat, f: BitSet, setId: SetConjId, rd: Round)
    requires SetsOf(rd.heads) == C.CROSSED
    ensures RoundFails(view, version, f, setId, C.TwoClauses, rd) <==> NestedBest(view, version, setId(f, 1), None)
  {
    hide NestedBest, C.ReportOf, C.Covered, C.TwoClauses;
    C.MissedConjunction();
    forall j: nat | j < |C.CROSSED| && C.ReportOf(C.CROSSED, C.TwoClauses, j).Some?
      ensures C.ReportOf(C.CROSSED, C.TwoClauses, j) == Some(1)
    {
      var t := C.ReportOf(C.CROSSED, C.TwoClauses, j).value;
      C.ReportIsCovered(C.CROSSED, C.TwoClauses, j, t);
      OnlyOneAndTwo(t);
    }
    var j: nat :| j < |C.CROSSED| && C.ReportOf(C.CROSSED, C.TwoClauses, j) == Some(1);
    if RoundFails(view, version, f, setId, C.TwoClauses, rd) {
      assert FailsAt(view, version, f, setId, C.TwoClauses, SetsOf(rd.heads), j);
    }
  }

  lemma OnlyOneAndTwo(t: nat)
    requires C.Covered(C.CROSSED, C.TwoClauses, t)
    ensures t == 1 || t == 2
  {
    assert C.Seen(C.CROSSED, t, 0);
  }

  /** A soft match that has clause `k` of conjunction `id` only. */
  function OneClause(rule: RuleId, id: nat, k: nat): ClsMatch
  {
    ClsMatch(rule, 10, {}, 0, CLS_NOT_REMOVED_VERSION, [Conjunction(id, k, 2)])
  }

  /** Why a list must not have two visible rules of one priority: they get their rounds
      one after the other, and a conjunction that needs the second rule of one list and
      the first of another is covered in neither. */
  lemma SplitAcrossRounds(version: nat)
    requires version <= CLS_MAX_VERSION
    ensures var x, x', y := OneClause(1, 1, 0), OneClause(2, 2, 0), OneClause(3, 2, 1);
            && Fallen([x, x'], version, 10) == [x'] && Fallen([y], version, 10) == []
            && !C.Covered(SetsOf([x, y]), C.TwoClauses, 2) && !C.Covered(SetsOf([x']), C.TwoClauses, 2)
            && C.Covered(SetsOf([x', y]), C.TwoClauses, 2)
  {
    hide Fallen, C.Covered, SetsOf;
    SecondComesNext(version);
    CoveredTogether();
  }

  lemma SecondComesNext(version: nat)
    requires version <= CLS_MAX_VERSION
    ensures Fallen([OneClause(1, 1, 0), OneClause(2, 2, 0)], version, 10) == [OneClause(2, 2, 0)]
    ensures Fallen([OneClause(3, 2, 1)], version, 10) == []
  {
    hide Fallen;
    FallsToSecond(OneClause(1, 1, 0), OneClause(2, 2, 0), version, 10);
    FallsAway(OneClause(3, 2, 1), version, 10);
  }

  lemma FallsToSecond(x: ClsMatch, x': ClsMatch, version: nat, pri: int)
    requires x.priority == pri && x'.Visible(version) && x'.conj != []
    ensures Fallen([x, x'], version, pri) == [x']
  {
    assert [x, x'][1..] == [x'];
  }

  lemma FallsAway(y: ClsMatch, version: nat, pri: int)
    requires y.priority == pri
    ensures Fallen([y], version, pri) == []
  {
    assert [y][1..] == [];
  }

  lemma CoveredTogether()
    ensures !C.Covered(SetsOf([OneClause(1, 1, 0), OneClause(3, 2, 1)]), C.TwoClauses, 2)
    ensures !C.Covered(SetsOf([OneClause(2, 2, 0)]), C.TwoClauses, 2)
    ensures C.Covered(SetsOf([OneClause(2, 2, 0), OneClause(3, 2, 1)]), C.TwoClauses, 2)
  {
    hide SetsOf;
    assert !C.Seen(SetsOf([OneClause(1, 1, 0), OneClause(3, 2, 1)]), 2, 0);
    assert !C.Seen(SetsOf([OneClause(2, 2, 0)]), 2, 1);
    var both := SetsOf([OneClause(2, 2, 0), OneClause(3, 2, 1)]);
    forall k: nat | k < 2 ensures C.Seen(both, 2, k) {
      assert both[k] == [Conjunction(2, k, 2)];
      assert both[k][0].id == 2 && C.HasClause(both[k], |both[k]|, 2, k);
    }
  }
}
