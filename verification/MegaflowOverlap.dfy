/** Whether the rules that lookups generate, each from a flow and its wildcard mask, can
    overlap. */
module MegaflowOverlap {
  import opened Basics
  import opened Flows
  import opened Subtables
  import opened StagedLookup
  import opened SubtableEdits
  import opened ClassifierState
  import opened ClassifierLookup
  import opened LookupFunction
  import C = Conjunctions
  import G = WildcardGaps

  /** The mask that a lookup leaves when nothing is un-wildcarded before. */
  ghost function MaskOf(e: Env, f: BitSet): BitSet
    requires EnvOk(e)
  {
    LookupRun(e, f, {}).wc
  }

  /** Flow `p` matches the rule made of flow `f` and its mask. */
  ghost predicate InMegaflow(e: Env, f: BitSet, p: BitSet)
    requires EnvOk(e)
  {
    Agree(MaskOf(e, f), f, p)
  }

  /** The rules made of the two flows are the same. */
  ghost predicate SameMegaflow(e: Env, f: BitSet, f': BitSet)
    requires EnvOk(e)
  {
    MaskOf(e, f) == MaskOf(e, f') && Agree(MaskOf(e, f), f, f')
  }

  /** No flow matches two different generated rules. */
  ghost predicate OverlapFree(e: Env)
    requires EnvOk(e)
  {
    forall f: BitSet, f': BitSet, p: BitSet :: InMegaflow(e, f, p) && InMegaflow(e, f', p) ==> SameMegaflow(e, f, f')
  }

  /** Every flow that matches a generated rule would generate the same. */
  ghost predicate MasksStable(e: Env)
    requires EnvOk(e)
  {
    forall f: BitSet, p: BitSet :: InMegaflow(e, f, p) ==> MaskOf(e, p) == MaskOf(e, f)
  }

  /** Generated rules do not overlap exactly when the flows of a rule all generate it. */
  lemma OverlapFreeExactly(e: Env)
    requires EnvOk(e)
    ensures OverlapFree(e) <==> MasksStable(e)
  {
    hide EnvOk, MaskOf;
    if OverlapFree(e) {
      forall f: BitSet, p: BitSet | InMegaflow(e, f, p) ensures MaskOf(e, p) == MaskOf(e, f) {
        assert InMegaflow(e, p, p);
        assert SameMegaflow(e, f, p);
      }
    }
    if MasksStable(e) {
      forall f: BitSet, f': BitSet, p: BitSet | InMegaflow(e, f, p) && InMegaflow(e, f', p) ensures SameMegaflow(e, f, f') {
        assert MaskOf(e, p) == MaskOf(e, f) && MaskOf(e, p) == MaskOf(e, f');
      }
    }
  }

  // ---- The bit kept of a difference ----

  /** The bit that a comparison keeps does not depend on bits that stay wildcarded: there is
      no difference, or one of its bits is un-wildcarded already, or so are all masked bits
      of the word that are less significant than the one kept. */
  ghost predicate SteadyDiff(big: bool, mask: BitSet, ws: seq<nat>, g: BitSet, f: BitSet, wc: BitSet)
  {
    var i := FirstDiff(mask, ws, g, f, 0);
    i < |ws| ==>
      var diff := Diff(InWords(mask, [ws[i]]), g, f);
      wc * diff != {} || AllBelow(big, mask, ws[i], Rightmost(big, diff, ws[i], 0), wc)
  }

  ghost predicate AllBelow(big: bool, mask: BitSet, w: nat, b: nat, wc: BitSet)
  {
    forall x: nat :: x in mask && x / WORD_BITS == w && Significance(big, x) < Significance(big, b) ==> x in wc
  }

  lemma {:induction false} RightmostLeast(big: bool, d: BitSet, w: nat, k: nat, x: nat)
    requires k < WORD_BITS && x in d && x / WORD_BITS == w && Significance(big, x) >= k
    ensures Significance(big, Rightmost(big, d, w, k)) <= Significance(big, x)
    decreases WORD_BITS - k
  {
    hide Significance, Significant;
    SignificanceOf(big, w, k);
    if k < WORD_BITS - 1 && Significant(big, w, k) !in d { RightmostLeast(big, d, w, k + 1, x); }
  }

  /** The words cover the mask, each once. */
  ghost predicate Covers(mask: BitSet, ws: seq<nat>)
  {
    (forall b: nat :: b in mask ==> b / WORD_BITS in ws) && (forall i, j :: 0 <= i < j < |ws| ==> ws[i] != ws[j])
  }

  /** What a comparison keeps of the flow: which word differs first, and in which bits. */
  lemma DiffsOf(mask: BitSet, ws: seq<nat>, g: BitSet, f: BitSet, i: nat)
    requires i <= |ws| && Agree(InWords(mask, ws[..i]), g, f) && (i < |ws| ==> !Agree(InWords(mask, [ws[i]]), g, f))
    ensures FirstDiff(mask, ws, g, f, 0) == i
  {
    var k := FirstDiff(mask, ws, g, f, 0);
    if k < i { InEarlierWord(mask, ws, g, f, k, i); }
    if i < k {
      AgreesUpTo(mask, ws, g, f);
      WordInPrefix(mask, ws, g, f, i, k);
    }
  }

  lemma InEarlierWord(mask: BitSet, ws: seq<nat>, g: BitSet, f: BitSet, k: nat, i: nat)
    requires k < i <= |ws| && Agree(InWords(mask, ws[..i]), g, f)
    ensures Diff(InWords(mask, [ws[k]]), g, f) == {}
  {
    WordInPrefix(mask, ws, g, f, k, i);
  }

  lemma WordInPrefix(mask: BitSet, ws: seq<nat>, g: BitSet, f: BitSet, k: nat, i: nat)
    requires k < i <= |ws| && Agree(InWords(mask, ws[..i]), g, f)
    ensures Agree(InWords(mask, [ws[k]]), g, f)
  {
    assert ws[k] in ws[..i] by { assert ws[..i][k] == ws[k]; }
    forall b: nat | b in InWords(mask, [ws[k]]) ensures b in g <==> b in f {
      assert b in InWords(mask, ws[..i]);
    }
  }

  /** With a steady difference every flow that agrees on what the comparison leaves makes it
      leave the same. */
  lemma SteadyStays(big: bool, mask: BitSet, ws: seq<nat>, g: BitSet, f: BitSet, wc: BitSet, p: BitSet)
    requires Covers(mask, ws) && SteadyDiff(big, mask, ws, g, f, wc) && Agree(Compared(big, mask, ws, g, f, wc), f, p)
    ensures Compared(big, mask, ws, g, p, wc) == Compared(big, mask, ws, g, f, wc)
  {
    hide Rightmost, Diff, Significance, FirstDiff, InWords;
    var i := FirstDiff(mask, ws, g, f, 0);
    AgreesUpTo(mask, ws, g, f);
    assert Agree(InWords(mask, ws[..i]), g, p);
    if i < |ws| {
      var word := InWords(mask, [ws[i]]);
      var diff, diff' := Diff(word, g, f), Diff(word, g, p);
      forall b: nat ensures (b in diff <==> b in word && (b in g) != (b in f)) && (b in diff' <==> b in word && (b in g) != (b in p)) {
        DiffMembers(word, g, f, b);
        DiffMembers(word, g, p, b);
      }
      assert wc * diff == wc * diff';
      var x :| x in diff;
      var b := Rightmost(big, diff, ws[i], 0);
      RightmostIsIn(big, diff, ws[i], 0, x);
      if wc * diff != {} {
        var y :| y in wc * diff;
        assert y in diff';
      } else {
        assert b in diff';
        SameRightmost(big, mask, ws[i], diff, diff', wc);
      }
    }
    DiffsOf(mask, ws, g, p, i);
  }

  lemma SameRightmost(big: bool, mask: BitSet, w: nat, diff: BitSet, diff': BitSet, wc: BitSet)
    requires forall x :: x in diff + diff' ==> x in mask && x / WORD_BITS == w
    requires diff != {} && wc * diff == wc * diff' == {}
    requires var b := Rightmost(big, diff, w, 0); b in diff' && AllBelow(big, mask, w, b, wc)
    ensures Rightmost(big, diff', w, 0) == Rightmost(big, diff, w, 0)
  {
    hide Rightmost, Significance;
    var b := Rightmost(big, diff, w, 0);
    forall x | x in diff' && x / WORD_BITS == w ensures Significance(big, b) <= Significance(big, x) {
      assert x in wc ==> x in wc * diff';
    }
    RightmostIs(big, diff', w, 0, b);
  }

  /** The flow with one bit flipped. */
  function Flip(f: BitSet, x: nat): BitSet { if x in f then f - {x} else f + {x} }

  /** Without a steady difference flipping a bit that stays wildcarded changes what is left. */
  lemma UnsteadyChanges(big: bool, mask: BitSet, ws: seq<nat>, g: BitSet, f: BitSet, wc: BitSet) returns (p: BitSet)
    requires Covers(mask, ws) && !SteadyDiff(big, mask, ws, g, f, wc)
    ensures Agree(Compared(big, mask, ws, g, f, wc), f, p) && Compared(big, mask, ws, g, p, wc) != Compared(big, mask, ws, g, f, wc)
    ensures var i := FirstDiff(mask, ws, g, f, 0); i < |ws| && exists x: nat :: x in mask && x / WORD_BITS == ws[i] && p == Flip(f, x)
  {
    hide Rightmost, Diff, Significance, FirstDiff, InWords;
    var i := FirstDiff(mask, ws, g, f, 0);
    var word := InWords(mask, [ws[i]]);
    var diff := Diff(word, g, f);
    var b := Rightmost(big, diff, ws[i], 0);
    var x: nat :| x in mask && x / WORD_BITS == ws[i] && Significance(big, x) < Significance(big, b) && x !in wc;
    p := Flip(f, x);
    var diff' := Diff(word, g, p);
    forall y: nat ensures (y in diff <==> y in word && (y in g) != (y in f)) && (y in diff' <==> y in word && (y in g) != (y in p)) {
      DiffMembers(word, g, f, y);
      DiffMembers(word, g, p, y);
    }
    assert x !in diff by { if x in diff { RightmostLeast(big, diff, ws[i], 0, x); } }
    assert diff' == diff + {x};
    AgreesUpTo(mask, ws, g, f);
    assert x !in InWords(mask, ws[..i]) by { NotTwice(ws, i); }
    assert Agree(InWords(mask, ws[..i]), g, p);
    DiffsOf(mask, ws, g, p, i);
    forall y | y in diff' && y / WORD_BITS == ws[i] ensures Significance(big, x) <= Significance(big, y) {
      if y in diff { RightmostLeast(big, diff, ws[i], 0, y); }
    }
    RightmostIs(big, diff', ws[i], 0, x);
    assert x in Compared(big, mask, ws, g, p, wc);
  }

  lemma NotTwice(ws: seq<nat>, i: nat)
    requires i < |ws| && forall a, b :: 0 <= a < b < |ws| ==> ws[a] != ws[b]
    ensures ws[i] !in ws[..i]
  {
  }

  /** The comparison leaves the same for all flows that agree on it exactly when the
      difference is steady. */
  lemma ComparedSteadily(big: bool, mask: BitSet, ws: seq<nat>, g: BitSet, f: BitSet, wc: BitSet)
    requires Covers(mask, ws)
    ensures SteadyDiff(big, mask, ws, g, f, wc) <==>
            forall p: BitSet :: Agree(Compared(big, mask, ws, g, f, wc), f, p) ==> Compared(big, mask, ws, g, p, wc) == Compared(big, mask, ws, g, f, wc)
  {
    hide Compared, SteadyDiff, Agree;
    if SteadyDiff(big, mask, ws, g, f, wc) {
      forall p: BitSet | Agree(Compared(big, mask, ws, g, f, wc), f, p) ensures Compared(big, mask, ws, g, p, wc) == Compared(big, mask, ws, g, f, wc) {
        SteadyStays(big, mask, ws, g, f, wc, p);
      }
    } else {
      var p := UnsteadyChanges(big, mask, ws, g, f, wc);
    }
  }

  // ---- One search ----

  /** Every flow that agrees on what the search leaves makes it leave the same. */
  ghost predicate Stable(c: Config, tries: seq<T.Trie>, st: Subtable, version: nat, f: BitSet, wc: BitSet)
    requires StaticOk(c, st) && ChainsOk(st) && |tries| == |c.fields|
  {
    forall p: BitSet :: Agree(Folded(c, tries, st, version, f, wc), f, p) ==> Folded(c, tries, st, version, p, wc) == Folded(c, tries, st, version, f, wc)
  }

  /** Unless the search ends with a comparison that fails, nothing is asked; then, that the
      difference is steady. */
  ghost predicate Steady(c: Config, st: Subtable, f: BitSet, wc: BitSet)
    requires StaticOk(c, st) && ChainsOk(st) && c.fields == []
  {
    NonEmptyChains(st);
    match ExitOf(c, [], st, f, wc)
    case OneList(i, only) => only in st.chains && (HeadMatches(st, only, f) || SteadyDiff(c.bigEndian, st.mask, MaskWords(st), st.Head(only).flow, f, wc))
    case _ => true
  }

  lemma SameBucket(c: Config, st: Subtable, f: BitSet, p: BitSet, i: nat)
    requires i < |st.stages| && Agree(InWords(st.mask, Upto(st.stages, i + 1)), f, p)
    ensures Bucket(c, st, i, p) == Bucket(c, st, i, f)
  {
    HashWordsAgree(c.hasher, f, p, st.mask, Upto(st.stages, i + 1), 0);
  }

  /** The search goes the same way as far as the flows agree on the stages. */
  lemma {:induction false} SameExit(c: Config, st: Subtable, f: BitSet, p: BitSet, wc: BitSet, i: nat, n: nat)
    requires StaticOk(c, st) && c.fields == [] && i <= n <= |st.indices| && Agree(InWords(st.mask, Upto(st.stages, n)), f, p)
    requires var e := ExitFrom(c, [], st, f, wc, i); if e.LastStage? then n == |st.indices| else n == e.i + 1
    ensures ExitFrom(c, [], st, p, wc, i) == ExitFrom(c, [], st, f, wc, i)
    decreases n - i
  {
    hide Bucket, Skips, StaticOk;
    Lengths(c, st);
    if i < n {
      UptoAgrees(st, f, p, i + 1, n);
      SameBucket(c, st, f, p, i);
      if ExitFrom(c, [], st, f, wc, i) == ExitFrom(c, [], st, f, wc, i + 1) && i + 1 <= n && GoesOn(c, [], st, f, wc, i) { SameExit(c, st, f, p, wc, i + 1, n); }
    }
  }

  lemma UptoAgrees(st: Subtable, f: BitSet, p: BitSet, i: nat, n: nat)
    requires i <= n <= |st.stages| && Agree(InWords(st.mask, Upto(st.stages, n)), f, p)
    ensures Agree(InWords(st.mask, Upto(st.stages, i)), f, p)
  {
    UptoIsPrefix(st.stages, i, n);
    forall w | w in Upto(st.stages, i) ensures w in Upto(st.stages, n) {
      var k :| 0 <= k < |Upto(st.stages, i)| && Upto(st.stages, i)[k] == w;
      assert Upto(st.stages, n)[..|Upto(st.stages, i)|][k] == w;
    }
    forall b: nat | b in InWords(st.mask, Upto(st.stages, i)) ensures b in f <==> b in p {
      assert b in InWords(st.mask, Upto(st.stages, n));
    }
  }

  /** What the search looked at before its end is un-wildcarded. */
  lemma StagesKept(c: Config, st: Subtable, version: nat, f: BitSet, wc: BitSet)
    requires SubtableOk(c, st) && c.fields == [] && NoCollision(c, st, f)
    ensures var e := ExitOf(c, [], st, f, wc);
            !e.Skipped? && (e.LastStage? || e.i < |st.indices|) && |st.stages| == |st.indices| + 1
            && InWords(st.mask, Upto(st.stages, if e.LastStage? then |st.indices| else e.i + 1)) <= Folded(c, [], st, version, f, wc)
  {
    hide MapsOk, PortsOk, ChainOk, FindSpec, CompareFolds, HeadMatches, Skips, StageHash, InWords, EndFolds;
    NonEmptyChains(st);
    match ExitOf(c, [], st, f, wc)
    case Skipped(i, j) =>
    case NoList(i) =>
    case OneList(i, only) =>
      assert only in Bucket(c, st, i, f);
      BucketIndex(c, st, i, f, only);
      if HeadMatches(st, only, f) {
        MatchFoldsAll(c, st, f, wc, only);
        assert InWords(st.mask, Upto(st.stages, i + 1)) <= st.mask;
      } else {
        var b := DifferenceKept(c, st, i, f, wc, only);
      }
    case LastStage => EarlierStagesKept(c, st, version, f, wc);
  }

  lemma EarlierStagesKept(c: Config, st: Subtable, version: nat, f: BitSet, wc: BitSet)
    requires SubtableOk(c, st)
    ensures InWords(st.mask, Upto(st.stages, |st.indices|)) <= EndFolds(c, st, version, f, wc)
  {
    hide MapsOk, PortsOk, ChainOk, FindSpec;
  }

  /** A flow that agrees on what the search leaves takes the same way. */
  lemma SameWay(c: Config, st: Subtable, version: nat, f: BitSet, wc: BitSet, p: BitSet)
    requires SubtableOk(c, st) && c.fields == [] && NoCollision(c, st, f) && Agree(Folded(c, [], st, version, f, wc), f, p)
    ensures ExitOf(c, [], st, p, wc) == ExitOf(c, [], st, f, wc)
  {
    hide MapsOk, PortsOk, ChainOk, StaticOk, Folded, NoCollision, Agree, ExitFrom;
    StagesKept(c, st, version, f, wc);
    var e := ExitOf(c, [], st, f, wc);
    var n := if e.LastStage? then |st.indices| else e.i + 1;
    AgreeMore(InWords(st.mask, Upto(st.stages, n)), Folded(c, [], st, version, f, wc), f, p);
    SameExit(c, st, f, p, wc, 0, n);
  }

  lemma MaskCovered(c: Config, st: Subtable)
    requires StaticOk(c, st)
    ensures Covers(st.mask, MaskWords(st))
  {
    var ws := MaskWords(st);
    forall b: nat | b in st.mask ensures b / WORD_BITS in ws { MaskBitInMap(c, st, b); }
    forall i, j | 0 <= i < j < |ws| ensures ws[i] != ws[j] { WordsAscend(c, st, i, j); }
  }

  /** A rule that matches leaves nothing unsteady. */
  lemma MatchIsSteady(big: bool, mask: BitSet, ws: seq<nat>, g: BitSet, f: BitSet, wc: BitSet)
    requires Agree(mask, g, f)
    ensures SteadyDiff(big, mask, ws, g, f, wc)
  {
  }

  /** What the exit after the last stage leaves is the same for flows that agree on it. */
  lemma SameEnd(c: Config, st: Subtable, version: nat, f: BitSet, wc: BitSet, p: BitSet)
    requires SubtableOk(c, st) && PortsFinal(c, st) && Agree(EndFolds(c, st, version, f, wc), f, p)
    ensures EndFolds(c, st, version, p, wc) == EndFolds(c, st, version, f, wc)
  {
    hide MapsOk, PortsOk, ChainOk, FindSpec, Sound, T.DecidingBits, EndSafe;
    PortsFinalIsSafe(c, st, version, f, wc);
    EndExactly(c, st, version, f, wc);
    SoundAt(st, version, f, EndFolds(c, st, version, f, wc), p);
    if FindSpec(st, version, f) == [] && st.portsMaskLen > 0 {
      PortsTrieFits(c, st);
      var v, v' := Ports(c, st.mask, f), Ports(c, st.mask, p);
      T.DecidingCovers(st.portsTrie, v);
      SharedPorts(c, st, f, p, EndFolds(c, st, version, f, wc), T.DecidingBits(st.portsTrie, v));
      T.DecidingSame(st.portsTrie, v, v');
    }
  }

  lemma SoundAt(st: Subtable, version: nat, f: BitSet, wc: BitSet, p: BitSet)
    requires ChainsOk(st) && Sound(st, version, f, wc, FindSpec(st, version, f)) && Agree(wc, f, p)
    ensures FindSpec(st, version, p) == FindSpec(st, version, f)
  {
  }

  /** Without tries and collisions, a search leaves the same for all flows that agree on it
      exactly when it is steady. */
  lemma StableExactly(c: Config, st: Subtable, version: nat, f: BitSet, wc: BitSet)
    requires SubtableOk(c, st) && c.fields == [] && NoCollision(c, st, f) && PortsFinal(c, st)
    ensures Stable(c, [], st, version, f, wc) <==> Steady(c, st, f, wc)
  {
    hide MapsOk, PortsOk, ChainOk, StaticOk, FindSpec, SteadyDiff, Compared, EndFolds, NoCollision, PortsFinal, Agree, Bucket, ExitOf;
    NonEmptyChains(st);
    if Steady(c, st, f, wc) {
      forall p: BitSet | Agree(Folded(c, [], st, version, f, wc), f, p) ensures Folded(c, [], st, version, p, wc) == Folded(c, [], st, version, f, wc) {
        SteadySearch(c, st, version, f, wc, p);
      }
    } else {
      var p := UnsteadySearch(c, st, version, f, wc);
    }
  }

  lemma SteadySearch(c: Config, st: Subtable, version: nat, f: BitSet, wc: BitSet, p: BitSet)
    requires SubtableOk(c, st) && c.fields == [] && NoCollision(c, st, f) && PortsFinal(c, st)
    requires Steady(c, st, f, wc) && Agree(Folded(c, [], st, version, f, wc), f, p)
    ensures Folded(c, [], st, version, p, wc) == Folded(c, [], st, version, f, wc)
  {
    hide MapsOk, PortsOk, ChainOk, StaticOk, FindSpec, SteadyDiff, Compared, EndFolds, NoCollision, PortsFinal, Agree, ExitOf, StageHash;
    NonEmptyChains(st);
    SameWay(c, st, version, f, wc, p);
    StagesKept(c, st, version, f, wc);
    match ExitOf(c, [], st, f, wc)
    case Skipped(i, j) =>
    case NoList(i) =>
    case OneList(i, only) => SteadyList(c, st, version, f, wc, p, i, only);
    case LastStage => SameEnd(c, st, version, f, wc, p);
  }

  lemma SteadyList(c: Config, st: Subtable, version: nat, f: BitSet, wc: BitSet, p: BitSet, i: nat, only: RuleId)
    requires SubtableOk(c, st) && c.fields == [] && ExitOf(c, [], st, f, wc) == ExitOf(c, [], st, p, wc) == OneList(i, only)
    requires Steady(c, st, f, wc) && Agree(Folded(c, [], st, version, f, wc), f, p)
    ensures Folded(c, [], st, version, p, wc) == Folded(c, [], st, version, f, wc)
  {
    hide MapsOk, PortsOk, ChainOk, FindSpec, SteadyDiff, Compared, EndFolds, Agree, ExitFrom, StageHash;
    NonEmptyChains(st);
    var g, ws := st.Head(only).flow, MaskWords(st);
    MaskCovered(c, st);
    if HeadMatches(st, only, f) { MatchIsSteady(c.bigEndian, st.mask, ws, g, f, wc); }
    SteadyStays(c.bigEndian, st.mask, ws, g, f, wc, p);
  }

  lemma UnsteadySearch(c: Config, st: Subtable, version: nat, f: BitSet, wc: BitSet) returns (p: BitSet)
    requires SubtableOk(c, st) && c.fields == [] && NoCollision(c, st, f) && !Steady(c, st, f, wc)
    ensures Agree(Folded(c, [], st, version, f, wc), f, p) && Folded(c, [], st, version, p, wc) != Folded(c, [], st, version, f, wc)
  {
    hide MapsOk, PortsOk, ChainOk, FindSpec, SteadyDiff, Compared, EndFolds, Agree, ExitFrom, NoCollision, StageHash;
    NonEmptyChains(st);
    var e := ExitOf(c, [], st, f, wc);
    assert e.OneList?;
    StagesKept(c, st, version, f, wc);
    assert e.only in Bucket(c, st, e.i, f);
    BucketIndex(c, st, e.i, f, e.only);
    MaskCovered(c, st);
    p := UnsteadyChanges(c.bigEndian, st.mask, MaskWords(st), st.Head(e.only).flow, f, wc);
    SameWay(c, st, version, f, wc, p);
  }

  // ---- The whole lookup ----

  /** The search of table `k` is safe, and leaves the same for all flows that agree on it. */
  ghost predicate StableAt(e: Env, k: nat, f: BitSet, wc: BitSet)
    requires EnvOk(e) && k < |e.order|
  {
    && SafeAt(e.c, e.tables, e.order, e.tries, e.version, f, wc, k)
    && forall p: BitSet :: Agree(FoldedAt(e.c, e.tables, e.order, e.tries, e.version, f, wc, k), f, p) ==>
         FoldedAt(e.c, e.tables, e.order, e.tries, e.version, p, wc, k) == FoldedAt(e.c, e.tables, e.order, e.tries, e.version, f, wc, k)
  }

  ghost predicate AllStable(e: Env)
    requires EnvOk(e)
  {
    forall k: nat, f: BitSet, wc: BitSet :: k < |e.order| ==> StableAt(e, k, f, wc)
  }

  lemma {:induction false} FoldedSame(e: Env, f: BitSet, p: BitSet, wc: BitSet, n: nat)
    requires EnvOk(e) && AllStable(e) && n <= |e.order|
    requires Agree(FoldedBy(e.c, e.tables, e.order, e.tries, e.version, f, wc, n), f, p)
    ensures FoldedBy(e.c, e.tables, e.order, e.tries, e.version, p, wc, n) == FoldedBy(e.c, e.tables, e.order, e.tries, e.version, f, wc, n)
  {
    hide Ready, TriesFit, FoldedAt, Agree, SafeAt;
    if n > 0 {
      var was := FoldedBy(e.c, e.tables, e.order, e.tries, e.version, f, wc, n - 1);
      FoldedGrows(e.c, e.tables, e.order, e.tries, e.version, f, wc, n - 1, n);
      AgreeMore(was, FoldedBy(e.c, e.tables, e.order, e.tries, e.version, f, wc, n), f, p);
      FoldedSame(e, f, p, wc, n - 1);
      assert StableAt(e, n - 1, f, was);
    }
  }

  lemma SearchSame(e: Env, f: BitSet, p: BitSet, allow: bool, wc: BitSet, w: BitSet)
    requires EnvOk(e) && AllStable(e) && SearchFolds(e, f, allow, wc) <= w && Agree(w, f, p)
    ensures Search(e, p, allow) == Search(e, f, allow) && SearchFolds(e, p, allow, wc) == SearchFolds(e, f, allow, wc)
  {
    hide Ready, TriesFit, Agree, Search, SafeAt, FoldedAt, FoldedBy, Stop;
    AllSearchSafe(e, f, allow, wc);
    SearchServes(e, f, p, allow, wc, w);
    AgreeMore(SearchFolds(e, f, allow, wc), w, f, p);
    FoldedSame(e, f, p, wc, SearchN(e, f, allow));
  }

  lemma AllSearchSafe(e: Env, f: BitSet, allow: bool, wc: BitSet)
    requires EnvOk(e) && AllStable(e)
    ensures SearchSafe(e, f, allow, wc)
  {
    hide Ready, TriesFit, SafeAt, FoldedBy, Stop, Agree, FoldedAt;
    forall k | 0 <= k < SearchN(e, f, allow)
      ensures SafeAt(e.c, e.tables, e.order, e.tries, e.version, f, FoldedBy(e.c, e.tables, e.order, e.tries, e.version, f, wc, k), k)
    {
      assert StableAt(e, k, f, FoldedBy(e.c, e.tables, e.order, e.tries, e.version, f, wc, k));
    }
  }

  lemma {:induction false} TrySame(e: Env, f: BitSet, p: BitSet, sets: seq<C.ConjSet>, j: nat, wc: BitSet, w: BitSet)
    requires EnvOk(e) && AllStable(e) && StoresId(e.setId) && j <= |sets| && Try(e, f, sets, j, wc, true).wc <= w && Agree(w, f, p)
    ensures Try(e, p, sets, j, wc, true) == Try(e, f, sets, j, wc, true)
    ensures forall t :: Try(e, f, sets, j, wc, true).found == Some(t) ==> Search(e, e.setId(p, t), false) == Search(e, e.setId(f, t), false)
    decreases |sets| - j
  {
    hide EnvOk, C.ReportOf, SearchFolds, SearchSafe, Search, StoresId, AllStable, Agree;
    if j < |sets| {
      var t := C.ReportOf(sets, e.size, j);
      if t.None? {
        TrySame(e, f, p, sets, j + 1, wc, w);
      } else {
        var g, g' := e.setId(f, t.value), e.setId(p, t.value);
        AllSearchSafe(e, g, false, wc);
        AllSearchSafe(e, g', false, wc);
        TryGrows(e, f, sets, j + 1, SearchFolds(e, g, false, wc), true);
        IdKept(e.setId, w, f, p, t.value);
        SearchSame(e, g, g', false, wc, w);
        if Search(e, g, false).hard.None? { TrySame(e, f, p, sets, j + 1, SearchFolds(e, g, false, wc), w); }
      }
    }
  }

  lemma {:induction false} SettleSame(e: Env, f: BitSet, p: BitSet, hard: Option<ClsMatch>, left: seq<RulePtr>, wc: BitSet, w: BitSet)
    requires EnvOk(e) && AllStable(e) && StoresId(e.setId) && Settle(e, f, hard, left, wc, true).wc <= w && Agree(w, f, p)
    ensures Settle(e, p, hard, left, wc, true) == Settle(e, f, hard, left, wc, true)
    decreases TotalLen(left)
  {
    hide EnvOk, Try, Search, TopSets, Fallen, FallHard, Dropped, TopOf, TotalLen, AllFallen, StoresId, Agree, AllStable;
    DroppedIsAlive(left, 0, Priority(hard));
    var now := Dropped(left, 0, Priority(hard));
    if now != [] {
      var top := TopOf(now, |now|);
      var sets := TopSets(now, |now|, top);
      var s := Try(e, f, sets, 0, wc, true);
      TopIs(now, |now|);
      FallBackShrinks(now, top, e.version, AllFallen(now, e.version, top));
      AllTrySafe(e, f, sets, 0, wc);
      var hard1, left1 := FallHard(now, e.version, top, hard, |now|), AllFallen(now, e.version, top);
      if s.found.None? { SettleGrows(e, f, hard1, left1, s.wc, s.safe); }
      TrySame(e, f, p, sets, 0, wc, w);
      if s.found.None? { SettleSame(e, f, p, hard1, left1, s.wc, w); }
    }
  }

  lemma {:induction false} AllTrySafe(e: Env, f: BitSet, sets: seq<C.ConjSet>, j: nat, wc: BitSet)
    requires EnvOk(e) && AllStable(e) && j <= |sets|
    ensures Try(e, f, sets, j, wc, true).safe
    decreases |sets| - j
  {
    hide EnvOk, C.ReportOf, SearchFolds, SearchSafe, Search, AllStable;
    if j < |sets| {
      var t := C.ReportOf(sets, e.size, j);
      if t.None? {
        AllTrySafe(e, f, sets, j + 1, wc);
      } else {
        AllSearchSafe(e, e.setId(f, t.value), false, wc);
        AllTrySafe(e, f, sets, j + 1, SearchFolds(e, e.setId(f, t.value), false, wc));
      }
    }
  }

  /** If every search is stable, generated rules do not overlap, conjunctions or not. */
  lemma StableMeansNoOverlap(e: Env)
    requires EnvOk(e) && AllStable(e) && StoresId(e.setId)
    ensures OverlapFree(e)
  {
    hide EnvOk, AllStable, StoresId, Settle, Search, SearchFolds, SearchSafe, Agree;
    forall f: BitSet, p: BitSet | InMegaflow(e, f, p) ensures MaskOf(e, p) == MaskOf(e, f) {
      var s, wc := Search(e, f, true), SearchFolds(e, f, true, {});
      AllSearchSafe(e, f, true, {});
      AllSearchSafe(e, p, true, {});
      SettleGrows(e, f, s.hard, s.soft, wc, true);
      SearchSame(e, f, p, true, {}, MaskOf(e, f));
      SettleSame(e, f, p, s.hard, s.soft, wc, MaskOf(e, f));
    }
    OverlapFreeExactly(e);
  }

  /** Searches of the table are steady, whatever was un-wildcarded before; no index hash of a
      rule collides with the flow's, and a last stage with ports has only ports. */
  ghost predicate AlwaysSteady(e: Env, m: BitSet, f: BitSet)
    requires EnvOk(e) && e.c.fields == [] && m in e.tables
  {
    TableOkAt(e, m);
    NoCollision(e.c, e.tables[m], f) && PortsFinal(e.c, e.tables[m]) && forall wc: BitSet :: Steady(e.c, e.tables[m], f, wc)
  }

  lemma TableOkAt(e: Env, m: BitSet)
    requires EnvOk(e) && m in e.tables
    ensures SubtableOk(e.c, e.tables[m])
  {
    hide TriesFit, SubtableOk, OrderOk, IdsOk, MaxOk;
  }

  /** Without tries and collisions: steady searches are stable. */
  lemma SteadyMeansStable(e: Env)
    requires EnvOk(e) && e.c.fields == [] && forall m, f: BitSet :: m in e.tables ==> AlwaysSteady(e, m, f)
    ensures AllStable(e)
  {
    hide Ready, TriesFit, AlwaysSteady, FoldedAt, SafeAt, Agree;
    forall k: nat, f: BitSet, wc: BitSet | k < |e.order| ensures StableAt(e, k, f, wc) {
      InOrder(e, k);
      assert AlwaysSteady(e, e.order[k].mask, f);
      SteadyAt(e, k, f, wc);
    }
  }

  lemma InOrder(e: Env, k: nat)
    requires EnvOk(e) && k < |e.order|
    ensures e.order[k].mask in e.tables
  {
    hide TablesOk, TriesFit;
  }

  lemma SteadyAt(e: Env, k: nat, f: BitSet, wc: BitSet)
    requires EnvOk(e) && e.c.fields == [] && k < |e.order| && AlwaysSteady(e, e.order[k].mask, f)
    ensures StableAt(e, k, f, wc)
  {
    hide StaticOk, ChainsOk, MapsOk, PortsOk, IdsOk, MaxOk, Folded, Safe, Steady, NoCollision, PortsFinal, Agree, CountsOk;
    FieldsFit(e.c, e.tries);
    var st := e.tables[e.order[k].mask];
    assert e.tries == [];
    StableExactly(e.c, st, e.version, f, wc);
    FreeIsSafe(e.c, e.tries, st, e.version, f, wc);
  }

  /** A classifier without tries whose tables have one stage each, as without flow segments,
      generates no overlapping rules. */
  lemma OneStageNoOverlap(e: Env)
    requires EnvOk(e) && e.c.fields == [] && StoresId(e.setId)
    requires forall m :: m in e.tables ==> e.tables[m].indices == [] && PortsFinal(e.c, e.tables[m])
    ensures OverlapFree(e)
  {
    hide EnvOk, AlwaysSteady, OverlapFree, StoresId, AllStable, PortsFinal;
    forall m, f: BitSet | m in e.tables ensures AlwaysSteady(e, m, f) { OneStage(e, m, f); }
    SteadyMeansStable(e);
    StableMeansNoOverlap(e);
  }

  lemma OneStage(e: Env, m: BitSet, f: BitSet)
    requires EnvOk(e) && e.c.fields == [] && m in e.tables && e.tables[m].indices == [] && PortsFinal(e.c, e.tables[m])
    ensures AlwaysSteady(e, m, f)
  {
    hide EnvOk, MapsOk, PortsOk, ChainOk, PortsFinal, Bucket, Skips;
    TableOkAt(e, m);
  }

  // ---- Rules that overlap ----

  const THREE: BitSet := {0, 64, 65}

  /** One list, {0}, in a table with an index on the first word. */
  function OneList0(): Subtable
  {
    Subtable(THREE, [[0], [1]], [], 0, 5, 1, map[1 := [G.Rule(1, {0})]], [{(1, 1)}], {(1, 1)}, T.Null)
  }

  function Single(big: bool, version: nat, setId: SetConjId, size: nat -> nat): Env
  {
    Env(G.IndexConfig(big), map[THREE := OneList0()], [Entry(5, THREE)], [], version, setId, size)
  }

  lemma CountsZero(big: bool, f: BitSet, i: nat)
    requires i < 2 && f * THREE <= {0, 64, 65}
    ensures StageHash(G.IndexConfig(big), THREE, OneList0().stages, i, f) == |Word(f * THREE, 0)| + if i == 0 then 0 else |Word(f * THREE, 1)|
  {
    assert Upto(OneList0().stages, 1) == [0] && Upto(OneList0().stages, 2) == [0, 1];
    assert [0, 1][1..] == [1] && [1][1..] == [] && [0][1..] == [];
  }

  lemma FirstWords(f: BitSet)
    requires 0 in f
    ensures Word(f * THREE, 0) == {0} && (f == {0} ==> Word(f * THREE, 1) == {})
  {
    forall k: nat ensures k in Word(f * THREE, 0) <==> k == 0 { }
  }

  lemma OneHash(big: bool, f: BitSet)
    requires 0 in f
    ensures StageHash(G.IndexConfig(big), THREE, OneList0().stages, 0, f) == 1
    ensures f == {0} ==> StageHash(G.IndexConfig(big), THREE, OneList0().stages, 1, f) == 1
  {
    hide StageHash;
    FirstWords(f);
    CountsZero(big, f, 0);
    CountsZero(big, f, 1);
  }

  lemma OneStatic(big: bool)
    ensures StaticOk(G.IndexConfig(big), OneList0()) && PortsOk(G.IndexConfig(big), OneList0())
  {
    assert Upto(OneList0().stages, 1) == [0] && Upto(OneList0().stages, 2) == [0, 1];
    assert 0 in Word(THREE, 0) && 0 in Word(THREE, 1);
    assert MapInRange(THREE, 2, 2) == [] && MapInRange(THREE, 1, 2) == [1] && MapInRange(THREE, 0, 2) == [0, 1];
  }

  lemma OneChain()
    ensures ChainsOk(OneList0()) && OneList0().chains.Keys == {1} && OneList0().Head(1).flow == {0} && OneList0().chains[1] == [G.Rule(1, {0})]
  {
  }

  lemma OneRule()
    ensures IdsOk(OneList0()) && MaxOk(OneList0())
  {
    hide OneList0;
    OneChain();
    OneTop();
    OneOnly(OneList0(), 1, G.Rule(1, {0}));
  }

  lemma OneOnly(st: Subtable, id: RuleId, x: ClsMatch)
    requires st.chains.Keys == {id} && st.chains[id] == [x] && st.maxPriority == x.priority && st.maxCount == 1
    ensures IdsOk(st) && MaxOk(st)
  {
    assert All(st) == {x} by {
      assert x in st.chains[id];
      forall y ensures y in All(st) <==> y == x { }
    }
    assert RulesAt(st, x.priority) == {x};
  }

  lemma OneNode(big: bool, i: nat, n: (nat, RuleId))
    requires i < 2
    ensures IsNode(G.IndexConfig(big), OneList0(), i, n) <==> n == (1, 1)
  {
    hide StageHash;
    OneChain();
    OneHash(big, {0});
  }

  lemma OneMaps(big: bool)
    ensures MapsOk(G.IndexConfig(big), OneList0())
  {
    hide IsNode;
    forall i: nat, n | i < 2 ensures IsNode(G.IndexConfig(big), OneList0(), i, n) <==> n == (1, 1) { OneNode(big, i, n); }
  }

  lemma OneTableOk(big: bool)
    ensures SubtableOk(G.IndexConfig(big), OneList0()) && TableOk(G.IndexConfig(big), OneList0()) && MaxOk(OneList0())
  {
    hide OneList0, StaticOk, ChainsOk, MapsOk, PortsOk, IdsOk, MaxOk;
    OneStatic(big);
    OneChain();
    OneRule();
    OneMaps(big);
  }

  lemma SingleOk(big: bool, version: nat, setId: SetConjId, size: nat -> nat)
    ensures EnvOk(Single(big, version, setId, size))
  {
    hide OneList0, TableOk, MaxOk, TriesOk, CountsOk;
    var e := Single(big, version, setId, size);
    OneTableOk(big);
    OneTop();
    assert forall m :: m in e.tables <==> m == THREE;
    assert e.order[0] == Entry(5, THREE);
    NoTriesFit(e.c, e.tables);
  }

  lemma NoTriesFit(c: Config, tables: Tables)
    requires c.fields == []
    ensures TriesOk(c, []) && CountsOk(c, tables, [])
  {
  }

  lemma OneTop()
    ensures OneList0().maxPriority == 5 && OneList0().maxCount == 1 && OneList0().mask == THREE
  {
  }

  /** A flow with bit 0 differs from the list only in the second word. */
  lemma KeepsOne(big: bool, f: BitSet, b: nat)
    requires (f == {0, 64} && b == 64) || (f == {0, 64, 65} && b == 65)
    ensures CompareFolds(G.IndexConfig(big), OneList0(), f, {}, 1) == {0, b}
  {
    hide Rightmost, Diff, FirstDiff, Significance;
    var ws, g: BitSet := MaskWords(OneList0()), {0};
    assert Upto(OneList0().stages, 1) == [0] && ws == [0, 1] && ws[..1] == [0];
    WordsOfThree();
    var diff := Diff(InWords(THREE, [1]), g, f);
    SecondDiffers(f, b);
    KeptOf(big, f, b);
  }

  lemma WordsOfThree()
    ensures InWords(THREE, [0]) == {0} && InWords(THREE, [1]) == {64, 65}
  {
  }

  lemma SecondDiffers(f: BitSet, b: nat)
    requires (f == {0, 64} && b == 64) || (f == {0, 64, 65} && b == 65)
    ensures FirstDiff(THREE, [0, 1], {0}, f, 0) == 1
  {
    hide Diff;
    var ws: seq<nat>, g: BitSet := [0, 1], {0};
    WordsOfThree();
    assert ws[..1] == [0] && Agree(InWords(THREE, [0]), g, f);
    assert !Agree(InWords(THREE, [1]), g, f) by { assert 64 in InWords(THREE, [1]); }
    DiffsOf(THREE, ws, g, f, 1);
  }

  lemma KeptOf(big: bool, f: BitSet, b: nat)
    requires (f == {0, 64} && b == 64) || (f == {0, 64, 65} && b == 65)
    ensures Rightmost(big, Diff(InWords(THREE, [1]), {0}, f), 1, 0) == b
  {
    hide Diff, Rightmost, Significance;
    var word, g: BitSet := InWords(THREE, [1]), {0};
    WordsOfThree();
    var diff := Diff(word, g, f);
    forall x: nat ensures x in diff <==> (x == 64 || x == 65) && x in f { DiffMembers(word, g, f, x); }
    LowerBit(big);
    RightmostIs(big, diff, 1, 0, b);
  }

  lemma LowerBit(big: bool)
    ensures Significance(big, 65) <= Significance(big, 64)
  {
  }

  lemma OneInBucket(big: bool, f: BitSet)
    requires 0 in f
    ensures Bucket(G.IndexConfig(big), OneList0(), 0, f) == {1}
  {
    hide StageHash, OneList0;
    OneChain();
    OneMask();
    OneHash(big, f);
    OneHash(big, {0});
    var bucket := Bucket(G.IndexConfig(big), OneList0(), 0, f);
    forall id ensures id in bucket <==> id == 1 { }
  }

  lemma OneMask()
    ensures OneList0().mask == THREE && |OneList0().stages| == 2 && |OneList0().indices| == 1
  {
  }

  /** What the search of the one table leaves for such a flow. */
  lemma LeavesOne(big: bool, version: nat, f: BitSet, b: nat)
    requires (f == {0, 64} && b == 64) || (f == {0, 64, 65} && b == 65)
    ensures SubtableOk(G.IndexConfig(big), OneList0()) && Folded(G.IndexConfig(big), [], OneList0(), version, f, {}) == {0, b}
    ensures FindSpec(OneList0(), version, f) == []
  {
    hide OneList0, StaticOk, ChainsOk, MapsOk, PortsOk, CompareFolds, Bucket, FindSpec, ExitOf, Agree, HeadMatches, Sound, IndexSafe, EndFolds, InWords, TrieBits;
    OneTableOk(big);
    OneChain();
    OneMask();
    OneInBucket(big, f);
    KeepsOne(big, f, b);
    G.FirstExit(G.IndexConfig(big), OneList0(), f, 1);
    OneHeadExactly(G.IndexConfig(big), OneList0(), version, 0, f, {}, 1);
    DoesNotMatch(f);
  }

  lemma DoesNotMatch(f: BitSet)
    requires 64 in f
    ensures !HeadMatches(OneList0(), 1, f)
  {
    assert 64 in THREE && 64 !in OneList0().Head(1).flow;
  }

  /** The mask of a lookup that finds nothing in the one table is what its search leaves. */
  lemma LookupOfOne(big: bool, version: nat, setId: SetConjId, size: nat -> nat, f: BitSet, b: nat)
    requires (f == {0, 64} && b == 64) || (f == {0, 64, 65} && b == 65)
    ensures var e := Single(big, version, setId, size); EnvOk(e) && MaskOf(e, f) == {0, b}
  {
    hide OneList0, Ready, TriesFit, Folded, FindSpec, StaticOk, ChainsOk, MapsOk, PortsOk;
    var e := Single(big, version, setId, size);
    SingleOk(big, version, setId, size);
    LeavesOne(big, version, f, b);
    StopsAtOne(e, f);
    assert FoldedBy(e.c, e.tables, e.order, e.tries, version, f, {}, 1) == Folded(e.c, [], OneList0(), version, f, {});
    assert Search(e, f, true) == Found(None, []);
  }

  lemma StopsAtOne(e: Env, f: BitSet)
    requires EnvOk(e) && |e.order| == 1 && e.order[0].priority > INT_MIN
    ensures SearchN(e, f, true) == 1
  {
    hide Ready, TriesFit, Answer;
    assert MainLoop(e.c, e.tables, e.order, e.version, f, true, 0) == Found(None, []);
    assert StopFrom(e.c, e.tables, e.order, e.version, f, true, 1) == 1;
  }

  /** Two rules that lookups in the one table generate overlap: the flow {0, 64, 65} agrees
      with {0, 64} on the bits 0 and 64 that its lookup leaves, but its own leaves 0 and 65.
      There is no collision, and no trie. */
  lemma RulesOverlap(big: bool, version: nat, setId: SetConjId, size: nat -> nat)
    ensures EnvOk(Single(big, version, setId, size)) && !OverlapFree(Single(big, version, setId, size))
  {
    hide EnvOk, MaskOf, Single;
    var e := Single(big, version, setId, size);
    LookupOfOne(big, version, setId, size, {0, 64}, 64);
    LookupOfOne(big, version, setId, size, {0, 64, 65}, 65);
    assert InMegaflow(e, {0, 64}, {0, 64, 65});
    assert 64 in MaskOf(e, {0, 64}) && 64 !in MaskOf(e, {0, 64, 65});
    OverlapFreeExactly(e);
  }
}
