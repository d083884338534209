/** find_match_wc: the staged lookup that also un-wildcards the bits it used.

    The rule returned is the one plain lookup returns, whatever the hash functions do.
    Which bits are un-wildcarded is a function of the table, the flow and the bits that
    are un-wildcarded already; and every flow that shares them gets the same rule from
    the subtable, except after two kinds of miss, for which the exact condition is
    given. */
module StagedLookup {
  import opened Bits
  import opened Flows
  import opened Subtables

  /** Cached result of one trie lookup for the flow being classified. */
  datatype TrieCtx = Pending | Done(maskBits: nat, plens: set<nat>)

  /** Tries hold non-empty prefixes that fit their fields, and every head whose
      subtable matches a prefix of the field is counted. */
  ghost predicate TriesOk(c: Config, tries: seq<T.Trie>)
  {
    && |tries| == |c.fields|
    && forall j :: 0 <= j < |tries| ==>
         c.fields[j].nBits > 0 && T.Shaped(tries[j], true) && T.PrefixesFit(tries[j], c.fields[j].nBits)
  }

  ghost predicate HeadsInTries(c: Config, tries: seq<T.Trie>, st: Subtable)
    requires StaticOk(c, st) && ChainsOk(st) && |tries| == |c.fields|
  {
    forall id, j :: id in st.chains && 0 <= j < |tries| && st.triePlen[j] > 0 ==>
      T.Count(tries[j], FieldPrefix(c, j, st.triePlen[j], st.Head(id).flow)) > 0
  }

  /** A cached lookup is the trie's answer for the flow, or undecided when the flow lacks
      the field: then every length may match. */
  ghost predicate CtxOk(c: Config, tries: seq<T.Trie>, f: BitSet, ctx: seq<TrieCtx>)
    requires TriesOk(c, tries)
  {
    && |ctx| == |tries|
    && forall j :: 0 <= j < |ctx| && ctx[j].Done? ==> AnswerOk(c, tries, f, j, ctx[j])
  }

  ghost predicate AnswerOk(c: Config, tries: seq<T.Trie>, f: BitSet, j: nat, ctx: TrieCtx)
    requires j < |tries| == |c.fields| && ctx.Done?
  {
    if c.fields[j].prereqs(f) then
      T.Answer(tries[j], Value(c, f, j), ctx.maskBits, ctx.plens) && ctx.maskBits == T.DecidingBits(tries[j], Value(c, f, j))
    else forall n: nat :: n in ctx.plens <==> 1 <= n <= c.fields[j].nBits
  }

  /** The value that the flow has in trie field `j`. */
  function Value(c: Config, f: BitSet, j: nat): BitString
    requires j < |c.fields|
  {
    FieldValue(f, c.fields[j].ofs, c.fields[j].nBits)
  }

  /** No rule of the subtable matches any flow that agrees with `f` on `wc`. */
  ghost predicate Excluded(st: Subtable, f: BitSet, wc: BitSet)
    requires ChainsOk(st)
  {
    forall f': BitSet, id :: Agree(wc, f, f') && id in st.chains ==> !HeadMatches(st, id, f')
  }

  /** Every flow that agrees with `f` on `wc` gets `r` from the subtable. */
  ghost predicate Sound(st: Subtable, version: nat, f: BitSet, wc: BitSet, r: RulePtr)
    requires ChainsOk(st)
  {
    forall f': BitSet :: Agree(wc, f, f') ==> FindSpec(st, version, f') == r
  }

  /** A head whose index hash equals the flow's agrees with it on all words
      hashed so far. */
  ghost predicate NoCollision(c: Config, st: Subtable, f: BitSet)
    requires StaticOk(c, st) && ChainsOk(st)
  {
    forall i, id :: 0 <= i < |st.indices| && id in st.chains
                    && StageHash(c, st.mask, st.stages, i, st.Head(id).flow) == StageHash(c, st.mask, st.stages, i, f) ==>
                    Agree(InWords(st.mask, Upto(st.stages, i + 1)), st.Head(id).flow, f)
  }

  /** When the ports trie is used, the final stage masks only port bits. */
  ghost predicate PortsFinal(c: Config, st: Subtable)
  {
    st.stages != [] && (st.portsMaskLen > 0 ==>
      InWords(st.mask, st.stages[|st.stages| - 1]) <= PrefixBits(c.portsOfs, 32))
  }

  lemma ExcludedIsSound(st: Subtable, version: nat, f: BitSet, wc: BitSet)
    requires ChainsOk(st) && Excluded(st, f, wc)
    ensures Sound(st, version, f, wc, [])
  {
  }

  lemma AgreeMore(m: BitSet, m': BitSet, f: BitSet, g: BitSet)
    requires m <= m' && Agree(m', f, g)
    ensures Agree(m, f, g)
  {
  }

  // ---- When a miss is sound ----

  /** No list with a visible rule agrees with the flow on the bits `m` of the mask. */
  ghost predicate Clear(st: Subtable, version: nat, f: BitSet, m: BitSet)
    requires ChainsOk(st)
  {
    forall id :: id in st.chains && FirstVisible(st.chains[id], version) != [] ==> !Agree(m * st.mask, st.Head(id).flow, f)
  }

  /** A miss is sound exactly when the un-wildcarded bits tell every list with a visible
      rule from the flow. */
  lemma MissExactly(st: Subtable, version: nat, f: BitSet, wc: BitSet)
    requires ChainsOk(st)
    ensures Sound(st, version, f, wc, []) <==> Clear(st, version, f, wc)
  {
    if Sound(st, version, f, wc, []) {
      forall id | id in st.chains && FirstVisible(st.chains[id], version) != [] ensures !Agree(wc * st.mask, st.Head(id).flow, f) {
        if Agree(wc * st.mask, st.Head(id).flow, f) { AgreeingListIsFound(st, version, f, wc, id); }
      }
    }
    if Clear(st, version, f, wc) {
      forall f': BitSet | Agree(wc, f, f') ensures FindSpec(st, version, f') == [] {
        forall id | id in st.chains && HeadMatches(st, id, f') ensures FindSpec(st, version, f') == [] {
          FindSpecIs(st, version, f', id);
        }
      }
    }
  }

  /** The flow with the list's value in the masked bits is found in the list. */
  lemma AgreeingListIsFound(st: Subtable, version: nat, f: BitSet, wc: BitSet, id: RuleId)
    requires ChainsOk(st) && id in st.chains && Agree(wc * st.mask, st.Head(id).flow, f)
    ensures exists f': BitSet :: Agree(wc, f, f') && FindSpec(st, version, f') == FirstVisible(st.chains[id], version)
  {
    var f' := (f - st.mask) + st.Head(id).flow;
    assert ChainOk(st.mask, id, st.chains[id]);
    assert Agree(wc, f, f') && HeadMatches(st, id, f');
    FindSpecIs(st, version, f', id);
  }

  // ---- Prefix tries ----

  /** A head that matches a flow has its prefix in the trie, at the flow's value. */
  lemma HeadPrefixMatches(c: Config, tries: seq<T.Trie>, st: Subtable, j: nat, id: RuleId, f: BitSet)
    requires StaticOk(c, st) && ChainsOk(st) && TriesOk(c, tries) && HeadsInTries(c, tries, st)
    requires j < |tries| && st.triePlen[j] > 0 && id in st.chains && HeadMatches(st, id, f)
    ensures T.MatchesAt(tries[j], FieldValue(f, c.fields[j].ofs, c.fields[j].nBits), st.triePlen[j])
  {
    var ofs, g := c.fields[j].ofs, st.Head(id).flow;
    AgreeMore(PrefixBits(ofs, st.triePlen[j]), st.mask, g, f);
    AgreeOnPrefix(g, f, ofs, st.triePlen[j], c.fields[j].nBits);
    assert T.Count(tries[j], FieldPrefix(c, j, st.triePlen[j], g)) > 0;
  }

  /** The trie's answer lacks the subtable's prefix length, so no head matches a
      flow that shares the deciding bits. */
  lemma TrieExcludes(c: Config, tries: seq<T.Trie>, st: Subtable, j: nat, f: BitSet, wc: BitSet, maskBits: nat, plens: set<nat>)
    requires StaticOk(c, st) && ChainsOk(st) && TriesOk(c, tries) && HeadsInTries(c, tries, st)
    requires j < |tries| && st.triePlen[j] > 0 && st.triePlen[j] !in plens
    requires T.Decides(tries[j], FieldValue(f, c.fields[j].ofs, c.fields[j].nBits), maskBits, plens)
    requires PrefixBits(c.fields[j].ofs, maskBits) <= wc
    ensures Excluded(st, f, wc)
  {
    var ofs, n := c.fields[j].ofs, c.fields[j].nBits;
    forall f': BitSet, id | Agree(wc, f, f') && id in st.chains ensures !HeadMatches(st, id, f') {
      AgreeMore(PrefixBits(ofs, maskBits), wc, f, f');
      AgreeOnPrefix(f, f', ofs, maskBits, n);
      assert T.SharesPrefix(FieldValue(f, ofs, n), FieldValue(f', ofs, n), maskBits);
      if HeadMatches(st, id, f') { HeadPrefixMatches(c, tries, st, j, id, f'); }
    }
  }

  /** Trie `j` shows that the subtable can be skipped at this stage: its prefix of the
      field is not among the matching ones, and the deciding bits are no more than the
      subtable would look at, or un-wildcarded already. */
  ghost predicate Skips(c: Config, tries: seq<T.Trie>, st: Subtable, stage: seq<nat>, f: BitSet, wc: BitSet, j: nat)
    requires j < |tries| == |c.fields| == |st.triePlen|
  {
    && st.triePlen[j] > 0 && c.fields[j].ofs / WORD_BITS in stage && c.fields[j].prereqs(f)
    && !T.MatchesAt(tries[j], Value(c, f, j), st.triePlen[j])
    && (TrieBits(c, tries, f, j) <= PrefixBits(c.fields[j].ofs, st.triePlen[j]) || TrieBits(c, tries, f, j) <= wc)
  }

  /** The bits of field `j` that decide a lookup of the flow in its trie. */
  ghost function TrieBits(c: Config, tries: seq<T.Trie>, f: BitSet, j: nat): BitSet
    requires j < |tries| == |c.fields|
  {
    PrefixBits(c.fields[j].ofs, T.DecidingBits(tries[j], Value(c, f, j)))
  }

  /** The first trie from `j` on that lets the subtable be skipped, if any. */
  ghost function SkipField(c: Config, tries: seq<T.Trie>, st: Subtable, stage: seq<nat>, f: BitSet, wc: BitSet, j: nat): (k: nat)
    requires j <= |tries| == |c.fields| == |st.triePlen|
    ensures j <= k <= |tries| && (k < |tries| ==> Skips(c, tries, st, stage, f, wc, k))
    ensures forall i :: j <= i < k ==> !Skips(c, tries, st, stage, f, wc, i)
    decreases |tries| - j
  {
    if j == |tries| || Skips(c, tries, st, stage, f, wc, j) then j else SkipField(c, tries, st, stage, f, wc, j + 1)
  }

  /** Skipping is sound. */
  lemma SkipExcludes(c: Config, tries: seq<T.Trie>, st: Subtable, stage: seq<nat>, f: BitSet, wc: BitSet, j: nat)
    requires SubtableOk(c, st) && TriesOk(c, tries) && HeadsInTries(c, tries, st)
    requires j < |tries| && Skips(c, tries, st, stage, f, wc, j)
    ensures Excluded(st, f, wc + TrieBits(c, tries, f, j))
  {
    hide MapsOk, PortsOk, ChainOk, HeadsInTries;
    var v := Value(c, f, j);
    DecidingDecides(tries[j], v);
    var plens := set n: nat | n <= |v| && T.MatchesAt(tries[j], v, n);
    TrieExcludes(c, tries, st, j, f, wc + TrieBits(c, tries, f, j), T.DecidingBits(tries[j], v), plens);
  }

  lemma DecidingDecides(t: T.Trie, v: BitString)
    requires v != [] && T.Shaped(t, true) && T.PrefixesFit(t, |v|)
    ensures T.Decides(t, v, T.DecidingBits(t, v), set n: nat | n <= |v| && T.MatchesAt(t, v, n))
  {
    T.SettledDecides(t, v);
  }

  /** check_tries: true when some trie shows that the rest of the subtable can
      be skipped. */
  method CheckTries(c: Config, tries: seq<T.Trie>, ctx: seq<TrieCtx>, st: Subtable, stage: seq<nat>, f: BitSet, wc: BitSet)
    returns (skip: bool, ctx': seq<TrieCtx>, wc': BitSet)
    requires SubtableOk(c, st) && TriesOk(c, tries) && HeadsInTries(c, tries, st)
    requires CtxOk(c, tries, f, ctx)
    ensures CtxOk(c, tries, f, ctx') && wc <= wc'
    ensures skip <==> SkipField(c, tries, st, stage, f, wc, 0) < |tries|
    ensures skip ==> Excluded(st, f, wc') && wc' == wc + TrieBits(c, tries, f, SkipField(c, tries, st, stage, f, wc, 0))
    ensures !skip ==> wc' == wc
  {
    hide MapsOk, PortsOk, ChainOk, HeadsInTries, Excluded, AnswerOk, Skips, TrieBits, T.Shaped, T.PrefixesFit;
    skip, ctx', wc' := false, ctx, wc;
    var j := 0;
    while j < |tries|
      invariant 0 <= j <= |tries| && CtxOk(c, tries, f, ctx')
      invariant SkipField(c, tries, st, stage, f, wc, 0) == SkipField(c, tries, st, stage, f, wc, j)
    {
      var field := c.fields[j];
      if st.triePlen[j] > 0 && field.ofs / WORD_BITS in stage {
        if ctx'[j].Pending? {
          var answer;
          if field.prereqs(f) {
            var maskBits, plens := T.LookupValue(tries[j], Value(c, f, j));
            answer := Done(maskBits, plens);
          } else {
            answer := Done(0, PrefixBits(1, field.nBits));
          }
          assert AnswerOk(c, tries, f, j, answer) by { LookedUp(c, tries, f, j, answer); }
          ctx' := ctx'[j := answer];
        }
        var maskBits, plens := ctx'[j].maskBits, ctx'[j].plens;
        SkipTest(c, tries, st, stage, f, wc, j, ctx'[j]);
        if st.triePlen[j] !in plens {
          if maskBits <= st.triePlen[j] || PrefixBits(field.ofs, maskBits) <= wc {
            wc' := if maskBits <= st.triePlen[j] then wc + PrefixBits(field.ofs, maskBits) else wc;
            SkipExcludes(c, tries, st, stage, f, wc, j);
            assert wc' == wc + TrieBits(c, tries, f, j);
            return true, ctx', wc';
          }
        }
      } else {
        Irrelevant(c, tries, st, stage, f, wc, j);
      }
      j := j + 1;
    }
  }

  lemma LookedUp(c: Config, tries: seq<T.Trie>, f: BitSet, j: nat, answer: TrieCtx)
    requires j < |tries| == |c.fields| && answer.Done?
    requires if c.fields[j].prereqs(f) then T.Answer(tries[j], Value(c, f, j), answer.maskBits, answer.plens)
                                            && answer.maskBits == T.DecidingBits(tries[j], Value(c, f, j))
             else answer.plens == PrefixBits(1, c.fields[j].nBits)
    ensures AnswerOk(c, tries, f, j, answer)
  {
    hide T.Answer, T.DecidingBits;
  }

  lemma SkipTest(c: Config, tries: seq<T.Trie>, st: Subtable, stage: seq<nat>, f: BitSet, wc: BitSet, j: nat, answer: TrieCtx)
    requires StaticOk(c, st) && j < |tries| == |c.fields| && answer.Done? && AnswerOk(c, tries, f, j, answer)
    requires st.triePlen[j] > 0 && c.fields[j].ofs / WORD_BITS in stage
    ensures Skips(c, tries, st, stage, f, wc, j) <==>
            st.triePlen[j] !in answer.plens && (answer.maskBits <= st.triePlen[j] || PrefixBits(c.fields[j].ofs, answer.maskBits) <= wc)
    ensures Skips(c, tries, st, stage, f, wc, j) ==> TrieBits(c, tries, f, j) == PrefixBits(c.fields[j].ofs, answer.maskBits)
  {
    hide T.DecidingBits, T.Decides;
    var ofs := c.fields[j].ofs;
    if c.fields[j].prereqs(f) {
      assert T.MatchLens(tries[j], Value(c, f, j), answer.plens);
      ShorterPrefix(ofs, answer.maskBits, st.triePlen[j]);
    }
  }

  lemma ShorterPrefix(ofs: nat, a: nat, b: nat)
    ensures a <= b <==> PrefixBits(ofs, a) <= PrefixBits(ofs, b)
  {
    if a > b { assert ofs + b in PrefixBits(ofs, a); }
  }

  lemma Irrelevant(c: Config, tries: seq<T.Trie>, st: Subtable, stage: seq<nat>, f: BitSet, wc: BitSet, j: nat)
    requires j < |tries| == |c.fields| == |st.triePlen|
    requires !(st.triePlen[j] > 0 && c.fields[j].ofs / WORD_BITS in stage)
    ensures !Skips(c, tries, st, stage, f, wc, j)
  {
  }

  // ---- Comparing one rule ----

  /** The first word from place `i` on in which the flows differ under the mask. */
  function FirstDiff(mask: BitSet, ws: seq<nat>, g: BitSet, f: BitSet, i: nat): (k: nat)
    requires i <= |ws|
    ensures i <= k <= |ws| && (k < |ws| ==> Diff(InWords(mask, [ws[k]]), g, f) != {})
    decreases |ws| - i
  {
    if i == |ws| || Diff(InWords(mask, [ws[i]]), g, f) != {} then i else FirstDiff(mask, ws, g, f, i + 1)
  }

  /** What is un-wildcarded once rule `g` has been compared with flow `f`: the words that
      agree before the first that differs, and of that the rightmost differing bit,
      unless a differing bit is un-wildcarded already. */
  function Compared(big: bool, mask: BitSet, ws: seq<nat>, g: BitSet, f: BitSet, wc: BitSet): BitSet
  {
    var i := FirstDiff(mask, ws, g, f, 0);
    var agreed := wc + InWords(mask, ws[..i]);
    if i == |ws| then agreed
    else
      var diff := Diff(InWords(mask, [ws[i]]), g, f);
      if wc * diff != {} then agreed else agreed + {Rightmost(big, diff, ws[i], 0)}
  }

  lemma DiffMembers(m: BitSet, g: BitSet, f: BitSet, b: nat)
    ensures b in Diff(m, g, f) <==> b in m && (b in g) != (b in f)
  {
  }

  /** miniflow_and_mask_matches_flow_wc: compares word by word. */
  method MatchesFlowWc(big: bool, mask: BitSet, ws: seq<nat>, g: BitSet, f: BitSet, wc: BitSet)
    returns (ok: bool, wc': BitSet)
    requires forall b: nat :: b in mask ==> b / WORD_BITS in ws
    ensures ok <==> Agree(mask, g, f)
    ensures wc' == Compared(big, mask, ws, g, f, wc)
    ensures wc <= wc' <= wc + mask
    ensures ok ==> mask <= wc'
    ensures !ok ==> exists b: nat :: b in mask && b in wc' && (b in g) != (b in f)
    ensures forall k :: 0 <= k <= |ws| && Agree(InWords(mask, ws[..k]), g, f) ==> InWords(mask, ws[..k]) <= wc'
  {
    hide Rightmost, Diff;
    wc' := wc;
    var i := 0;
    assert InWords(mask, ws[..0]) == {};
    while i < |ws|
      invariant 0 <= i <= |ws| && wc' == wc + InWords(mask, ws[..i]) && Agree(InWords(mask, ws[..i]), g, f)
      invariant FirstDiff(mask, ws, g, f, 0) == FirstDiff(mask, ws, g, f, i)
    {
      var word := InWords(mask, [ws[i]]);
      var diff := Diff(word, g, f);
      assert forall b: nat :: b in InWords(mask, ws[..i + 1]) <==> b in InWords(mask, ws[..i]) || b in word;
      if diff != {} {
        FoldDifference(big, mask, ws, i, g, f, wc, wc', diff);
        if wc' * diff == {} {
          wc' := wc' + {Rightmost(big, diff, ws[i], 0)};
        }
        return false, wc';
      }
      wc' := wc' + word;
      i := i + 1;
    }
    assert ws[..i] == ws;
    assert forall k, w :: 0 <= k <= |ws| && w in ws[..k] ==> w in ws;
    ok := true;
  }

  /** The bit kept of a difference is one in which the flows differ. */
  lemma FoldDifference(big: bool, mask: BitSet, ws: seq<nat>, i: nat, g: BitSet, f: BitSet, wc: BitSet, agreed: BitSet, diff: BitSet)
    requires i < |ws| && diff == Diff(InWords(mask, [ws[i]]), g, f) && diff != {}
    requires agreed == wc + InWords(mask, ws[..i]) && Agree(InWords(mask, ws[..i]), g, f)
    ensures agreed * diff == {} <==> wc * diff == {}
    ensures var wc' := if agreed * diff == {} then agreed + {Rightmost(big, diff, ws[i], 0)} else agreed;
            && agreed <= wc' <= wc + mask && (exists b: nat :: b in mask && b in wc' && (b in g) != (b in f))
            && (forall k :: 0 <= k <= |ws| && Agree(InWords(mask, ws[..k]), g, f) ==> InWords(mask, ws[..k]) <= wc')
            && !Agree(mask, g, f)
  {
    forall b: nat ensures b in diff <==> b in InWords(mask, [ws[i]]) && (b in g) != (b in f) { DiffMembers(InWords(mask, [ws[i]]), g, f, b); }
    var x :| x in diff;
    RightmostIsIn(big, diff, ws[i], 0, x);
    var wc' := if agreed * diff == {} then agreed + {Rightmost(big, diff, ws[i], 0)} else agreed;
    var b :| b in wc' && b in diff;
    forall k | 0 <= k <= |ws| && Agree(InWords(mask, ws[..k]), g, f) ensures InWords(mask, ws[..k]) <= wc' {
      StagesBeforeDifference(mask, ws, i, k, b, g, f);
    }
  }

  lemma StagesBeforeDifference(mask: BitSet, ws: seq<nat>, i: nat, k: nat, b: nat, g: BitSet, f: BitSet)
    requires i < |ws| && k <= |ws| && b in InWords(mask, [ws[i]]) && (b in g) != (b in f)
    requires Agree(InWords(mask, ws[..k]), g, f)
    ensures k <= i && InWords(mask, ws[..k]) <= InWords(mask, ws[..i])
  {
    if i < k { InLongerPrefix(mask, ws, i, k, b); }
    assert forall w :: k <= i && w in ws[..k] ==> w in ws[..i];
  }

  lemma InLongerPrefix(mask: BitSet, ws: seq<nat>, i: nat, k: nat, b: nat)
    requires i < k <= |ws| && b in InWords(mask, [ws[i]])
    ensures b in InWords(mask, ws[..k])
  {
    assert ws[..k][i] == ws[i];
  }

  // ---- The exits of find_match_wc ----

  lemma ExcludedMore(st: Subtable, f: BitSet, wc: BitSet, wc': BitSet)
    requires ChainsOk(st) && Excluded(st, f, wc) && wc <= wc'
    ensures Excluded(st, f, wc')
  {
    forall f': BitSet, id | Agree(wc', f, f') && id in st.chains ensures !HeadMatches(st, id, f') {
      AgreeMore(wc, wc', f, f');
    }
  }

  lemma {:induction false} UptoIsPrefix(stages: seq<seq<nat>>, i: nat, n: nat)
    requires i <= n <= |stages|
    ensures |Upto(stages, i)| <= |Upto(stages, n)| && Upto(stages, n)[..|Upto(stages, i)|] == Upto(stages, i)
    decreases n
  {
    if i < n { UptoIsPrefix(stages, i, n - 1); }
  }

  /** A flow that agrees with `f` on the words hashed so far and satisfies a
      head's match puts the head in the index under `f`'s hash. */
  lemma MatchIsIndexed(c: Config, st: Subtable, i: nat, f: BitSet, f': BitSet, id: RuleId)
    requires SubtableOk(c, st) && i < |st.indices| && id in st.chains
    requires Agree(InWords(st.mask, Upto(st.stages, i + 1)), f, f') && HeadMatches(st, id, f')
    ensures (StageHash(c, st.mask, st.stages, i, f), id) in st.indices[i]
  {
    MatchGivesHash(c, st, i, st.Head(id).flow, f');
    MatchGivesHash(c, st, i, f, f');
  }

  lemma IndexMiss(c: Config, st: Subtable, i: nat, f: BitSet, wc: BitSet)
    requires SubtableOk(c, st) && i < |st.indices|
    requires forall n :: n in st.indices[i] ==> n.0 != StageHash(c, st.mask, st.stages, i, f)
    requires InWords(st.mask, Upto(st.stages, i + 1)) <= wc
    ensures Excluded(st, f, wc)
  {
    forall f': BitSet, id | Agree(wc, f, f') && id in st.chains ensures !HeadMatches(st, id, f') {
      AgreeMore(InWords(st.mask, Upto(st.stages, i + 1)), wc, f, f');
      if HeadMatches(st, id, f') { MatchIsIndexed(c, st, i, f, f', id); }
    }
  }

  /** The only head indexed under the flow's hash differs from it in an
      un-wildcarded bit. */
  lemma SingleMiss(c: Config, st: Subtable, i: nat, f: BitSet, wc: BitSet, only: RuleId, b: nat)
    requires SubtableOk(c, st) && i < |st.indices| && only in st.chains
    requires forall n :: n in st.indices[i] && n.0 == StageHash(c, st.mask, st.stages, i, f) ==> n.1 == only
    requires b in st.mask && b in wc && (b in st.Head(only).flow) != (b in f)
    requires InWords(st.mask, Upto(st.stages, i + 1)) <= wc
    ensures Excluded(st, f, wc)
  {
    forall f': BitSet, id | Agree(wc, f, f') && id in st.chains ensures !HeadMatches(st, id, f') {
      AgreeMore(InWords(st.mask, Upto(st.stages, i + 1)), wc, f, f');
      if HeadMatches(st, id, f') { MatchIsIndexed(c, st, i, f, f', id); }
    }
  }

  lemma FullMaskIsSound(st: Subtable, version: nat, f: BitSet, wc: BitSet)
    requires ChainsOk(st) && st.mask <= wc
    ensures Sound(st, version, f, wc, FindSpec(st, version, f))
  {
    forall f': BitSet | Agree(wc, f, f') ensures FindSpec(st, version, f') == FindSpec(st, version, f) {
      AgreeMore(st.mask, wc, f, f');
      forall id | id in st.chains ensures HeadMatches(st, id, f) <==> HeadMatches(st, id, f') {
      }
      if id :| id in st.chains && HeadMatches(st, id, f) {
        FindSpecIs(st, version, f, id);
        FindSpecIs(st, version, f', id);
      }
    }
  }

  lemma PortsTrieFits(c: Config, st: Subtable)
    requires SubtableOk(c, st) && st.portsMaskLen > 0
    ensures T.PrefixesFit(st.portsTrie, 32)
  {
    forall q: BitString | T.Count(st.portsTrie, q) > 0 ensures 0 < |q| <= 32 {
      var g :| g in FlowsAtPorts(c, st.mask, st.portsMaskLen, HeadFlows(st), q);
    }
  }

  /** A head that matches a flow has its masked port prefix in the ports trie. */
  lemma HeadPortsMatch(c: Config, st: Subtable, id: RuleId, f: BitSet)
    requires SubtableOk(c, st) && st.portsMaskLen > 0 && id in st.chains && HeadMatches(st, id, f)
    ensures T.MatchesAt(st.portsTrie, Ports(c, st.mask, f), st.portsMaskLen)
  {
    var q := PortsPrefix(c, st.mask, st.portsMaskLen, st.Head(id).flow);
    assert st.Head(id).flow in FlowsAtPorts(c, st.mask, st.portsMaskLen, HeadFlows(st), q);
    assert Ports(c, st.mask, st.Head(id).flow) == Ports(c, st.mask, f);
  }

  /** Port bits beyond the deciding ones do not matter: outside the mask they
      read as zero. */
  lemma SharedPorts(c: Config, st: Subtable, f: BitSet, f': BitSet, wc: BitSet, mbits: nat)
    requires mbits <= 32 && Agree(wc, f, f') && st.mask * PrefixBits(c.portsOfs, mbits) <= wc
    ensures T.SharesPrefix(Ports(c, st.mask, f), Ports(c, st.mask, f'), mbits)
  {
    forall k | 0 <= k < mbits ensures Ports(c, st.mask, f)[k] == Ports(c, st.mask, f')[k] {
      assert c.portsOfs + k in st.mask ==> c.portsOfs + k in st.mask * PrefixBits(c.portsOfs, mbits);
    }
  }

  /** No rule was found and the ports trie chose how many port bits to keep. */
  lemma PortsExit(c: Config, st: Subtable, version: nat, f: BitSet, wc: BitSet, mbits: nat, plens: set<nat>)
    requires SubtableOk(c, st) && PortsFinal(c, st) && st.portsMaskLen > 0
    requires FindSpec(st, version, f) == []
    requires T.Decides(st.portsTrie, Ports(c, st.mask, f), mbits, plens) && forall n: nat :: n in plens ==> n <= mbits
    requires InWords(st.mask, Upto(st.stages, |st.stages| - 1)) <= wc
    requires st.mask * PrefixBits(c.portsOfs, mbits) <= wc
    ensures Sound(st, version, f, wc, [])
  {
    if st.portsMaskLen in plens {
      MaskIsCovered(c, st, wc, mbits);
      FullMaskIsSound(st, version, f, wc);
    } else {
      forall f': BitSet, id | Agree(wc, f, f') && id in st.chains ensures !HeadMatches(st, id, f') {
        SharedPorts(c, st, f, f', wc, mbits);
        if HeadMatches(st, id, f') { HeadPortsMatch(c, st, id, f'); }
      }
      ExcludedIsSound(st, version, f, wc);
    }
  }

  lemma MaskIsCovered(c: Config, st: Subtable, wc: BitSet, mbits: nat)
    requires StaticOk(c, st) && PortsFinal(c, st) && 0 < st.portsMaskLen <= mbits
    requires InWords(st.mask, Upto(st.stages, |st.stages| - 1)) <= wc
    requires st.mask * PrefixBits(c.portsOfs, mbits) <= wc
    ensures st.mask <= wc
  {
    var n := |st.stages|;
    forall b: nat | b in st.mask ensures b in wc {
      MaskBitInMap(c, st, b);
      assert Upto(st.stages, n) == Upto(st.stages, n - 1) + st.stages[n - 1];
      if b / WORD_BITS in st.stages[n - 1] {
        assert b in InWords(st.mask, st.stages[n - 1]);
      } else {
        assert b in InWords(st.mask, Upto(st.stages, n - 1));
      }
    }
  }

  /** Every mask bit lies in a word of some stage. */
  lemma MaskBitInMap(c: Config, st: Subtable, b: nat)
    requires StaticOk(c, st) && b in st.mask
    ensures b / WORD_BITS in Upto(st.stages, |st.stages|)
  {
    var w, k := b / WORD_BITS, b % WORD_BITS;
    assert BitAt(w, k) == b;
    assert k in Word(st.mask, w);
    MapMembers(st.mask, 0, c.nWords, w);
  }

  /** The running hash of a staged lookup before stage `i`. */
  ghost predicate AtStage(c: Config, st: Subtable, f: BitSet, i: nat, stagesMap: BitSet, basis: nat, offset: nat)
  {
    && i <= |st.stages|
    && stagesMap == InWords(st.mask, Upto(st.stages, i))
    && basis == HashWords(c.hasher, f, st.mask, Upto(st.stages, i), 0)
    && offset == |Upto(st.stages, i)|
  }

  /** Continuing the unfinished hash over the next stage's words gives the next
      stage's hash. */
  lemma StageContinuation(c: Config, st: Subtable, f: BitSet, i: nat, stagesMap: BitSet, basis: nat, offset: nat)
    requires AtStage(c, st, f, i, stagesMap, basis, offset) && i < |st.stages|
    ensures var basis' := HashWords(c.hasher, f, st.mask, st.stages[i], basis);
            var offset' := offset + |st.stages[i]|;
            && AtStage(c, st, f, i + 1, stagesMap + InWords(st.mask, st.stages[i]), basis', offset')
            && c.hasher.finish(basis', offset' * 8) == StageHash(c, st.mask, st.stages, i, f)
  {
    HashWordsConcat(c.hasher, f, st.mask, Upto(st.stages, i), st.stages[i], 0);
  }

  // ---- What each exit un-wildcards, and when that is enough ----

  /** The lists that index `i` has under the flow's hash. */
  ghost function Bucket(c: Config, st: Subtable, i: nat, f: BitSet): set<RuleId>
    requires i < |st.stages|
  {
    set id | id in st.chains && st.chains[id] != []
             && StageHash(c, st.mask, st.stages, i, st.Head(id).flow) == StageHash(c, st.mask, st.stages, i, f)
  }

  /** The words of the mask, in order. */
  function MaskWords(st: Subtable): seq<nat> { Upto(st.stages, |st.stages|) }

  ghost function CompareFolds(c: Config, st: Subtable, f: BitSet, wc: BitSet, only: RuleId): BitSet
    requires only in st.chains && st.chains[only] != []
  {
    Compared(c.bigEndian, st.mask, MaskWords(st), st.Head(only).flow, f, wc)
  }

  /** What the exit at index `i` needs: if the bucket's only list does not match, the
      words in which it agrees with the flow, the bit in which they differ and the bits
      un-wildcarded before tell every list with a visible rule from the flow. */
  ghost predicate IndexSafe(c: Config, st: Subtable, version: nat, i: nat, f: BitSet, wc: BitSet)
    requires ChainsOk(st) && i < |st.stages|
  {
    forall only :: only in st.chains && Bucket(c, st, i, f) == {only} && !HeadMatches(st, only, f) ==>
      Clear(st, version, f, CompareFolds(c, st, f, wc, only))
  }

  /** The earlier stages and the port bits that decide a lookup in the ports trie. */
  ghost function PortsFold(c: Config, st: Subtable, f: BitSet, wc: BitSet): BitSet
    requires st.stages != []
  {
    wc + st.mask * PrefixBits(c.portsOfs, T.DecidingBits(st.portsTrie, Ports(c, st.mask, f))) + InWords(st.mask, Upto(st.stages, |st.stages| - 1))
  }

  /** What the exit after the last stage needs: after a miss with ports, the earlier
      stages, the deciding port bits and the bits un-wildcarded before tell every list
      with a visible rule from the flow. */
  ghost predicate EndSafe(c: Config, st: Subtable, version: nat, f: BitSet, wc: BitSet)
    requires ChainsOk(st) && st.stages != []
  {
    FindSpec(st, version, f) == [] && st.portsMaskLen > 0 ==> Clear(st, version, f, PortsFold(c, st, f, wc))
  }

  ghost function EndFolds(c: Config, st: Subtable, version: nat, f: BitSet, wc: BitSet): BitSet
    requires ChainsOk(st) && st.stages != []
  {
    if FindSpec(st, version, f) == [] && st.portsMaskLen > 0 then PortsFold(c, st, f, wc) else wc + st.mask
  }

  lemma BucketIndex(c: Config, st: Subtable, i: nat, f: BitSet, id: RuleId)
    requires SubtableOk(c, st) && i < |st.indices|
    ensures id in Bucket(c, st, i, f) <==> (StageHash(c, st.mask, st.stages, i, f), id) in st.indices[i]
    ensures id in Bucket(c, st, i, f) ==> id in st.chains
  {
    hide PortsOk, ChainOk;
  }

  lemma EmptyBucket(c: Config, st: Subtable, version: nat, i: nat, f: BitSet, wc: BitSet)
    requires SubtableOk(c, st) && i < |st.indices| && Bucket(c, st, i, f) == {} && InWords(st.mask, Upto(st.stages, i + 1)) <= wc
    ensures FindSpec(st, version, f) == [] && Sound(st, version, f, wc, []) && forall w: BitSet :: IndexSafe(c, st, version, i, f, w)
  {
    hide MapsOk, PortsOk, ChainOk, Sound, FindSpec, Bucket;
    forall n | n in st.indices[i] ensures n.0 != StageHash(c, st.mask, st.stages, i, f) { BucketIndex(c, st, i, f, n.1); }
    IndexMiss(c, st, i, f, wc);
    ExcludedIsSound(st, version, f, wc);
    SoundHere(st, version, f, wc, []);
  }

  lemma SoundHere(st: Subtable, version: nat, f: BitSet, wc: BitSet, r: RulePtr)
    requires ChainsOk(st) && Sound(st, version, f, wc, r)
    ensures FindSpec(st, version, f) == r
  {
    assert Agree(wc, f, f);
  }

  /** The exit at an index, for a bucket with one list. */
  lemma OneHeadExactly(c: Config, st: Subtable, version: nat, i: nat, f: BitSet, wc: BitSet, only: RuleId)
    requires SubtableOk(c, st) && i < |st.indices| && only in st.chains && Bucket(c, st, i, f) == {only}
    ensures FindSpec(st, version, f) == if HeadMatches(st, only, f) then FirstVisible(st.chains[only], version) else []
    ensures HeadMatches(st, only, f) ==> st.mask <= CompareFolds(c, st, f, wc, only)
    ensures Sound(st, version, f, CompareFolds(c, st, f, wc, only), FindSpec(st, version, f)) <==> IndexSafe(c, st, version, i, f, wc)
  {
    hide MapsOk, PortsOk, ChainOk, Sound, FindSpec, Clear, Bucket;
    NonEmptyChains(st);
    if HeadMatches(st, only, f) {
      FindSpecIs(st, version, f, only);
      MatchFoldsAll(c, st, f, wc, only);
      FullMaskIsSound(st, version, f, CompareFolds(c, st, f, wc, only));
    } else {
      OnlyOneCouldMatch(c, st, version, i, f, only);
      MissExactly(st, version, f, CompareFolds(c, st, f, wc, only));
    }
  }

  lemma MatchFoldsAll(c: Config, st: Subtable, f: BitSet, wc: BitSet, only: RuleId)
    requires SubtableOk(c, st) && only in st.chains && HeadMatches(st, only, f)
    ensures st.mask <= CompareFolds(c, st, f, wc, only)
  {
    hide MapsOk, PortsOk, ChainOk;
    NonEmptyChains(st);
    var ws := MaskWords(st);
    NoFirstDiff(st.mask, ws, st.Head(only).flow, f, 0);
    assert ws[..|ws|] == ws;
    forall b: nat | b in st.mask ensures b / WORD_BITS in ws { MaskBitInMap(c, st, b); }
  }

  lemma {:induction false} NoFirstDiff(mask: BitSet, ws: seq<nat>, g: BitSet, f: BitSet, i: nat)
    requires i <= |ws| && Agree(mask, g, f)
    ensures FirstDiff(mask, ws, g, f, i) == |ws|
    decreases |ws| - i
  {
    if i < |ws| {
      AgreeMore(InWords(mask, [ws[i]]), mask, g, f);
      NoFirstDiff(mask, ws, g, f, i + 1);
    }
  }

  lemma OnlyOneCouldMatch(c: Config, st: Subtable, version: nat, i: nat, f: BitSet, only: RuleId)
    requires SubtableOk(c, st) && i < |st.indices| && only in st.chains && Bucket(c, st, i, f) == {only} && !HeadMatches(st, only, f)
    ensures FindSpec(st, version, f) == []
  {
    hide PortsOk, ChainOk;
    NonEmptyChains(st);
    forall id | id in st.chains ensures !HeadMatches(st, id, f) {
      if HeadMatches(st, id, f) {
        MatchIsIndexed(c, st, i, f, f, id);
        BucketIndex(c, st, i, f, id);
      }
    }
  }

  /** The exit after the last stage. */
  lemma EndExactly(c: Config, st: Subtable, version: nat, f: BitSet, wc: BitSet)
    requires SubtableOk(c, st)
    ensures Sound(st, version, f, EndFolds(c, st, version, f, wc), FindSpec(st, version, f)) <==> EndSafe(c, st, version, f, wc)
  {
    hide MapsOk, PortsOk, ChainOk, Sound, FindSpec, Clear, PortsFold;
    if FindSpec(st, version, f) == [] && st.portsMaskLen > 0 {
      MissExactly(st, version, f, PortsFold(c, st, f, wc));
    } else {
      FullMaskIsSound(st, version, f, wc + st.mask);
    }
  }

  // ---- Conditions that are enough ----

  /** The exit at an index is safe when the bucket's only list agrees with the flow on all
      words hashed so far, so that these are un-wildcarded before the difference. */
  lemma NoCollisionIsSafe(c: Config, st: Subtable, version: nat, i: nat, f: BitSet, wc: BitSet)
    requires SubtableOk(c, st) && i < |st.indices|
    requires forall id :: id in Bucket(c, st, i, f) ==> Agree(InWords(st.mask, Upto(st.stages, i + 1)), st.Head(id).flow, f)
    ensures IndexSafe(c, st, version, i, f, wc)
  {
    hide MapsOk, PortsOk, ChainOk, Bucket, Clear, FindSpec;
    NonEmptyChains(st);
    forall only | only in st.chains && Bucket(c, st, i, f) == {only} && !HeadMatches(st, only, f)
      ensures Clear(st, version, f, CompareFolds(c, st, f, wc, only))
    {
      var folded := CompareFolds(c, st, f, wc, only);
      var b := DifferenceKept(c, st, i, f, wc, only);
      forall n | n in st.indices[i] && n.0 == StageHash(c, st.mask, st.stages, i, f) ensures n.1 == only { BucketIndex(c, st, i, f, n.1); }
      SingleMiss(c, st, i, f, folded, only, b);
      ExcludedIsSound(st, version, f, folded);
      MissExactly(st, version, f, folded);
    }
  }

  /** Comparing a list that agrees on the words of the first stages un-wildcards those and
      a bit in which it differs. */
  lemma DifferenceKept(c: Config, st: Subtable, i: nat, f: BitSet, wc: BitSet, only: RuleId) returns (b: nat)
    requires SubtableOk(c, st) && i < |st.stages| && only in st.chains && !HeadMatches(st, only, f)
    ensures b in st.mask && b in CompareFolds(c, st, f, wc, only) && (b in st.Head(only).flow) != (b in f)
    ensures Agree(InWords(st.mask, Upto(st.stages, i + 1)), st.Head(only).flow, f) ==>
              InWords(st.mask, Upto(st.stages, i + 1)) <= CompareFolds(c, st, f, wc, only)
  {
    hide MapsOk, PortsOk, ChainOk, Compared, InWords;
    NonEmptyChains(st);
    var ws, g := MaskWords(st), st.Head(only).flow;
    forall b: nat | b in st.mask ensures b / WORD_BITS in ws { MaskBitInMap(c, st, b); }
    b := ComparedKeeps(c.bigEndian, st.mask, ws, g, f, wc);
    UptoIsPrefix(st.stages, i + 1, |st.stages|);
    var k := |Upto(st.stages, i + 1)|;
    assert ws[..k] == Upto(st.stages, i + 1);
  }

  lemma ComparedKeeps(big: bool, mask: BitSet, ws: seq<nat>, g: BitSet, f: BitSet, wc: BitSet) returns (b: nat)
    requires !Agree(mask, g, f) && forall b: nat :: b in mask ==> b / WORD_BITS in ws
    ensures b in mask && b in Compared(big, mask, ws, g, f, wc) && (b in g) != (b in f)
    ensures forall k :: 0 <= k <= |ws| && Agree(InWords(mask, ws[..k]), g, f) ==> InWords(mask, ws[..k]) <= Compared(big, mask, ws, g, f, wc)
  {
    hide Rightmost, Diff;
    var k := FirstDiff(mask, ws, g, f, 0);
    assert InWords(mask, ws[..0]) == {};
    AgreesBefore(mask, ws, g, f, 0);
    DiffersSomewhere(mask, ws, g, f, k);
    var agreed, diff := wc + InWords(mask, ws[..k]), Diff(InWords(mask, [ws[k]]), g, f);
    FoldDifference(big, mask, ws, k, g, f, wc, agreed, diff);
    b :| b in mask && b in Compared(big, mask, ws, g, f, wc) && (b in g) != (b in f);
  }

  lemma DiffersSomewhere(mask: BitSet, ws: seq<nat>, g: BitSet, f: BitSet, k: nat)
    requires !Agree(mask, g, f) && (forall b: nat :: b in mask ==> b / WORD_BITS in ws)
    requires k <= |ws| && Agree(InWords(mask, ws[..k]), g, f)
    ensures k < |ws|
  {
    assert ws[..|ws|] == ws;
    assert InWords(mask, ws) == mask;
  }

  lemma {:induction false} AgreesBefore(mask: BitSet, ws: seq<nat>, g: BitSet, f: BitSet, i: nat)
    requires i <= |ws| && Agree(InWords(mask, ws[..i]), g, f)
    ensures Agree(InWords(mask, ws[..FirstDiff(mask, ws, g, f, i)]), g, f)
    decreases |ws| - i
  {
    if i < |ws| && Diff(InWords(mask, [ws[i]]), g, f) == {} {
      assert forall b: nat :: b in InWords(mask, ws[..i + 1]) <==> b in InWords(mask, ws[..i]) || b in InWords(mask, [ws[i]]);
      AgreesBefore(mask, ws, g, f, i + 1);
    }
  }

  /** It is also safe when every list is in the bucket, whatever the hashes: a constant
      hash un-wildcards enough. */
  lemma WholeBucketIsSafe(c: Config, st: Subtable, version: nat, i: nat, f: BitSet, wc: BitSet)
    requires SubtableOk(c, st) && i < |st.indices| && forall id :: id in st.chains ==> id in Bucket(c, st, i, f)
    ensures IndexSafe(c, st, version, i, f, wc)
  {
    hide MapsOk, PortsOk, ChainOk, Bucket, CompareFolds;
    NonEmptyChains(st);
    forall only | only in st.chains && Bucket(c, st, i, f) == {only} && !HeadMatches(st, only, f)
      ensures Clear(st, version, f, CompareFolds(c, st, f, wc, only))
    {
      var b := DifferenceKept(c, st, i, f, wc, only);
    }
  }

  /** The exit with ports is safe when the last stage masks only ports. */
  lemma PortsFinalIsSafe(c: Config, st: Subtable, version: nat, f: BitSet, wc: BitSet)
    requires SubtableOk(c, st) && PortsFinal(c, st)
    ensures EndSafe(c, st, version, f, wc)
  {
    hide MapsOk, PortsOk, ChainOk, Sound, Clear, FindSpec;
    if FindSpec(st, version, f) == [] && st.portsMaskLen > 0 {
      PortsTrieFits(c, st);
      PortsTrieShaped(c, st);
      var v := Ports(c, st.mask, f);
      DecidingDecides(st.portsTrie, v);
      T.DecidingCovers(st.portsTrie, v);
      PortsExit(c, st, version, f, PortsFold(c, st, f, wc), T.DecidingBits(st.portsTrie, v),
                set n: nat | n <= |v| && T.MatchesAt(st.portsTrie, v, n));
      MissExactly(st, version, f, PortsFold(c, st, f, wc));
    }
  }

  lemma PortsTrieShaped(c: Config, st: Subtable)
    requires SubtableOk(c, st) && st.portsMaskLen > 0
    ensures T.Shaped(st.portsTrie, true)
  {
    hide MapsOk, ChainOk;
  }

  // ---- The whole search ----

  /** How a search ends: a trie lets the subtable be skipped at stage `i`; index `i` has no
      list under the flow's hash, or one; or the last stage is reached. */
  datatype Exit = Skipped(i: nat, j: nat) | NoList(i: nat) | OneList(i: nat, only: RuleId) | LastStage

  ghost predicate NoneSkips(c: Config, tries: seq<T.Trie>, st: Subtable, f: BitSet, wc: BitSet, k: nat)
    requires k < |st.stages| && |tries| == |c.fields| == |st.triePlen|
  {
    forall j :: 0 <= j < |tries| ==> !Skips(c, tries, st, st.stages[k], f, wc, j)
  }

  /** The search does not end at stage `k`: no trie lets the subtable be skipped, and the
      index has several lists under the flow's hash. */
  ghost predicate GoesOn(c: Config, tries: seq<T.Trie>, st: Subtable, f: BitSet, wc: BitSet, k: nat)
    requires k < |st.indices| < |st.stages| && |tries| == |c.fields| == |st.triePlen|
  {
    && NoneSkips(c, tries, st, f, wc, k)
    && Bucket(c, st, k, f) != {} && !exists only :: Bucket(c, st, k, f) == {only}
  }

  /** How the search ends from stage `i` on. */
  ghost function ExitFrom(c: Config, tries: seq<T.Trie>, st: Subtable, f: BitSet, wc: BitSet, i: nat): (e: Exit)
    requires StaticOk(c, st) && |tries| == |c.fields| && i <= |st.indices|
    ensures e.Skipped? ==> i <= e.i < |st.stages| && e.j < |tries| && Skips(c, tries, st, st.stages[e.i], f, wc, e.j)
    ensures e.NoList? ==> i <= e.i < |st.indices| && Bucket(c, st, e.i, f) == {}
    ensures e.OneList? ==> i <= e.i < |st.indices| && Bucket(c, st, e.i, f) == {e.only}
    decreases |st.indices| - i
  {
    var j := SkipField(c, tries, st, st.stages[i], f, wc, 0);
    if j < |tries| then Skipped(i, j)
    else if i == |st.indices| then LastStage
    else if Bucket(c, st, i, f) == {} then NoList(i)
    else if exists only :: Bucket(c, st, i, f) == {only} then
      var only :| Bucket(c, st, i, f) == {only};
      OneList(i, only)
    else ExitFrom(c, tries, st, f, wc, i + 1)
  }

  ghost function ExitOf(c: Config, tries: seq<T.Trie>, st: Subtable, f: BitSet, wc: BitSet): Exit
    requires StaticOk(c, st) && |tries| == |c.fields|
  {
    ExitFrom(c, tries, st, f, wc, 0)
  }

  lemma Lengths(c: Config, st: Subtable)
    requires StaticOk(c, st)
    ensures |st.stages| == |st.indices| + 1 && |st.triePlen| == |c.fields|
  {
  }

  /** The search ends at the first stage at which it can, and a trie comes before the
      index. */
  lemma {:induction false} ExitIsFirst(c: Config, tries: seq<T.Trie>, st: Subtable, f: BitSet, wc: BitSet, i: nat)
    requires StaticOk(c, st) && |tries| == |c.fields| && i <= |st.indices|
    ensures var e := ExitFrom(c, tries, st, f, wc, i);
            var end := if e.LastStage? then |st.indices| else e.i;
            && (forall k :: i <= k < end ==> GoesOn(c, tries, st, f, wc, k))
            && (!e.Skipped? ==> NoneSkips(c, tries, st, f, wc, end))
    decreases |st.indices| - i
  {
    hide Skips, Bucket, StageHash, StaticOk;
    Lengths(c, st);
    if SkipField(c, tries, st, st.stages[i], f, wc, 0) == |tries| {
      assert NoneSkips(c, tries, st, f, wc, i);
      if i < |st.indices| && Bucket(c, st, i, f) != {} && !exists only :: Bucket(c, st, i, f) == {only} {
        assert GoesOn(c, tries, st, f, wc, i);
        assert ExitFrom(c, tries, st, f, wc, i) == ExitFrom(c, tries, st, f, wc, i + 1);
        ExitIsFirst(c, tries, st, f, wc, i + 1);
      }
    }
  }

  /** Everything that is un-wildcarded after the search. */
  ghost function Folded(c: Config, tries: seq<T.Trie>, st: Subtable, version: nat, f: BitSet, wc: BitSet): BitSet
    requires StaticOk(c, st) && ChainsOk(st) && |tries| == |c.fields|
  {
    var e := ExitOf(c, tries, st, f, wc);
    match e
    case Skipped(i, j) => wc + TrieBits(c, tries, f, j) + InWords(st.mask, Upto(st.stages, i))
    case NoList(i) => wc + InWords(st.mask, Upto(st.stages, i + 1))
    case OneList(i, only) => OneListFolds(c, st, i, f, wc, only)
    case LastStage => EndFolds(c, st, version, f, wc)
  }

  ghost function OneListFolds(c: Config, st: Subtable, i: nat, f: BitSet, wc: BitSet, only: RuleId): BitSet
    requires i < |st.stages| && Bucket(c, st, i, f) == {only}
  {
    assert only in Bucket(c, st, i, f);
    CompareFolds(c, st, f, wc, only)
  }

  /** What wildcard soundness needs of a search: it depends on the exit it takes. */
  ghost predicate Safe(c: Config, tries: seq<T.Trie>, st: Subtable, version: nat, f: BitSet, wc: BitSet)
    requires StaticOk(c, st) && ChainsOk(st) && |tries| == |c.fields|
  {
    match ExitOf(c, tries, st, f, wc)
    case OneList(i, _) => IndexSafe(c, st, version, i, f, wc)
    case LastStage => EndSafe(c, st, version, f, wc)
    case _ => true
  }

  /** The bits un-wildcarded by a search give every flow that shares them the same answer
      exactly when the search is safe. */
  lemma SoundExactly(c: Config, tries: seq<T.Trie>, st: Subtable, version: nat, f: BitSet, wc: BitSet)
    requires SubtableOk(c, st) && TriesOk(c, tries) && HeadsInTries(c, tries, st)
    ensures Sound(st, version, f, Folded(c, tries, st, version, f, wc), FindSpec(st, version, f)) <==> Safe(c, tries, st, version, f, wc)
  {
    hide MapsOk, PortsOk, ChainOk, Sound, FindSpec, IndexSafe, EndSafe, CompareFolds, EndFolds, Bucket, HeadsInTries, TrieBits, Skips;
    match ExitOf(c, tries, st, f, wc)
    case Skipped(i, j) =>
      SkipExcludes(c, tries, st, st.stages[i], f, wc, j);
      var folded := wc + TrieBits(c, tries, f, j);
      ExcludedMore(st, f, folded, folded + InWords(st.mask, Upto(st.stages, i)));
      ExcludedIsSound(st, version, f, folded + InWords(st.mask, Upto(st.stages, i)));
      SoundHere(st, version, f, folded + InWords(st.mask, Upto(st.stages, i)), []);
    case NoList(i) => EmptyBucket(c, st, version, i, f, wc + InWords(st.mask, Upto(st.stages, i + 1)));
    case OneList(i, only) =>
      assert only in Bucket(c, st, i, f);
      BucketIndex(c, st, i, f, only);
      OneHeadExactly(c, st, version, i, f, wc, only);
    case LastStage => EndExactly(c, st, version, f, wc);
  }

  /** Without collisions, and with only ports in a last stage that has any, every search
      is safe. */
  lemma FreeIsSafe(c: Config, tries: seq<T.Trie>, st: Subtable, version: nat, f: BitSet, wc: BitSet)
    requires SubtableOk(c, st) && |tries| == |c.fields| && NoCollision(c, st, f) && PortsFinal(c, st)
    ensures Safe(c, tries, st, version, f, wc)
  {
    hide MapsOk, PortsOk, ChainOk, IndexSafe, EndSafe;
    match ExitOf(c, tries, st, f, wc)
    case OneList(i, _) => NoCollisionIsSafe(c, st, version, i, f, wc);
    case LastStage => PortsFinalIsSafe(c, st, version, f, wc);
    case _ =>
  }

  lemma FoldsMore(c: Config, tries: seq<T.Trie>, st: Subtable, version: nat, f: BitSet, wc: BitSet)
    requires StaticOk(c, st) && ChainsOk(st) && |tries| == |c.fields|
    ensures wc <= Folded(c, tries, st, version, f, wc)
  {
    hide ChainOk, FindSpec, Bucket, Skips, TrieBits, ExitOf, Rightmost, Diff;
  }

  /** A rule that is found has all of its mask un-wildcarded. */
  lemma FoundFoldsMask(c: Config, tries: seq<T.Trie>, st: Subtable, version: nat, f: BitSet, wc: BitSet)
    requires SubtableOk(c, st) && TriesOk(c, tries) && HeadsInTries(c, tries, st) && FindSpec(st, version, f) != []
    ensures st.mask <= Folded(c, tries, st, version, f, wc)
  {
    hide MapsOk, PortsOk, ChainOk, FindSpec, CompareFolds, Bucket, HeadsInTries, Sound, TrieBits, Skips, IndexSafe;
    match ExitOf(c, tries, st, f, wc)
    case Skipped(i, j) =>
      SkipExcludes(c, tries, st, st.stages[i], f, wc, j);
      ExcludedIsSound(st, version, f, wc + TrieBits(c, tries, f, j));
      SoundHere(st, version, f, wc + TrieBits(c, tries, f, j), []);
    case NoList(i) => EmptyBucket(c, st, version, i, f, wc + InWords(st.mask, Upto(st.stages, i + 1)));
    case OneList(i, only) =>
      assert only in Bucket(c, st, i, f);
      BucketIndex(c, st, i, f, only);
      OneHeadExactly(c, st, version, i, f, wc, only);
    case LastStage =>
  }

  // ---- What a search leaves wildcarded ----

  /** Comparing a rule un-wildcards no bit outside its mask, and nothing after the first
      word in which it differs from the flow; of that word only bits in which they
      differ, and only one. */
  lemma ComparedWithin(c: Config, st: Subtable, f: BitSet, wc: BitSet, only: RuleId)
    requires StaticOk(c, st) && only in st.chains && st.chains[only] != []
    ensures var g, added := st.Head(only).flow, CompareFolds(c, st, f, wc, only) - wc;
            && added <= st.mask
            && (forall b: nat, x: nat :: b in added && x in st.mask && x / WORD_BITS < b / WORD_BITS ==> (x in g <==> x in f))
            && (forall b: nat, x: nat :: b in added && x in st.mask && x / WORD_BITS == b / WORD_BITS && (x in g) != (x in f) ==> (b in g) != (b in f))
            && (forall b: nat, x: nat :: b in added && x in added && (b in g) != (b in f) && (x in g) != (x in f) ==> b == x)
  {
    hide Rightmost, Diff, Word, StaticOk;
    var g, ws, mask := st.Head(only).flow, MaskWords(st), st.mask;
    var i := FirstDiff(mask, ws, g, f, 0);
    var added := CompareFolds(c, st, f, wc, only) - wc;
    forall b: nat | b in added ensures AddedAt(mask, ws, g, f, i, b) { AddedBit(c, st, f, wc, only, b); }
    forall b: nat, x: nat | b in added && x in mask && (x in g) != (x in f) && x / WORD_BITS <= b / WORD_BITS
      ensures x / WORD_BITS == b / WORD_BITS && (b in g) != (b in f)
    {
      assert AddedAt(mask, ws, g, f, i, b);
      NotBefore(c, st, g, f, i, b, x);
    }
    forall b: nat, x: nat | b in added && x in added && (b in g) != (b in f) && (x in g) != (x in f) ensures b == x {
      assert AddedAt(mask, ws, g, f, i, b) && AddedAt(mask, ws, g, f, i, x);
      OneDifference(c, st, f, wc, only, b, x);
    }
  }

  /** Bit `b` is in a word before the first that differs, or is a differing bit of that. */
  ghost predicate AddedAt(mask: BitSet, ws: seq<nat>, g: BitSet, f: BitSet, i: nat, b: nat)
    requires i <= |ws|
  {
    b in mask && (b in InWords(mask, ws[..i]) || (i < |ws| && b / WORD_BITS == ws[i] && (b in g) != (b in f)))
  }

  lemma AddedBit(c: Config, st: Subtable, f: BitSet, wc: BitSet, only: RuleId, b: nat)
    requires only in st.chains && st.chains[only] != [] && b in CompareFolds(c, st, f, wc, only) - wc
    ensures var g, ws := st.Head(only).flow, MaskWords(st); AddedAt(st.mask, ws, g, f, FirstDiff(st.mask, ws, g, f, 0), b)
  {
    hide Rightmost, Diff, FirstDiff;
    var g, ws := st.Head(only).flow, MaskWords(st);
    var i := FirstDiff(st.mask, ws, g, f, 0);
    if b !in InWords(st.mask, ws[..i]) {
      var diff := Diff(InWords(st.mask, [ws[i]]), g, f);
      var x :| x in diff;
      DiffMembers(InWords(st.mask, [ws[i]]), g, f, x);
      RightmostIsIn(c.bigEndian, diff, ws[i], 0, x);
      DiffMembers(InWords(st.mask, [ws[i]]), g, f, b);
    }
  }

  lemma AgreesUpTo(mask: BitSet, ws: seq<nat>, g: BitSet, f: BitSet)
    ensures Agree(InWords(mask, ws[..FirstDiff(mask, ws, g, f, 0)]), g, f)
  {
    hide FirstDiff;
    assert InWords(mask, ws[..0]) == {};
    AgreesBefore(mask, ws, g, f, 0);
  }

  lemma FirstOrLater(mask: BitSet, ws: seq<nat>, g: BitSet, f: BitSet, k: nat, x: nat)
    requires k < |ws| && x in mask && x / WORD_BITS == ws[k] && (x in g) != (x in f)
    ensures k >= FirstDiff(mask, ws, g, f, 0)
  {
    hide FirstDiff, Diff;
    var i := FirstDiff(mask, ws, g, f, 0);
    if k < i {
      InLongerPrefix(mask, ws, k, i, x);
      AgreesUpTo(mask, ws, g, f);
    }
  }

  lemma WordsAscend(c: Config, st: Subtable, i: nat, k: nat)
    requires StaticOk(c, st) && i < k < |MaskWords(st)|
    ensures MaskWords(st)[i] < MaskWords(st)[k]
  {
    MapAscends(st.mask, 0, c.nWords, i, k);
  }

  lemma WordOf(c: Config, st: Subtable, x: nat) returns (k: nat)
    requires StaticOk(c, st) && x in st.mask
    ensures k < |MaskWords(st)| && MaskWords(st)[k] == x / WORD_BITS
  {
    hide StaticOk;
    MaskBitInMap(c, st, x);
    k :| 0 <= k < |MaskWords(st)| && MaskWords(st)[k] == x / WORD_BITS;
  }

  /** A difference is not in a word before the first that differs. */
  lemma NotBefore(c: Config, st: Subtable, g: BitSet, f: BitSet, i: nat, b: nat, x: nat)
    requires StaticOk(c, st) && i == FirstDiff(st.mask, MaskWords(st), g, f, 0) && AddedAt(st.mask, MaskWords(st), g, f, i, b)
    requires x in st.mask && (x in g) != (x in f) && x / WORD_BITS <= b / WORD_BITS
    ensures x / WORD_BITS == b / WORD_BITS && (b in g) != (b in f)
  {
    hide Diff, FirstDiff, StaticOk, MaskWords, InWords, AddedAt;
    var ws := MaskWords(st);
    var k := WordOf(c, st, x);
    FirstOrLater(st.mask, ws, g, f, k, x);
    var n := PlaceOf(st.mask, ws, g, f, i, b);
    if n < k { WordsAscend(c, st, n, k); }
  }

  /** The place of an added bit's word. */
  lemma PlaceOf(mask: BitSet, ws: seq<nat>, g: BitSet, f: BitSet, i: nat, b: nat) returns (n: nat)
    requires i <= |ws| && AddedAt(mask, ws, g, f, i, b)
    ensures n < |ws| && ws[n] == b / WORD_BITS && n <= i && (n == i ==> (b in g) != (b in f))
  {
    if b in InWords(mask, ws[..i]) {
      n :| 0 <= n < i && ws[n] == b / WORD_BITS;
    } else {
      n := i;
    }
  }

  lemma OneDifference(c: Config, st: Subtable, f: BitSet, wc: BitSet, only: RuleId, b: nat, x: nat)
    requires only in st.chains && st.chains[only] != []
    requires var g, added := st.Head(only).flow, CompareFolds(c, st, f, wc, only) - wc;
             b in added && x in added && (b in g) != (b in f) && (x in g) != (x in f)
    ensures b == x
  {
    hide Rightmost, Diff, FirstDiff;
    var g, ws := st.Head(only).flow, MaskWords(st);
    var i := FirstDiff(st.mask, ws, g, f, 0);
    AgreesUpTo(st.mask, ws, g, f);
  }

  /** What a search may un-wildcard, by the way it ends: after a skip, bits of the trie's
      prefix and of the stages before; after a miss at an index, the stages up to it;
      after a comparison that fails, what ComparedWithin says; after a miss with ports,
      the earlier stages and the ports; otherwise the mask. */
  ghost predicate LooksAt(c: Config, tries: seq<T.Trie>, st: Subtable, version: nat, f: BitSet, wc: BitSet, b: nat)
    requires StaticOk(c, st) && ChainsOk(st) && |tries| == |c.fields|
  {
    b in st.mask &&
    match ExitOf(c, tries, st, f, wc)
    case Skipped(i, j) => b / WORD_BITS in Upto(st.stages, i) || c.fields[j].ofs <= b < c.fields[j].ofs + st.triePlen[j]
    case NoList(i) => b / WORD_BITS in Upto(st.stages, i + 1)
    case OneList(i, only) =>
      only in st.chains && st.chains[only] != []
      && forall x: nat :: x in st.mask && x / WORD_BITS < b / WORD_BITS ==> (x in st.Head(only).flow <==> x in f)
    case LastStage =>
      FindSpec(st, version, f) != [] || st.portsMaskLen == 0
      || b / WORD_BITS in Upto(st.stages, |st.stages| - 1) || c.portsOfs <= b < c.portsOfs + st.portsMaskLen
  }

  /** A search un-wildcards no more than it looks at. */
  lemma FoldsWithin(c: Config, tries: seq<T.Trie>, st: Subtable, version: nat, f: BitSet, wc: BitSet)
    requires SubtableOk(c, st) && |tries| == |c.fields|
    ensures Folded(c, tries, st, version, f, wc) <= wc + st.mask
    ensures forall b: nat :: b in Folded(c, tries, st, version, f, wc) - wc ==> LooksAt(c, tries, st, version, f, wc, b)
  {
    hide MapsOk, PortsOk, ChainOk, FindSpec, CompareFolds, Bucket, T.DecidingBits;
    NonEmptyChains(st);
    forall b: nat | b in Folded(c, tries, st, version, f, wc) - wc ensures LooksAt(c, tries, st, version, f, wc, b) {
      match ExitOf(c, tries, st, f, wc)
      case Skipped(i, j) => SkipWithin(c, tries, st, st.stages[i], f, wc, j);
      case NoList(i) =>
      case OneList(i, only) =>
        assert only in Bucket(c, st, i, f);
        BucketIndex(c, st, i, f, only);
        ComparedWithin(c, st, f, wc, only);
      case LastStage => EndWithin(c, st, version, f, wc, b);
    }
    forall b: nat | b in Folded(c, tries, st, version, f, wc) ensures b in wc + st.mask {
      if b !in wc { assert b in Folded(c, tries, st, version, f, wc) - wc && LooksAt(c, tries, st, version, f, wc, b); }
    }
  }

  lemma EndWithin(c: Config, st: Subtable, version: nat, f: BitSet, wc: BitSet, b: nat)
    requires SubtableOk(c, st) && b in EndFolds(c, st, version, f, wc) - wc
    ensures b in st.mask
    ensures FindSpec(st, version, f) != [] || st.portsMaskLen == 0
            || b / WORD_BITS in Upto(st.stages, |st.stages| - 1) || c.portsOfs <= b < c.portsOfs + st.portsMaskLen
  {
    hide MapsOk, PortsOk, ChainOk, FindSpec, T.DecidingBits;
    if FindSpec(st, version, f) == [] && st.portsMaskLen > 0 && b / WORD_BITS !in Upto(st.stages, |st.stages| - 1) {
      PortsTrieFits(c, st);
      T.DecidingCovers(st.portsTrie, Ports(c, st.mask, f));
      PortBitsWithin(c, st, b);
    }
  }

  lemma SkipWithin(c: Config, tries: seq<T.Trie>, st: Subtable, stage: seq<nat>, f: BitSet, wc: BitSet, j: nat)
    requires StaticOk(c, st) && j < |tries| == |c.fields| && Skips(c, tries, st, stage, f, wc, j)
    ensures TrieBits(c, tries, f, j) - wc <= PrefixBits(c.fields[j].ofs, st.triePlen[j]) <= st.mask
  {
    hide TrieBits;
  }

  lemma PortBitsWithin(c: Config, st: Subtable, b: nat)
    requires StaticOk(c, st) && b in st.mask && c.portsOfs <= b < c.portsOfs + 32
    ensures b < c.portsOfs + st.portsMaskLen
  {
  }

  /** The tries do save bits: when no stored prefix of the subtable's length matches the
      flow, and the bits that decide this are no more than the subtable masks, or are
      un-wildcarded already, the search does not get beyond the stage of the field. */
  lemma TrieStops(c: Config, tries: seq<T.Trie>, st: Subtable, f: BitSet, wc: BitSet, i: nat, j: nat)
    requires StaticOk(c, st) && i < |st.stages| && j < |tries| == |c.fields|
    requires st.triePlen[j] > 0 && c.fields[j].ofs / WORD_BITS in st.stages[i] && c.fields[j].prereqs(f)
    requires !T.MatchesAt(tries[j], Value(c, f, j), st.triePlen[j])
    requires var n := T.DecidingBits(tries[j], Value(c, f, j)); n <= st.triePlen[j] || PrefixBits(c.fields[j].ofs, n) <= wc
    ensures match ExitOf(c, tries, st, f, wc)
            case Skipped(k, _) => k <= i
            case NoList(k) => k < i
            case OneList(k, _) => k < i
            case LastStage => false
  {
    hide Bucket, StaticOk, T.DecidingBits, T.MatchesAt, ExitFrom;
    Lengths(c, st);
    ShorterPrefix(c.fields[j].ofs, T.DecidingBits(tries[j], Value(c, f, j)), st.triePlen[j]);
    assert Skips(c, tries, st, st.stages[i], f, wc, j);
    assert !NoneSkips(c, tries, st, f, wc, i);
    ExitIsFirst(c, tries, st, f, wc, 0);
    ExitInRange(c, tries, st, f, wc);
    assert i < |st.indices| ==> !GoesOn(c, tries, st, f, wc, i);
  }

  lemma ExitInRange(c: Config, tries: seq<T.Trie>, st: Subtable, f: BitSet, wc: BitSet)
    requires StaticOk(c, st) && |tries| == |c.fields|
    ensures var e := ExitOf(c, tries, st, f, wc); !e.LastStage? ==> e.i < |st.stages|
  {
    hide Bucket, Skips;
  }

  // ---- The search step by step ----

  lemma SkippedHere(c: Config, tries: seq<T.Trie>, st: Subtable, version: nat, f: BitSet, wc: BitSet, i: nat)
    requires StaticOk(c, st) && ChainsOk(st) && |tries| == |c.fields| && i <= |st.indices|
    requires ExitOf(c, tries, st, f, wc) == ExitFrom(c, tries, st, f, wc, i)
    ensures var j := SkipField(c, tries, st, st.stages[i], f, wc, 0);
            j < |tries| ==> Folded(c, tries, st, version, f, wc) == wc + TrieBits(c, tries, f, j) + InWords(st.mask, Upto(st.stages, i))
  {
    hide ChainOk, EndFolds, CompareFolds, Bucket, TrieBits, SkipField, Skips, ExitOf;
  }

  lemma StopsHere(c: Config, tries: seq<T.Trie>, st: Subtable, version: nat, f: BitSet, wc: BitSet, i: nat)
    requires StaticOk(c, st) && ChainsOk(st) && |tries| == |c.fields| && i < |st.indices|
    requires ExitOf(c, tries, st, f, wc) == ExitFrom(c, tries, st, f, wc, i) && SkipField(c, tries, st, st.stages[i], f, wc, 0) == |tries|
    ensures Bucket(c, st, i, f) == {} ==> Folded(c, tries, st, version, f, wc) == wc + InWords(st.mask, Upto(st.stages, i + 1))
    ensures forall only :: Bucket(c, st, i, f) == {only} ==> Folded(c, tries, st, version, f, wc) == OneListFolds(c, st, i, f, wc, only)
    ensures Bucket(c, st, i, f) == {} || (exists only :: Bucket(c, st, i, f) == {only})
            || ExitOf(c, tries, st, f, wc) == ExitFrom(c, tries, st, f, wc, i + 1)
  {
    hide ChainOk, EndFolds, CompareFolds, Bucket, TrieBits, SkipField, Skips, ExitOf;
  }

  lemma EndsHere(c: Config, tries: seq<T.Trie>, st: Subtable, version: nat, f: BitSet, wc: BitSet)
    requires StaticOk(c, st) && ChainsOk(st) && |tries| == |c.fields|
    requires var n := |st.indices|; ExitOf(c, tries, st, f, wc) == ExitFrom(c, tries, st, f, wc, n)
                                    && SkipField(c, tries, st, st.stages[n], f, wc, 0) == |tries|
    ensures Folded(c, tries, st, version, f, wc) == EndFolds(c, st, version, f, wc)
  {
    hide ChainOk, EndFolds, CompareFolds, Bucket, TrieBits, SkipField, Skips, ExitOf;
  }

  lemma StageStart(c: Config, st: Subtable, f: BitSet)
    ensures AtStage(c, st, f, 0, {}, 0, 0)
  {
    assert InWords(st.mask, Upto(st.stages, 0)) == {};
  }

  lemma StageMap(c: Config, st: Subtable, f: BitSet, i: nat, stagesMap: BitSet, basis: nat, offset: nat)
    requires AtStage(c, st, f, i, stagesMap, basis, offset)
    ensures i <= |st.stages| && stagesMap == InWords(st.mask, Upto(st.stages, i))
  {
  }

  /** find_match_wc with a mask to fill in. */
  method FindMatchWc(c: Config, tries: seq<T.Trie>, ctx: seq<TrieCtx>, st: Subtable, version: nat, f: BitSet, wc: BitSet)
    returns (r: RulePtr, ctx': seq<TrieCtx>, wc': BitSet)
    requires SubtableOk(c, st) && TriesOk(c, tries) && HeadsInTries(c, tries, st)
    requires CtxOk(c, tries, f, ctx)
    ensures CtxOk(c, tries, f, ctx') && wc <= wc'
    ensures r == FindSpec(st, version, f) && wc' == Folded(c, tries, st, version, f, wc)
    ensures wc' <= wc + st.mask && forall b: nat :: b in wc' - wc ==> LooksAt(c, tries, st, version, f, wc, b)
    ensures Sound(st, version, f, wc', r) <==> Safe(c, tries, st, version, f, wc)
    ensures NoCollision(c, st, f) && PortsFinal(c, st) ==> Sound(st, version, f, wc', r)
  {
    hide MapsOk, PortsOk, ChainsOk, Sound, FindSpec, Safe, Folded, ExitOf, ExitFrom, OneListFolds, EndFolds, Bucket, HeadsInTries, CtxOk,
         Excluded, TrieBits, IndexSafe, EndSafe, NoCollision, PortsFinal, SkipField, AtStage, LooksAt, InWords, Upto, StageHash, HashWords, T.Shaped,
         T.PrefixesFit;
    Sizes(c, tries, st);
    SoundExactly(c, tries, st, version, f, wc);
    FoldsWithin(c, tries, st, version, f, wc);
    if NoCollision(c, st, f) && PortsFinal(c, st) { FreeIsSafe(c, tries, st, version, f, wc); }
    ctx', wc' := ctx, wc;
    var basis, offset, hash := 0, 0, 0;
    var stagesMap: BitSet := {};
    StageStart(c, st, f);
    assert ExitOf(c, tries, st, f, wc) == ExitFrom(c, tries, st, f, wc, 0) by { FromTheStart(c, tries, st, f, wc); }
    var skip;
    var i := 0;
    while i < |st.indices|
      invariant 0 <= i <= |st.indices| && wc' == wc && CtxOk(c, tries, f, ctx')
      invariant AtStage(c, st, f, i, stagesMap, basis, offset)
      invariant ExitOf(c, tries, st, f, wc) == ExitFrom(c, tries, st, f, wc, i)
    {
      skip, ctx', wc' := CheckTries(c, tries, ctx', st, st.stages[i], f, wc');
      StageMap(c, st, f, i, stagesMap, basis, offset);
      SkippedHere(c, tries, st, version, f, wc, i);
      if skip {
        NothingMatches(st, version, f, wc');
        return [], ctx', wc' + stagesMap;
      }
      StageContinuation(c, st, f, i, stagesMap, basis, offset);
      stagesMap := stagesMap + InWords(st.mask, st.stages[i]);
      hash, offset, basis := HashRange(c.hasher, f, st.mask, st.stages[i], offset, basis);
      StageMap(c, st, f, i + 1, stagesMap, basis, offset);
      StopsHere(c, tries, st, version, f, wc, i);
      var done;
      done, r, wc' := SearchIndex(c, st, version, i, f, wc', stagesMap, hash);
      if done { return r, ctx', wc'; }
      i := i + 1;
    }
    skip, ctx', wc' := CheckTries(c, tries, ctx', st, st.stages[i], f, wc');
    StageMap(c, st, f, i, stagesMap, basis, offset);
    SkippedHere(c, tries, st, version, f, wc, i);
    if skip {
      NothingMatches(st, version, f, wc');
      return [], ctx', wc' + stagesMap;
    }
    StageContinuation(c, st, f, i, stagesMap, basis, offset);
    hash, offset, basis := HashRange(c.hasher, f, st.mask, st.stages[i], offset, basis);
    EndsHere(c, tries, st, version, f, wc);
    r, wc' := FinalStage(c, st, version, f, wc', stagesMap, hash);
  }

  lemma Sizes(c: Config, tries: seq<T.Trie>, st: Subtable)
    requires SubtableOk(c, st) && TriesOk(c, tries)
    ensures |st.stages| == |st.indices| + 1 && |tries| == |c.fields| == |st.triePlen|
  {
    hide MapsOk, PortsOk, ChainsOk;
  }

  lemma FromTheStart(c: Config, tries: seq<T.Trie>, st: Subtable, f: BitSet, wc: BitSet)
    requires StaticOk(c, st) && |tries| == |c.fields|
    ensures ExitOf(c, tries, st, f, wc) == ExitFrom(c, tries, st, f, wc, 0)
  {
  }

  lemma NothingMatches(st: Subtable, version: nat, f: BitSet, wc: BitSet)
    requires ChainsOk(st) && Excluded(st, f, wc)
    ensures FindSpec(st, version, f) == []
  {
    ExcludedIsSound(st, version, f, wc);
    SoundHere(st, version, f, wc, []);
  }

  /** One index: an empty bucket or a bucket with one head ends the search. */
  method SearchIndex(c: Config, st: Subtable, version: nat, i: nat, f: BitSet, wc: BitSet, stagesMap: BitSet, hash: nat)
    returns (done: bool, r: RulePtr, wc': BitSet)
    requires SubtableOk(c, st) && i < |st.indices| && hash == StageHash(c, st.mask, st.stages, i, f)
    requires stagesMap == InWords(st.mask, Upto(st.stages, i + 1))
    ensures wc <= wc' && (!done ==> wc' == wc)
    ensures done <==> Bucket(c, st, i, f) == {} || exists only :: Bucket(c, st, i, f) == {only}
    ensures Bucket(c, st, i, f) == {} ==> wc' == wc + stagesMap
    ensures forall only :: Bucket(c, st, i, f) == {only} ==> wc' == OneListFolds(c, st, i, f, wc, only)
    ensures done ==> r == FindSpec(st, version, f) && wc' <= wc + st.mask
    ensures done ==> (Sound(st, version, f, wc', r) <==> IndexSafe(c, st, version, i, f, wc))
  {
    hide MapsOk, PortsOk, ChainOk, Sound, FindSpec, IndexSafe, CompareFolds, Bucket;
    var nodes := set n | n in st.indices[i] && n.0 == hash;
    forall id ensures id in Bucket(c, st, i, f) <==> (hash, id) in nodes { BucketIndex(c, st, i, f, id); }
    if nodes == {} {
      assert Bucket(c, st, i, f) == {};
      EmptyBucket(c, st, version, i, f, wc + stagesMap);
      return true, [], wc + stagesMap;
    }
    var n :| n in nodes;
    assert n == (hash, n.1) && n.1 in Bucket(c, st, i, f);
    if nodes == {n} {
      assert Bucket(c, st, i, f) == {n.1};
      BucketIndex(c, st, i, f, n.1);
      r, wc' := CompareSingle(c, st, version, i, f, wc, n.1);
      return true, r, wc';
    }
    SecondInBucket(nodes, n, hash, Bucket(c, st, i, f));
    return false, [], wc;
  }

  lemma SecondInBucket(nodes: set<(nat, RuleId)>, n: (nat, RuleId), hash: nat, bucket: set<RuleId>)
    requires n in nodes && nodes != {n} && (forall m :: m in nodes ==> m.0 == hash)
    requires forall id :: id in bucket <==> (hash, id) in nodes
    ensures bucket != {} && !exists only :: bucket == {only}
  {
    var m :| m in nodes && m != n;
    assert n == (hash, n.1) && m == (hash, m.1);
    assert n.1 in bucket && m.1 in bucket;
  }

  /** The last stage: the rules map and, when nothing is found, the ports trie. */
  method FinalStage(c: Config, st: Subtable, version: nat, f: BitSet, wc: BitSet, stagesMap: BitSet, hash: nat)
    returns (r: RulePtr, wc': BitSet)
    requires SubtableOk(c, st) && hash == StageHash(c, st.mask, st.stages, |st.stages| - 1, f)
    requires stagesMap == InWords(st.mask, Upto(st.stages, |st.stages| - 1))
    ensures wc <= wc' && r == FindSpec(st, version, f) && wc' == EndFolds(c, st, version, f, wc)
    ensures wc' <= wc + st.mask && (r == [] && st.portsMaskLen > 0 ==>
              wc' <= wc + InWords(st.mask, Upto(st.stages, |st.stages| - 1)) + PrefixBits(c.portsOfs, st.portsMaskLen))
    ensures Sound(st, version, f, wc', r) <==> EndSafe(c, st, version, f, wc)
  {
    hide MapsOk, PortsOk, ChainOk, Sound, FindSpec, EndSafe;
    EndExactly(c, st, version, f, wc);
    forall b: nat | b in EndFolds(c, st, version, f, wc) - wc
      ensures b in st.mask
      ensures FindSpec(st, version, f) != [] || st.portsMaskLen == 0
              || b in InWords(st.mask, Upto(st.stages, |st.stages| - 1)) || b in PrefixBits(c.portsOfs, st.portsMaskLen)
    {
      EndWithin(c, st, version, f, wc, b);
    }
    r := FindMatch(c, st, version, f, hash);
    if r == [] && st.portsMaskLen > 0 {
      PortsTrieFits(c, st);
      PortsTrieShaped(c, st);
      var mbits, plens := T.LookupValue(st.portsTrie, Ports(c, st.mask, f));
      wc' := wc + st.mask * PrefixBits(c.portsOfs, mbits) + stagesMap;
      return;
    }
    wc' := wc + st.mask;
  }

  /** The early exit of an index bucket with one head: check that head, and
      either way be done. */
  method CompareSingle(c: Config, st: Subtable, version: nat, i: nat, f: BitSet, wc: BitSet, only: RuleId)
    returns (r: RulePtr, wc': BitSet)
    requires SubtableOk(c, st) && i < |st.indices| && only in st.chains && Bucket(c, st, i, f) == {only}
    ensures wc <= wc' == CompareFolds(c, st, f, wc, only) && wc' <= wc + st.mask
    ensures r == FindSpec(st, version, f)
    ensures Sound(st, version, f, wc', r) <==> IndexSafe(c, st, version, i, f, wc)
  {
    hide MapsOk, PortsOk, ChainOk, Sound, FindSpec, IndexSafe, Bucket;
    NonEmptyChains(st);
    OneHeadExactly(c, st, version, i, f, wc, only);
    var ws := MaskWords(st);
    forall b: nat | b in st.mask ensures b / WORD_BITS in ws { MaskBitInMap(c, st, b); }
    var ok;
    ok, wc' := MatchesFlowWc(c.bigEndian, st.mask, ws, st.Head(only).flow, f, wc);
    r := if ok then FirstVisible(st.chains[only], version) else [];
  }

  /** find_match_wc without a mask to fill in: one hash over all of the subtable's
      mask finds what the staged search finds. */
  method FindMatchOneShot(c: Config, st: Subtable, version: nat, f: BitSet) returns (r: RulePtr)
    requires SubtableOk(c, st)
    ensures r == FindSpec(st, version, f)
  {
    hide MapsOk, PortsOk, ChainOk;
    FinalStageIsOneShot(c, st, f);
    r := FindMatch(c, st, version, f, OneShotHash(c, st.mask, f));
  }
}
