/** insert_subtable: what a subtable's mask determines. */
module NewSubtable {
  import opened Bits
  import opened Flows
  import opened Subtables
  import opened SubtableEdits

  /** Flow segments end at ascending words, and trie fields are not empty. */
  ghost predicate ConfigOk(c: Config)
  {
    && (forall i, j :: 0 <= i <= j < |c.segments| ==> c.segments[i] <= c.segments[j])
    && (forall i :: 0 <= i < |c.segments| ==> c.segments[i] <= c.nWords)
    && (forall j :: 0 <= j < |c.fields| ==> c.fields[j].nBits > 0)
  }

  /** How many of the `n` bits from `ofs` on are in the mask before the first
      that is not. */
  function LeadingOnes(mask: BitSet, ofs: nat, n: nat): (r: nat)
    ensures r <= n && PrefixBits(ofs, r) <= mask
    ensures r < n ==> ofs + r !in mask
  {
    if n == 0 || LeadingOnes(mask, ofs, n - 1) < n - 1 || ofs + n - 1 !in mask then
      if n == 0 then 0 else LeadingOnes(mask, ofs, n - 1)
    else n
  }

  lemma LeadingOnesAre(mask: BitSet, ofs: nat, n: nat, k: nat)
    requires k <= n && mask * PrefixBits(ofs, n) == PrefixBits(ofs, k)
    ensures LeadingOnes(mask, ofs, n) == k
  {
    var r: nat := LeadingOnes(mask, ofs, n);
    assert k < r ==> ofs + k in PrefixBits(ofs, r);
    assert r < k ==> ofs + r in PrefixBits(ofs, k);
    assert k < n ==> ofs + k in PrefixBits(ofs, n) && ofs + k !in PrefixBits(ofs, k);
  }

  /** minimask_get_prefix_len: the length of the mask's prefix on a field, or
      zero when the masked bits of the field are not a prefix. */
  function PrefixLen(mask: BitSet, ofs: nat, n: nat): (r: nat)
    ensures r <= n && PrefixBits(ofs, r) <= mask
    ensures r > 0 <==> exists k: nat :: 0 < k <= n && mask * PrefixBits(ofs, n) == PrefixBits(ofs, k)
    ensures r > 0 ==> mask * PrefixBits(ofs, n) == PrefixBits(ofs, r)
  {
    var r := LeadingOnes(mask, ofs, n);
    assert forall k: nat :: k <= n && mask * PrefixBits(ofs, n) == PrefixBits(ofs, k) ==> k == r by {
      forall k: nat | k <= n && mask * PrefixBits(ofs, n) == PrefixBits(ofs, k) ensures k == r {
        LeadingOnesAre(mask, ofs, n, k);
      }
    }
    if mask * PrefixBits(ofs, n) == PrefixBits(ofs, r) then r else 0
  }

  /** 32 - ctz32(ports mask): one past the last masked port bit. */
  function PortsLen(mask: BitSet, ofs: nat, n: nat): (r: nat)
    ensures r <= n
    ensures forall b: nat :: b in mask && ofs <= b < ofs + n ==> b < ofs + r
    ensures r > 0 ==> ofs + r - 1 in mask
  {
    if n == 0 then 0 else if ofs + n - 1 in mask then n else PortsLen(mask, ofs, n - 1)
  }

  lemma {:induction false} UptoExtend(stages: seq<seq<nat>>, ws: seq<nat>, i: nat)
    requires i <= |stages|
    ensures Upto(stages + [ws], i) == Upto(stages, i)
    decreases i
  {
    if i > 0 { UptoExtend(stages, ws, i - 1); }
  }

  /** No segment ends between the words. */
  ghost predicate SameSegment(c: Config, w: nat, w': nat)
  {
    forall k :: 0 <= k < |c.segments| ==> (c.segments[k] <= w <==> c.segments[k] <= w')
  }

  /** Words are in one stage exactly when they are in one segment. */
  ghost predicate Segmented(c: Config, stages: seq<seq<nat>>)
  {
    forall i, j, w, w' :: 0 <= i < |stages| && 0 <= j < |stages| && w in stages[i] && w' in stages[j] ==>
      (i == j <==> SameSegment(c, w, w'))
  }

  predicate AllFrom(ws: seq<nat>, n: nat) { forall w :: w in ws ==> n <= w }

  /** The words between two segment ends make up a new stage. */
  lemma NextSegment(c: Config, stages: seq<seq<nat>>, i: nat, prev: nat, ws: seq<nat>)
    requires ConfigOk(c) && Segmented(c, stages) && i <= |c.segments| && prev == (if i == 0 then 0 else c.segments[i - 1])
    requires forall k, w :: 0 <= k < |stages| && w in stages[k] ==> w < prev
    requires forall w :: w in ws ==> prev <= w && (i < |c.segments| ==> w < c.segments[i])
    ensures Segmented(c, stages + [ws])
  {
    forall w, w' | w in ws && w' in ws ensures SameSegment(c, w, w') {
    }
    forall k, w, w' | 0 <= k < |stages| && w in stages[k] && w' in ws ensures !SameSegment(c, w, w') && !SameSegment(c, w', w) {
      assert c.segments[i - 1] <= w' && c.segments[i - 1] > w;
    }
  }

  /** The length of a field's prefix in the mask, or zero if its masked bits are none or
      not a prefix. */
  ghost predicate IsPrefixLen(mask: BitSet, ofs: nat, n: nat, r: nat)
  {
    && (r > 0 <==> exists k: nat :: 0 < k <= n && mask * PrefixBits(ofs, n) == PrefixBits(ofs, k))
    && (r > 0 ==> mask * PrefixBits(ofs, n) == PrefixBits(ofs, r))
  }

  /** The loop over the flow segments: an index for each segment in which the
      mask has bits, then the final stage.  The source also drops the last
      index when its map equals the final one, which never happens: the two
      cover different words and an index map is not empty. */
  method StageMaps(c: Config, mask: BitSet) returns (stages: seq<seq<nat>>)
    requires ConfigOk(c)
    ensures |stages| >= 1 && Upto(stages, |stages|) == MapInRange(mask, 0, c.nWords)
    ensures forall i :: 0 <= i < |stages| - 1 ==> stages[i] != []
    ensures Segmented(c, stages) && forall k :: 0 <= k < |c.segments| ==> AllFrom(stages[|stages| - 1], c.segments[k])
  {
    hide Segmented;
    stages := [];
    NoStages(c);
    var prev: nat, i := 0, 0;
    while i < |c.segments|
      invariant 0 <= i <= |c.segments| && prev <= c.nWords
      invariant i < |c.segments| ==> prev <= c.segments[i]
      invariant Upto(stages, |stages|) == MapInRange(mask, 0, prev)
      invariant forall k :: 0 <= k < |stages| ==> stages[k] != []
      invariant forall k, w :: 0 <= k < |stages| && w in stages[k] ==> w < prev
      invariant Segmented(c, stages) && prev == if i == 0 then 0 else c.segments[i - 1]
    {
      var stage := MapInRange(mask, prev, c.segments[i]);
      MapSplit(mask, 0, prev, c.segments[i]);
      forall w | w in stage ensures prev <= w < c.segments[i] { MapMembers(mask, prev, c.segments[i], w); }
      if stage != [] {
        NextSegment(c, stages, i, prev, stage);
        UptoExtend(stages, stage, |stages|);
        stages := stages + [stage];
      }
      prev := c.segments[i];
      i := i + 1;
    }
    var last := MapInRange(mask, prev, c.nWords);
    MapSplit(mask, 0, prev, c.nWords);
    if |stages| > 0 && stages[|stages| - 1] == last {
      MapMembers(mask, prev, c.nWords, last[0]);
      assert false;
    }
    forall w | w in last ensures prev <= w { MapMembers(mask, prev, c.nWords, w); }
    NextSegment(c, stages, i, prev, last);
    UptoExtend(stages, last, |stages|);
    stages := stages + [last];
  }

  lemma NoStages(c: Config)
    ensures Segmented(c, [])
  {
  }

  method InsertSubtable(c: Config, mask: BitSet) returns (st: Subtable)
    requires ConfigOk(c) && forall b: nat :: b in mask ==> b < WORD_BITS * c.nWords
    ensures TableOk(c, st) && st.mask == mask && st.chains == map[] && |st.triePlen| == |c.fields|
    ensures All(st) == {} && HeadFlows(st) == {}
    ensures Segmented(c, st.stages) && forall j :: 0 <= j < |c.fields| ==> IsPrefixLen(mask, c.fields[j].ofs, c.fields[j].nBits, st.triePlen[j])
  {
    hide Segmented;
    var stages := StageMaps(c, mask);
    var plens := seq(|c.fields|, j requires 0 <= j < |c.fields| => PrefixLen(mask, c.fields[j].ofs, c.fields[j].nBits));
    st := Subtable(mask, stages, plens, PortsLen(mask, c.portsOfs, 32), 0, 0, map[],
                   seq(|stages| - 1, _ => {}), {}, T.Null);
    forall q: BitString ensures FlowsAtPorts(c, mask, st.portsMaskLen, HeadFlows(st), q) == {} {
    }
  }
}
