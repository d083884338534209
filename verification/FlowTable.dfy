/** The kernel flow table: insertion and removal of flows, with reference-counted
    masks and a hash table that is rebuilt as it fills up. */
module FlowTable {
  import opened Basics
  import opened MegaflowKeys
  import opened MegaflowLookup
  import opened MaskArray

  type Masks = map<MaskId, Mask>

  /** The flows of a table instance. */
  ghost function FlowsOf(buckets: seq<seq<Flow>>): set<Flow>
  {
    set b, f | 0 <= b < |buckets| && f in buckets[b] :: f
  }

  ghost function Using(flows: set<Flow>, m: MaskId): set<Flow>
  {
    set f | f in flows && f.mask == m
  }

  // ---- Invariants ----

  /** `count` is the number of masks; masks are pairwise different and listed once. */
  ghost predicate MasksOk(n: nat, ma: seq<MaskId>, count: nat, masks: Masks)
  {
    && Listed(ma, masks, n) && count == NonNull(ma) && |ma| >= MASK_ARRAY_SIZE_MIN
    && forall a, b :: a in masks && b in masks && masks[a] == masks[b] ==> a == b
  }

  /** Reference counts are the numbers of flows that use the masks. */
  ghost predicate RefsOk(flows: set<Flow>, masks: Masks, refs: map<MaskId, nat>)
  {
    && refs.Keys == masks.Keys
    && (forall m :: m in masks ==> refs[m] == |Using(flows, m)| && refs[m] > 0)
    && (forall f :: f in flows ==> f.mask in masks)
  }

  ghost predicate IdsOk(flows: set<Flow>)
  {
    forall f, g :: f in flows && g in flows && f.id == g.id ==> f == g
  }

  /** No list has a flow twice. */
  ghost predicate ListsOk(buckets: seq<seq<Flow>>)
  {
    forall b, i, j :: 0 <= b < |buckets| && 0 <= i < j < |buckets[b]| ==> buckets[b][i] != buckets[b][j]
  }

  predicate PowerOfTwo(n: nat)
  {
    n == 1 || (n > 0 && n % 2 == 0 && PowerOfTwo(n / 2))
  }

  // ---- Masks ----

  /** mask_equal compares the ranges and the longs in them. */
  predicate MaskEqual(a: Mask, b: Mask)
    requires a.range.start <= a.range.end <= |a.key| * LONG && |a.key| == |b.key|
  {
    a.range == b.range && Slice(a.key, a.range) == Slice(b.key, b.range)
  }

  /** That is equality of the whole masks. */
  lemma MaskEqualIsEqual(a: Mask, b: Mask, n: nat)
    requires MaskOk(a, n) && MaskOk(b, n)
    ensures MaskEqual(a, b) <==> a == b
  {
    if MaskEqual(a, b) {
      var lo, hi := a.range.start / LONG, a.range.end / LONG;
      InRangeLongs(a.range, n, 0);
      SameSlices(a.key, b.key, lo, hi);
      forall j | 0 <= j < n ensures a.key[j] == b.key[j] { InRangeLongs(a.range, n, j); }
      assert a.key == b.key;
    }
  }

  /** flow_mask_find. */
  method FindMask(n: nat, ma: seq<MaskId>, masks: Masks, mask: Mask) returns (m: MaskId)
    requires Listed(ma, masks, n) && MaskOk(mask, n)
    ensures m == NULL ==> forall x :: x in masks ==> masks[x] != mask
    ensures m != NULL ==> m in masks && masks[m] == mask
  {
    hide MaskOk, MaskEqual;
    var i := 0;
    while i < |ma|
      invariant i <= |ma| && forall k :: 0 <= k < i && ma[k] != NULL ==> masks[ma[k]] != mask
    {
      if ma[i] != NULL {
        OkRange(masks[ma[i]], n);
        OkRange(mask, n);
        MaskEqualIsEqual(mask, masks[ma[i]], n);
        if MaskEqual(mask, masks[ma[i]]) { return ma[i]; }
      }
      i := i + 1;
    }
    forall x | x in masks ensures masks[x] != mask { var k :| 0 <= k < |ma| && ma[k] == x; }
    m := NULL;
  }

  lemma OkRange(m: Mask, n: nat)
    requires MaskOk(m, n)
    ensures |m.key| == n && m.range.start <= m.range.end <= n * LONG
  {
  }

  lemma ListedAdd(n: nat, ma: seq<MaskId>, masks: Masks, ma': seq<MaskId>, m: MaskId, mask: Mask)
    requires Listed(ma, masks, n) && m != NULL && m !in masks && MaskOk(mask, n)
    requires m in ma' && Once(ma') && forall x :: x != NULL && x != m ==> (x in ma' <==> x in ma)
    ensures Listed(ma', masks[m := mask], n)
  {
    hide MaskOk;
    forall i | 0 <= i < |ma'| && ma'[i] != NULL ensures ma'[i] in masks[m := mask] {
      if ma'[i] != m { assert ma'[i] in ma; }
    }
  }

  lemma ListedDrop(n: nat, ma: seq<MaskId>, masks: Masks, ma': seq<MaskId>, m: MaskId)
    requires Listed(ma, masks, n) && m in masks
    requires m !in ma' && Once(ma') && forall x :: x != NULL && x != m ==> (x in ma' <==> x in ma)
    ensures Listed(ma', masks - {m}, n)
  {
    hide MaskOk;
    forall i | 0 <= i < |ma'| && ma'[i] != NULL ensures ma'[i] in masks - {m} { assert ma'[i] in ma; }
  }

  lemma ListedSame(n: nat, ma: seq<MaskId>, masks: Masks, ma': seq<MaskId>)
    requires Listed(ma, masks, n) && SameMasks(ma, ma') && Once(ma')
    ensures Listed(ma', masks, n)
  {
    hide MaskOk;
    forall i | 0 <= i < |ma'| && ma'[i] != NULL ensures ma'[i] in masks { assert ma'[i] in ma'; assert ma'[i] in ma; }
  }

  /** flow_mask_insert for a mask that is not there: adds it to the array, which
      grows when it is full. */
  method InsertMask(n: nat, ma: array<MaskId>, count: nat, masks: Masks, m: MaskId, mask: Mask, allocArray: bool)
    returns (ok: bool, ma': array<MaskId>, count': nat)
    requires MasksOk(n, ma[..], count, masks) && MaskOk(mask, n) && m != NULL && m !in masks
    requires forall x :: x in masks ==> masks[x] != mask
    modifies ma
    ensures ok == (count < ma.Length || allocArray)
    ensures ok ==> (ma' == ma || fresh(ma')) && MasksOk(n, ma'[..], count', masks[m := mask]) && count' == count + 1
    ensures ok ==> ma'.Length == if count < ma.Length then ma.Length else ma.Length + MASK_ARRAY_SIZE_MIN
    ensures !ok ==> ma' == ma && ma[..] == old(ma[..]) && count' == count
  {
    hide MaskOk, Once, SameMasks, Packed;
    ma', count' := ma, count;
    ghost var was := ma[..];
    ListedOnce(n, was, masks);
    if count >= ma.Length {
      if !allocArray { return false, ma, count; }
      ma', count' := Realloc(ma, ma.Length + MASK_ARRAY_SIZE_MIN);
      ListedSame(n, was, masks, ma'[..]);
    }
    NotListed(n, ma'[..], masks, m);
    ghost var before := ma'[..];
    AddMask(ma', m);
    count' := count' + 1;
    ListedAdd(n, before, masks, ma'[..], m, mask);
    ok := true;
  }

  lemma ListedOnce(n: nat, ma: seq<MaskId>, masks: Masks)
    requires Listed(ma, masks, n)
    ensures Once(ma)
  {
  }

  lemma NotListed(n: nat, ma: seq<MaskId>, masks: Masks, m: MaskId)
    requires Listed(ma, masks, n) && m != NULL && m !in masks
    ensures m !in ma
  {
  }

  /** flow_mask_remove for the last reference: takes the mask out of the array,
      which shrinks when it is mostly empty. */
  method RemoveMask(n: nat, ma: array<MaskId>, count: nat, masks: Masks, m: MaskId, allocArray: bool)
    returns (ma': array<MaskId>, count': nat)
    requires MasksOk(n, ma[..], count, masks) && m in masks
    modifies ma
    ensures (ma' == ma || fresh(ma')) && MasksOk(n, ma'[..], count', masks - {m}) && count' == count - 1
    ensures ma'.Length == if ma.Length >= MASK_ARRAY_SIZE_MIN * 2 && 3 * count' <= ma.Length && allocArray then ma.Length / 2 else ma.Length
  {
    hide MaskOk, Once, SameMasks, Packed;
    ghost var was := ma[..];
    ListedOnce(n, was, masks);
    DeleteMask(ma, m);
    ma', count' := ma, count - 1;
    ListedDrop(n, was, masks, ma[..], m);
    if ma.Length >= MASK_ARRAY_SIZE_MIN * 2 && count' <= ma.Length / 3 && allocArray {
      ghost var before := ma[..];
      ma', count' := Realloc(ma, ma.Length / 2);
      ListedSame(n, before, masks - {m}, ma'[..]);
    }
  }

  // ---- Buckets ----

  lemma FlowsIn(buckets: seq<seq<Flow>>, f: Flow)
    ensures f in FlowsOf(buckets) <==> IsIn(buckets, f)
  {
  }

  lemma FlowsUpdate(buckets: seq<seq<Flow>>, b: nat, list: seq<Flow>, f: Flow)
    requires b < |buckets| && (forall g :: g in list <==> g == f || g in buckets[b])
    ensures FlowsOf(buckets[b := list]) == FlowsOf(buckets) + {f}
  {
    var now := buckets[b := list];
    forall g ensures g in FlowsOf(now) <==> g in FlowsOf(buckets) + {f} {
      FlowsIn(now, g);
      FlowsIn(buckets, g);
      if g in FlowsOf(now) {
        var c :| 0 <= c < |now| && g in now[c];
        assert c != b ==> g in buckets[c];
      }
      if g in FlowsOf(buckets) {
        var c :| 0 <= c < |buckets| && g in buckets[c];
        assert g in now[c];
      }
      assert f in now[b];
    }
  }

  lemma FlowsDrop(buckets: seq<seq<Flow>>, b: nat, list: seq<Flow>, f: Flow)
    requires b < |buckets| && (forall g :: g in list <==> g != f && g in buckets[b])
    requires forall c :: 0 <= c < |buckets| && c != b ==> f !in buckets[c]
    ensures FlowsOf(buckets[b := list]) == FlowsOf(buckets) - {f}
  {
    var now := buckets[b := list];
    forall g ensures g in FlowsOf(now) <==> g in FlowsOf(buckets) - {f} {
      FlowsIn(now, g);
      FlowsIn(buckets, g);
      if g in FlowsOf(now) {
        var c :| 0 <= c < |now| && g in now[c];
        assert g in buckets[c];
      }
      if g in FlowsOf(buckets) && g != f {
        var c :| 0 <= c < |buckets| && g in buckets[c];
        assert g in now[c];
      }
    }
  }

  /** table_instance_insert. */
  method InsertFlow(h: Hashes, n: nat, seed: nat, buckets: array<seq<Flow>>, masks: Masks, f: Flow)
    requires InstanceOk(h, n, Instance(seed, buckets[..]), masks) && ListsOk(buckets[..]) && FlowOk(h, n, masks, f)
    requires f !in FlowsOf(buckets[..])
    modifies buckets
    ensures InstanceOk(h, n, Instance(seed, buckets[..]), masks) && ListsOk(buckets[..])
    ensures FlowsOf(buckets[..]) == old(FlowsOf(buckets[..])) + {f}
  {
    hide FlowOk, FlowsOf;
    ghost var was := buckets[..];
    var b := h.mix(f.hash, seed) % buckets.Length;
    assert b == BucketOf(h, Instance(seed, was), f.hash);
    FlowsIn(was, f);
    assert f !in was[b];
    FlowsUpdate(was, b, [f] + was[b], f);
    buckets[b] := [f] + buckets[b];
    assert buckets[..] == was[b := [f] + was[b]];
  }

  function Without(list: seq<Flow>, f: Flow): seq<Flow>
  {
    if list == [] then [] else if list[0] == f then list[1..] else [list[0]] + Without(list[1..], f)
  }

  ghost predicate NoTwice(list: seq<Flow>)
  {
    forall i, j :: 0 <= i < j < |list| ==> list[i] != list[j]
  }

  lemma NoTwiceCons(f: Flow, list: seq<Flow>)
    requires NoTwice(list) && f !in list
    ensures NoTwice([f] + list)
  {
  }

  lemma {:induction false} WithoutFacts(list: seq<Flow>, f: Flow)
    requires NoTwice(list)
    ensures NoTwice(Without(list, f)) && forall g :: g in Without(list, f) <==> g != f && g in list
    decreases |list|
  {
    if list != [] && list[0] != f {
      WithoutFacts(list[1..], f);
      assert list == [list[0]] + list[1..] && list[0] !in list[1..];
      NoTwiceCons(list[0], Without(list[1..], f));
    } else if list != [] {
      assert list == [list[0]] + list[1..];
    }
  }

  /** hlist_del_rcu. */
  method RemoveFlow(h: Hashes, n: nat, seed: nat, buckets: array<seq<Flow>>, masks: Masks, f: Flow)
    requires InstanceOk(h, n, Instance(seed, buckets[..]), masks) && ListsOk(buckets[..]) && f in FlowsOf(buckets[..])
    modifies buckets
    ensures InstanceOk(h, n, Instance(seed, buckets[..]), masks) && ListsOk(buckets[..])
    ensures FlowsOf(buckets[..]) == old(FlowsOf(buckets[..])) - {f}
  {
    hide FlowOk, FlowsOf;
    ghost var was := buckets[..];
    FlowsIn(was, f);
    var b := h.mix(f.hash, seed) % buckets.Length;
    assert NoTwice(was[b]);
    WithoutFacts(was[b], f);
    FlowsDrop(was, b, Without(was[b], f), f);
    buckets[b] := Without(buckets[b], f);
    assert buckets[..] == was[b := Without(was[b], f)];
  }

  /** The flows before place `i` of bucket `b`. */
  ghost function Before(buckets: seq<seq<Flow>>, b: nat, i: nat): set<Flow>
    requires b < |buckets| && i <= |buckets[b]|
  {
    FlowsOf(buckets[..b]) + set f | f in buckets[b][..i]
  }

  lemma BeforeGrows(buckets: seq<seq<Flow>>, b: nat, i: nat)
    requires b < |buckets| && i < |buckets[b]|
    ensures Before(buckets, b, i + 1) == Before(buckets, b, i) + {buckets[b][i]}
  {
    assert buckets[b][..i + 1] == buckets[b][..i] + [buckets[b][i]];
  }

  lemma BeforeEnds(buckets: seq<seq<Flow>>, b: nat)
    requires b < |buckets|
    ensures Before(buckets, b, |buckets[b]|) == FlowsOf(buckets[..b + 1]) && Before(buckets, b, 0) == FlowsOf(buckets[..b])
  {
    var now := buckets[..b + 1];
    assert buckets[b][..|buckets[b]|] == buckets[b];
    forall f ensures f in FlowsOf(now) <==> f in FlowsOf(buckets[..b]) || f in buckets[b] {
      FlowsIn(now, f);
      FlowsIn(buckets[..b], f);
      if f in FlowsOf(now) {
        var c :| 0 <= c < |now| && f in now[c];
        if c < b { assert f in buckets[..b][c]; }
      }
      if IsIn(buckets[..b], f) {
        var c :| 0 <= c < b && f in buckets[..b][c];
        assert f in now[c];
      }
      if f in buckets[b] { assert f in now[b]; }
    }
  }

  /** A flow is not before its own place. */
  lemma NotBefore(h: Hashes, n: nat, ti: Instance, masks: Masks, b: nat, i: nat)
    requires InstanceOk(h, n, ti, masks) && ListsOk(ti.buckets) && b < |ti.buckets| && i < |ti.buckets[b]|
    ensures ti.buckets[b][i] !in Before(ti.buckets, b, i) && FlowOk(h, n, masks, ti.buckets[b][i])
  {
    hide FlowOk;
    var f := ti.buckets[b][i];
    assert f in ti.buckets[b] && BucketOf(h, ti, f.hash) == b;
    if f in FlowsOf(ti.buckets[..b]) { FirstBucket(h, n, ti, masks, b, f); }
  }

  lemma FirstBucket(h: Hashes, n: nat, ti: Instance, masks: Masks, b: nat, f: Flow)
    requires InstanceOk(h, n, ti, masks) && b <= |ti.buckets| && f in FlowsOf(ti.buckets[..b])
    ensures BucketOf(h, ti, f.hash) < b
  {
    hide FlowOk;
    var c :| 0 <= c < b && f in ti.buckets[..b][c];
    assert f in ti.buckets[c];
  }

  /** flow_table_copy_flows into a new instance: the same flows, each in the bucket
      that its hash gives there. */
  method CopyFlows(h: Hashes, n: nat, ti: Instance, masks: Masks, seed: nat, size: nat) returns (now: array<seq<Flow>>)
    requires InstanceOk(h, n, ti, masks) && ListsOk(ti.buckets) && size > 0
    ensures fresh(now) && now.Length == size && InstanceOk(h, n, Instance(seed, now[..]), masks) && ListsOk(now[..])
    ensures FlowsOf(now[..]) == FlowsOf(ti.buckets)
  {
    hide FlowsOf, Before, InstanceOk, ListsOk, FlowOk;
    now := new seq<Flow>[size](_ => []);
    EmptyBuckets(h, n, seed, now[..], masks, ti.buckets);
    for b := 0 to |ti.buckets|
      invariant InstanceOk(h, n, Instance(seed, now[..]), masks) && ListsOk(now[..])
      invariant FlowsOf(now[..]) == FlowsOf(ti.buckets[..b])
    {
      BeforeEnds(ti.buckets, b);
      for i := 0 to |ti.buckets[b]|
        invariant InstanceOk(h, n, Instance(seed, now[..]), masks) && ListsOk(now[..])
        invariant FlowsOf(now[..]) == Before(ti.buckets, b, i)
      {
        NotBefore(h, n, ti, masks, b, i);
        InsertFlow(h, n, seed, now, masks, ti.buckets[b][i]);
        BeforeGrows(ti.buckets, b, i);
      }
    }
    assert ti.buckets[..|ti.buckets|] == ti.buckets;
  }

  lemma EmptyBuckets(h: Hashes, n: nat, seed: nat, now: seq<seq<Flow>>, masks: Masks, buckets: seq<seq<Flow>>)
    requires now != [] && forall b :: 0 <= b < |now| ==> now[b] == []
    ensures InstanceOk(h, n, Instance(seed, now), masks) && ListsOk(now) && FlowsOf(now) == FlowsOf(buckets[..0])
  {
    assert FlowsOf(now) == {};
    assert FlowsOf(buckets[..0]) == {};
  }

  // ---- Reference counts ----

  lemma UsingAdd(flows: set<Flow>, f: Flow, m: MaskId)
    requires f !in flows
    ensures |Using(flows + {f}, m)| == |Using(flows, m)| + if f.mask == m then 1 else 0
  {
    if f.mask == m {
      assert Using(flows + {f}, m) == Using(flows, m) + {f};
    } else {
      assert Using(flows + {f}, m) == Using(flows, m);
    }
  }

  lemma UsingDrop(flows: set<Flow>, f: Flow, m: MaskId)
    requires f in flows
    ensures |Using(flows - {f}, m)| == |Using(flows, m)| - if f.mask == m then 1 else 0
  {
    if f.mask == m {
      assert Using(flows - {f}, m) == Using(flows, m) - {f};
    } else {
      assert Using(flows - {f}, m) == Using(flows, m);
    }
  }

  lemma UsingNone(flows: set<Flow>, masks: Masks, refs: map<MaskId, nat>, m: MaskId)
    requires RefsOk(flows, masks, refs) && m !in masks
    ensures Using(flows, m) == {}
  {
  }

  /** One more flow of a mask, new or not. */
  lemma RefsAdd(flows: set<Flow>, masks: Masks, refs: map<MaskId, nat>, f: Flow, masks': Masks, refs': map<MaskId, nat>)
    requires RefsOk(flows, masks, refs) && f !in flows && masks'.Keys == masks.Keys + {f.mask}
    requires refs' == refs[f.mask := if f.mask in refs then refs[f.mask] + 1 else 1]
    ensures RefsOk(flows + {f}, masks', refs')
  {
    hide Using;
    forall m | m in masks' ensures refs'[m] == |Using(flows + {f}, m)| && refs'[m] > 0 {
      UsingAdd(flows, f, m);
      if m !in masks { UsingNone(flows, masks, refs, m); }
    }
  }

  lemma RefsDrop(flows: set<Flow>, masks: Masks, refs: map<MaskId, nat>, f: Flow)
    requires RefsOk(flows, masks, refs) && f in flows
    ensures refs[f.mask] == 1 ==> RefsOk(flows - {f}, masks - {f.mask}, refs - {f.mask})
    ensures refs[f.mask] > 1 ==> RefsOk(flows - {f}, masks, refs[f.mask := refs[f.mask] - 1])
  {
    forall m ensures |Using(flows - {f}, m)| == |Using(flows, m)| - if f.mask == m then 1 else 0 { UsingDrop(flows, f, m); }
    if refs[f.mask] == 1 {
      forall g | g in flows - {f} ensures g.mask in masks - {f.mask} {
        if g.mask == f.mask { LastUser(flows, f, g); }
      }
    }
  }

  lemma LastUser(flows: set<Flow>, f: Flow, g: Flow)
    requires f in flows && g in flows && f.mask == g.mask && f != g
    ensures |Using(flows, f.mask)| >= 2
  {
    var both := {f, g};
    assert both <= Using(flows, f.mask);
    SubsetSize(both, Using(flows, f.mask));
  }

  /** More masks, or fewer that no flow uses, keep the buckets right. */
  lemma InstanceMasks(h: Hashes, n: nat, ti: Instance, masks: Masks, masks': Masks)
    requires InstanceOk(h, n, ti, masks)
    requires forall f :: IsIn(ti.buckets, f) && f.mask in masks ==> f.mask in masks' && masks'[f.mask] == masks[f.mask]
    ensures InstanceOk(h, n, ti, masks')
  {
    hide MaskOk, Masked;
    forall b, f | 0 <= b < |ti.buckets| && f in ti.buckets[b] ensures FlowOk(h, n, masks', f) && BucketOf(h, ti, f.hash) == b {
      assert FlowOk(h, n, masks, f) && IsIn(ti.buckets, f);
    }
  }

  // ---- The table ----

  const TBL_MIN_BUCKETS: nat := 1024

  class Table {
    const n: nat                  // longs in a key
    const h: Hashes
    var seed: nat
    var buckets: array<seq<Flow>>
    var count: nat
    var maskArray: array<MaskId>
    var maskCount: nat
    var masks: Masks              // masks in use, by address
    var refs: map<MaskId, nat>    // their reference counts
    var cache: array<CacheEntry>

    ghost function Flows(): set<Flow>
      reads this, buckets
    {
      FlowsOf(buckets[..])
    }

    ghost predicate Valid()
      reads this, buckets, maskArray, cache
    {
      && InstanceOk(h, n, Instance(seed, buckets[..]), masks) && ListsOk(buckets[..]) && PowerOfTwo(buckets.Length)
      && IdsOk(Flows()) && count == |Flows()|
      && MasksOk(n, maskArray[..], maskCount, masks) && RefsOk(Flows(), masks, refs)
      && cache.Length == MC_HASH_ENTRIES
    }

    /** ovs_flow_tbl_init. */
    constructor (n: nat, h: Hashes, seed: nat)
      ensures Valid() && fresh(buckets) && fresh(maskArray) && fresh(cache) && Flows() == {} && this.n == n && this.h == h
    {
      this.n, this.h, this.seed := n, h, seed;
      count, maskCount, masks, refs := 0, 0, map[], map[];
      buckets := new seq<Flow>[TBL_MIN_BUCKETS](_ => []);
      maskArray := new MaskId[MASK_ARRAY_SIZE_MIN](_ => NULL);
      cache := new CacheEntry[MC_HASH_ENTRIES](_ => CacheEntry(0, 0));
      new;
      EmptyBuckets(h, n, seed, buckets[..], masks, []);
      assert FlowsOf([][..0]) == {};
      AllNull(maskArray[..]);
      MinIsPower();
    }

    /** ovs_flow_tbl_lookup_stats. */
    method Lookup(key: Key, recirc: nat, skbHash: nat) returns (r: Option<Flow>, hits: nat)
      requires Valid() && |key| == n
      modifies cache
      ensures Valid()
      ensures r.Some? ==> r.value in Flows() && Matches(masks, r.value, key)
      ensures r.None? ==> forall f :: f in Flows() ==> !Matches(masks, f, key)
      ensures hits <= maskCount
    {
      hide InstanceOk, ListsOk, RefsOk, IdsOk, Matches, FlowsOf, Listed;
      ghost var probed;
      var ti := Instance(seed, buckets[..]);
      r, hits, probed := LookupStats(h, n, ti, masks, maskArray[..], cache, key, recirc, skbHash);
      AnswerFlows(ti, masks, key, r);
      ProbesFit(maskArray[..], probed);
    }

    /** Replaces the instance by one with the given number of buckets. */
    method Rehash(newSeed: nat, size: nat)
      requires Valid() && PowerOfTwo(size)
      modifies this
      ensures Valid() && Flows() == old(Flows()) && fresh(buckets) && buckets.Length == size && unchanged(this`maskArray)
      ensures masks == old(masks) && refs == old(refs) && maskCount == old(maskCount) && count == old(count) && cache == old(cache)
    {
      hide InstanceOk, ListsOk, RefsOk, IdsOk, FlowsOf, MasksOk;
      PositivePower(size);
      var now := CopyFlows(h, n, Instance(seed, buckets[..]), masks, newSeed, size);
      buckets, seed := now, newSeed;
    }

    /** flow_mask_insert: the address of the flow's mask, which gets one more
        reference, or null. */
    method TakeMask(mask: Mask, m: MaskId, allocMask: bool, allocArray: bool) returns (id: MaskId)
      requires Valid() && MaskOk(mask, n) && m != NULL && m !in masks
      modifies this`maskArray, this`maskCount, this`masks, this`refs, maskArray
      ensures buckets == old(buckets) && buckets[..] == old(buckets[..]) && cache == old(cache)
      ensures maskArray == old(maskArray) || fresh(maskArray)
      ensures MasksOk(n, maskArray[..], maskCount, masks) && InstanceOk(h, n, Instance(seed, buckets[..]), masks)
      ensures id == NULL <==> (forall x :: x in old(masks) ==> old(masks)[x] != mask)
                              && !(allocMask && (old(maskCount) < old(maskArray.Length) || allocArray))
      ensures id == NULL ==> masks == old(masks) && refs == old(refs) && maskCount == old(maskCount)
      ensures id != NULL ==> id in masks && masks[id] == mask && masks == old(masks)[id := mask]
                             && refs == old(refs)[id := if id in old(refs) then old(refs)[id] + 1 else 1]
    {
      hide InstanceOk, ListsOk, IdsOk, FlowsOf, MaskOk, Listed, Using, IsIn, PowerOfTwo, NonNull;
      ghost var masks0 := masks;
      id := FindMask(n, maskArray[..], masks, mask);
      if id == NULL {
        if !allocMask { return; }
        var ok, ma, c := InsertMask(n, maskArray, maskCount, masks, m, mask, allocArray);
        if !ok { return; }
        maskArray, maskCount := ma, c;
        masks, refs := masks[m := mask], refs[m := 1];
        id := m;
        InstanceMasks(h, n, Instance(seed, buckets[..]), masks0, masks);
      } else {
        refs := refs[id := refs[id] + 1];
        assert masks == masks0[id := mask];
      }
    }

    /** ovs_flow_tbl_insert of a flow with a masked key.  `m` is the address a new
        mask would get; the flags say which allocations succeed. */
    method Insert(id: nat, key: Key, mask: Mask, m: MaskId, allocMask: bool, allocArray: bool, allocTable: bool,
                  rehashDue: bool, newSeed: nat)
      returns (ok: bool, f: Flow)
      requires Valid() && MaskOk(mask, n) && Masked(key, mask) && m != NULL && m !in masks
      requires forall g :: g in Flows() ==> g.id != id
      modifies this, maskArray, buckets
      ensures Valid()
      ensures ok <==> (exists x :: x in old(masks) && old(masks)[x] == mask)
                      || (allocMask && (old(maskCount) < old(maskArray.Length) || allocArray))
      ensures !ok ==> Flows() == old(Flows()) && masks == old(masks)
      ensures buckets.Length == if ok && |Flows()| > old(buckets.Length) && allocTable then 2 * old(buckets.Length) else old(buckets.Length)
      ensures cache == old(cache)
      ensures ok ==> Flows() == old(Flows()) + {f} && f.id == id && f.key == key && f.mask in masks && masks[f.mask] == mask
                     && masks == old(masks)[f.mask := mask]
    {
      hide InstanceOk, ListsOk, RefsOk, FlowsOf, MaskOk, MasksOk, Masked, IsIn, Using, PowerOfTwo;
      ghost var flows0, masks0, refs0 := Flows(), masks, refs;
      var taken := TakeMask(mask, m, allocMask, allocArray);
      if taken == NULL { return false, Flow(0, [], NULL, 0); }
      OkRange(mask, n);
      MaskedLength(key, mask);
      f := Flow(id, key, taken, h.ofKey(Slice(key, mask.range)));
      InsertFlow(h, n, seed, buckets, masks, f);
      RefsAdd(flows0, masks0, refs0, f, masks, refs);
      count := count + 1;
      if count > buckets.Length {
        if allocTable {
          PositivePower(buckets.Length);
          Rehash(newSeed, buckets.Length * 2);
        }
      } else if rehashDue && allocTable {
        Rehash(newSeed, buckets.Length);
      }
      ok := true;
    }

    /** flow_mask_remove: one reference less; the last takes the mask with it. */
    method DropMask(f: Flow, ghost flows: set<Flow>, allocArray: bool)
      requires MasksOk(n, maskArray[..], maskCount, masks) && RefsOk(flows, masks, refs) && f in flows
      modifies this`maskArray, this`maskCount, this`masks, this`refs, maskArray
      ensures MasksOk(n, maskArray[..], maskCount, masks) && RefsOk(flows - {f}, masks, refs)
      ensures maskArray == old(maskArray) || fresh(maskArray)
      ensures masks == if Using(flows - {f}, f.mask) == {} then old(masks) - {f.mask} else old(masks)
    {
      hide MaskOk, MasksOk, Using;
      RefsDrop(flows, masks, refs, f);
      UsingDrop(flows, f, f.mask);
      if refs[f.mask] == 1 {
        maskArray, maskCount := RemoveMask(n, maskArray, maskCount, masks, f.mask, allocArray);
        masks, refs := masks - {f.mask}, refs - {f.mask};
      } else {
        refs := refs[f.mask := refs[f.mask] - 1];
      }
    }

    /** ovs_flow_tbl_remove. */
    method Remove(f: Flow, allocArray: bool)
      requires Valid() && f in Flows()
      modifies this`count, this`maskArray, this`maskCount, this`masks, this`refs, maskArray, buckets
      ensures Valid() && Flows() == old(Flows()) - {f}
      ensures masks == if Using(Flows(), f.mask) == {} then old(masks) - {f.mask} else old(masks)
    {
      hide InstanceOk, ListsOk, FlowsOf, MasksOk, Using, RefsOk, IsIn, PowerOfTwo;
      ghost var flows, before := Flows(), masks;
      RemoveFlow(h, n, seed, buckets, masks, f);
      count := count - 1;
      DropMask(f, flows, allocArray);
      StillUsed(masks, refs, buckets[..]);
      InstanceMasks(h, n, Instance(seed, buckets[..]), before, masks);
    }
  }

  lemma AnswerFlows(ti: Instance, masks: Masks, key: Key, r: Option<Flow>)
    requires Answers(ti, masks, key, r)
    ensures r.Some? ==> r.value in FlowsOf(ti.buckets) && Matches(masks, r.value, key)
    ensures r.None? ==> forall f :: f in FlowsOf(ti.buckets) ==> !Matches(masks, f, key)
  {
    hide Matches;
    forall f ensures f in FlowsOf(ti.buckets) <==> IsIn(ti.buckets, f) { FlowsIn(ti.buckets, f); }
  }

  lemma StillUsed(masks: Masks, refs: map<MaskId, nat>, buckets: seq<seq<Flow>>)
    requires RefsOk(FlowsOf(buckets), masks, refs)
    ensures forall f :: IsIn(buckets, f) ==> f.mask in masks
  {
    forall f | IsIn(buckets, f) ensures f.mask in masks { FlowsIn(buckets, f); }
  }

  /** No more probes than masks. */
  lemma {:induction false} ProbesFit(ma: seq<MaskId>, probed: seq<MaskId>)
    requires NoRepeats(probed) && forall m :: m in probed ==> m != NULL && m in ma
    ensures |probed| <= NonNull(ma)
    decreases |probed|
  {
    if probed != [] {
      assert probed[0] in probed;
      var i :| 0 <= i < |ma| && ma[i] == probed[0];
      NonNullUpdate(ma, i, NULL);
      forall m | m in probed[1..] ensures m != NULL && m in ma[i := NULL] {
        assert m in probed && m != probed[0];
        var k :| 0 <= k < |ma| && ma[k] == m;
        assert ma[i := NULL][k] == m;
      }
      ProbesFit(ma[i := NULL], probed[1..]);
    }
  }

  lemma MinIsPower()
    ensures PowerOfTwo(TBL_MIN_BUCKETS)
  {
    assert PowerOfTwo(1) && PowerOfTwo(2) && PowerOfTwo(4) && PowerOfTwo(8) && PowerOfTwo(16) && PowerOfTwo(32);
    assert PowerOfTwo(64) && PowerOfTwo(128) && PowerOfTwo(256) && PowerOfTwo(512);
  }

  lemma PositivePower(n: nat)
    requires PowerOfTwo(n)
    ensures n > 0 && PowerOfTwo(2 * n)
  {
  }

  lemma MaskedLength(k: Key, m: Mask)
    requires Masked(k, m)
    ensures |k| == |m.key|
  {
  }
}
