/** Lookup in the kernel flow table: one masked hash probe for each mask, with a
    per-CPU cache that guesses which mask to probe first. */
module MegaflowLookup {
  import opened Basics
  import opened MegaflowKeys

  type MaskId = nat

  const NULL: nat := 0

  datatype Flow = Flow(id: nat, key: Key, mask: MaskId, hash: nat)

  /** The hash over the longs of a key, and the one that mixes in a second word. */
  datatype Hashes = Hashes(ofKey: Key -> nat, mix: (nat, nat) -> nat)

  /** A table instance: hash buckets under a seed. */
  datatype Instance = Instance(seed: nat, buckets: seq<seq<Flow>>)

  /** find_bucket; the number of buckets is a power of two. */
  function BucketOf(h: Hashes, ti: Instance, hash: nat): (b: nat)
    requires ti.buckets != []
    ensures b < |ti.buckets|
  {
    h.mix(hash, ti.seed) % |ti.buckets|
  }

  ghost predicate IsIn(buckets: seq<seq<Flow>>, f: Flow)
  {
    exists b :: 0 <= b < |buckets| && f in buckets[b]
  }

  ghost predicate FlowOk(h: Hashes, n: nat, masks: map<MaskId, Mask>, f: Flow)
  {
    && f.mask in masks && MaskOk(masks[f.mask], n) && Masked(f.key, masks[f.mask])
    && f.hash == h.ofKey(Slice(f.key, masks[f.mask].range))
  }

  /** Every flow is in the bucket that its hash gives. */
  ghost predicate InstanceOk(h: Hashes, n: nat, ti: Instance, masks: map<MaskId, Mask>)
  {
    && ti.buckets != []
    && forall b, f :: 0 <= b < |ti.buckets| && f in ti.buckets[b] ==> FlowOk(h, n, masks, f) && BucketOf(h, ti, f.hash) == b
  }

  /** The key under the flow's mask is the flow's key, over all longs. */
  ghost predicate Matches(masks: map<MaskId, Mask>, f: Flow, key: Key)
  {
    f.mask in masks && |key| == |masks[f.mask].key| && And(key, masks[f.mask].key) == f.key
  }

  ghost predicate MatchWith(ti: Instance, masks: map<MaskId, Mask>, key: Key, m: MaskId, f: Flow)
  {
    IsIn(ti.buckets, f) && f.mask == m && Matches(masks, f, key)
  }

  /** A matching flow is in the bucket the masked key hashes to, and passes the
      comparison in the range; and only matching flows do. */
  lemma ProbeIsExact(h: Hashes, n: nat, ti: Instance, masks: map<MaskId, Mask>, key: Key, f: Flow, masked: Key)
    requires InstanceOk(h, n, ti, masks) && |key| == n && IsIn(ti.buckets, f) && |masked| == n
    requires f.mask in masks && Slice(masked, masks[f.mask].range) == Slice(And(key, masks[f.mask].key), masks[f.mask].range)
    ensures var hash := h.ofKey(Slice(masked, masks[f.mask].range));
            Matches(masks, f, key) <==> f.hash == hash && Slice(f.key, masks[f.mask].range) == Slice(masked, masks[f.mask].range)
    ensures Matches(masks, f, key) ==> f in ti.buckets[BucketOf(h, ti, h.ofKey(Slice(masked, masks[f.mask].range)))]
  {
    hide And, Masked;
    var b :| 0 <= b < |ti.buckets| && f in ti.buckets[b];
    assert FlowOk(h, n, masks, f);
    RangeIsFull(key, f.key, masks[f.mask], n);
  }

  /** masked_flow_lookup: the flow of one mask that matches the key. */
  method MaskedFlowLookup(h: Hashes, n: nat, ti: Instance, masks: map<MaskId, Mask>, key: Key, m: MaskId) returns (r: Option<Flow>)
    requires InstanceOk(h, n, ti, masks) && |key| == n && m in masks && MaskOk(masks[m], n)
    ensures r.None? ==> forall f :: !MatchWith(ti, masks, key, m, f)
    ensures r.Some? ==> MatchWith(ti, masks, key, m, r.value)
  {
    var mask := masks[m];
    var dst := new bv64[n];
    MaskKey(dst, key, false, mask);
    var masked := dst[..];
    SameMaskedSlice(masked, key, mask, n);
    var hash := h.ofKey(Slice(masked, mask.range));
    var head := ti.buckets[BucketOf(h, ti, hash)];
    r := Probe(h, n, ti, masks, key, m, masked, hash, head);
  }

  lemma SameMaskedSlice(masked: Key, key: Key, mask: Mask, n: nat)
    requires MaskOk(mask, n) && |key| == |masked| == n
    requires forall j :: 0 <= j < n && InRange(mask.range, j) ==> masked[j] == AndLong(key[j], mask.key[j])
    ensures Slice(masked, mask.range) == Slice(And(key, mask.key), mask.range)
  {
    hide AndLong;
    var lo, hi := mask.range.start / LONG, mask.range.end / LONG;
    InRangeLongs(mask.range, n, 0);
    forall j | lo <= j < hi ensures masked[j] == And(key, mask.key)[j] { InRangeLongs(mask.range, n, j); }
    SameSlices(masked, And(key, mask.key), lo, hi);
  }

  /** Walks one bucket's list. */
  method Probe(h: Hashes, n: nat, ti: Instance, masks: map<MaskId, Mask>, key: Key, m: MaskId, masked: Key, hash: nat, head: seq<Flow>)
    returns (r: Option<Flow>)
    requires InstanceOk(h, n, ti, masks) && |key| == n && m in masks && MaskOk(masks[m], n) && |masked| == n
    requires Slice(masked, masks[m].range) == Slice(And(key, masks[m].key), masks[m].range)
    requires hash == h.ofKey(Slice(masked, masks[m].range)) && head == ti.buckets[BucketOf(h, ti, hash)]
    ensures r.None? ==> forall f :: !MatchWith(ti, masks, key, m, f)
    ensures r.Some? ==> MatchWith(ti, masks, key, m, r.value)
  {
    hide And, Masked, MaskOk, Matches;
    var i := 0;
    while i < |head|
      invariant i <= |head| && forall j :: 0 <= j < i ==> !(head[j].mask == m && Matches(masks, head[j], key))
    {
      var f := head[i];
      assert IsIn(ti.buckets, f) && FlowOk(h, n, masks, f);
      if f.mask == m {
        ProbeIsExact(h, n, ti, masks, key, f, masked);
        RangeAligned(masks[m], n);
        KeyLength(h, n, masks, f);
        var same := CmpKey(f.key, masked, masks[m].range);
        if f.hash == hash && same { return Some(f); }
      }
      i := i + 1;
    }
    forall f ensures !MatchWith(ti, masks, key, m, f) {
      if IsIn(ti.buckets, f) && f.mask == m { ProbeIsExact(h, n, ti, masks, key, f, masked); }
    }
    r := None;
  }

  lemma RangeAligned(m: Mask, n: nat)
    requires MaskOk(m, n)
    ensures Aligned(m.range, n)
  {
  }

  lemma KeyLength(h: Hashes, n: nat, masks: map<MaskId, Mask>, f: Flow)
    requires FlowOk(h, n, masks, f)
    ensures |f.key| == n
  {
  }

  // ---- All masks ----

  /** The array lists every mask once. */
  ghost predicate Listed(ma: seq<MaskId>, masks: map<MaskId, Mask>, n: nat)
  {
    && NULL !in masks
    && (forall i :: 0 <= i < |ma| ==> ma[i] == NULL || ma[i] in masks)
    && (forall m :: m in masks ==> m in ma && MaskOk(masks[m], n))
    && (forall i, j :: 0 <= i < j < |ma| && ma[i] != NULL ==> ma[i] != ma[j])
  }

  /** The answer is a matching flow, or there is none. */
  ghost predicate Answers(ti: Instance, masks: map<MaskId, Mask>, key: Key, r: Option<Flow>)
  {
    match r
    case None => forall f :: !(IsIn(ti.buckets, f) && Matches(masks, f, key))
    case Some(f) => IsIn(ti.buckets, f) && Matches(masks, f, key)
  }

  ghost predicate NoRepeats(s: seq<MaskId>)
  {
    forall i, j :: 0 <= i < j < |s| ==> s[i] != s[j]
  }

  /** Masks probed without success. */
  ghost predicate Missed(ti: Instance, masks: map<MaskId, Mask>, key: Key, probed: seq<MaskId>)
  {
    forall i, f :: 0 <= i < |probed| ==> !MatchWith(ti, masks, key, probed[i], f)
  }

  /** Some flow of the mask at place `index` matches. */
  ghost predicate HitAt(ti: Instance, masks: map<MaskId, Mask>, ma: seq<MaskId>, key: Key, index: nat)
  {
    index < |ma| && exists f :: MatchWith(ti, masks, key, ma[index], f)
  }

  /** flow_lookup: all masks, the one at `index` first. */
  method FlowLookup(h: Hashes, n: nat, ti: Instance, masks: map<MaskId, Mask>, ma: seq<MaskId>, key: Key, index: nat)
    returns (r: Option<Flow>, index': nat, hits: nat, ghost probed: seq<MaskId>)
    requires InstanceOk(h, n, ti, masks) && Listed(ma, masks, n) && |key| == n
    ensures Answers(ti, masks, key, r) && hits == |probed| && NoRepeats(probed) && forall m :: m in probed ==> m != NULL && m in ma
    ensures r.None? ==> index' == index
    ensures r.Some? ==> index' < |ma| && ma[index'] == r.value.mask
    ensures HitAt(ti, masks, ma, key, index) ==> hits == 1
  {
    hide InstanceOk, Matches, MaskOk;
    probed, index', hits, r := [], index, 0, None;
    if index < |ma| && ma[index] != NULL {
      r := MaskedFlowLookup(h, n, ti, masks, key, ma[index]);
      hits, probed := 1, [ma[index]];
      if r.Some? { return; }
    }
    ghost var first := probed;
    var i := 0;
    while i < |ma|
      invariant i <= |ma| && r.None? && hits == |probed| && NoRepeats(probed) && Missed(ti, masks, key, probed)
      invariant forall m :: m in first ==> m in probed
      invariant forall m :: m in probed ==> m != NULL && m in ma
      invariant forall k :: 0 <= k < i && ma[k] != NULL ==> ma[k] in probed
      invariant forall m :: m in probed ==> m in first || exists k :: 0 <= k < i && ma[k] == m && k != index
      invariant HitAt(ti, masks, ma, key, index) ==> ma[index] == NULL
    {
      if i != index && ma[i] != NULL {
        r := MaskedFlowLookup(h, n, ti, masks, key, ma[i]);
        assert ma[i] !in probed;
        hits, probed := hits + 1, probed + [ma[i]];
        if r.Some? {
          NullMatchesNothing(ti, masks, ma, n, key, index);
          return r, i, hits, probed;
        }
      }
      i := i + 1;
    }
    NullMatchesNothing(ti, masks, ma, n, key, index);
    NothingMatches(h, n, ti, masks, ma, key, probed);
  }

  lemma NullMatchesNothing(ti: Instance, masks: map<MaskId, Mask>, ma: seq<MaskId>, n: nat, key: Key, index: nat)
    requires Listed(ma, masks, n)
    ensures index < |ma| && ma[index] == NULL ==> !HitAt(ti, masks, ma, key, index)
  {
  }

  lemma NothingMatches(h: Hashes, n: nat, ti: Instance, masks: map<MaskId, Mask>, ma: seq<MaskId>, key: Key, probed: seq<MaskId>)
    requires InstanceOk(h, n, ti, masks) && Listed(ma, masks, n) && Missed(ti, masks, key, probed)
    requires forall k :: 0 <= k < |ma| && ma[k] != NULL ==> ma[k] in probed
    ensures Answers(ti, masks, key, None)
  {
    hide MaskOk, Masked, And;
    forall f | IsIn(ti.buckets, f) ensures !Matches(masks, f, key) {
      assert f.mask in masks by {
        var b :| 0 <= b < |ti.buckets| && f in ti.buckets[b];
        assert FlowOk(h, n, masks, f);
      }
      var k :| 0 <= k < |ma| && ma[k] == f.mask;
      var i :| 0 <= i < |probed| && probed[i] == f.mask;
      assert !MatchWith(ti, masks, key, probed[i], f);
    }
  }

  // ---- The mask cache ----

  const MC_HASH_ENTRIES := 256
  const MC_HASH_SEGS := 4

  datatype CacheEntry = CacheEntry(skbHash: nat, maskIndex: nat)

  /** The first of the entries for `hash`, from segment `seg` on, that has hash
      `want`. */
  function HitFrom(cache: seq<CacheEntry>, want: nat, hash: nat, seg: nat): (r: Option<nat>)
    requires |cache| == MC_HASH_ENTRIES
    ensures r.Some? ==> r.value < |cache| && cache[r.value].skbHash == want
    decreases MC_HASH_SEGS - seg
  {
    if seg >= MC_HASH_SEGS then None
    else if cache[hash % MC_HASH_ENTRIES].skbHash == want then Some(hash % MC_HASH_ENTRIES)
    else HitFrom(cache, want, hash / MC_HASH_ENTRIES, seg + 1)
  }

  /** Entry `i` is one of those for `hash`, from segment `seg` on. */
  predicate Visits(hash: nat, seg: nat, i: nat)
    decreases MC_HASH_SEGS - seg
  {
    seg < MC_HASH_SEGS && (i == hash % MC_HASH_ENTRIES || Visits(hash / MC_HASH_ENTRIES, seg + 1, i))
  }

  /** The cache leads to mask `m` at once. */
  ghost predicate Hot(cache: seq<CacheEntry>, want: nat, ma: seq<MaskId>, m: MaskId)
    requires |cache| == MC_HASH_ENTRIES
  {
    var hit := HitFrom(cache, want, want, 0);
    hit.Some? && cache[hit.value].maskIndex < |ma| && ma[cache[hit.value].maskIndex] == m
  }

  /** An entry that takes the hash after a miss is then the first hit. */
  lemma {:induction false} MissThenHit(cache: seq<CacheEntry>, want: nat, hash: nat, seg: nat, i: nat, e: CacheEntry)
    requires |cache| == MC_HASH_ENTRIES && HitFrom(cache, want, hash, seg).None? && Visits(hash, seg, i)
    requires i < |cache| && e.skbHash == want
    ensures HitFrom(cache[i := e], want, hash, seg) == Some(i)
    decreases MC_HASH_SEGS - seg
  {
    if i != hash % MC_HASH_ENTRIES { MissThenHit(cache, want, hash / MC_HASH_ENTRIES, seg + 1, i, e); }
  }

  /** Changing the mask index of the first hit leaves it the first hit. */
  lemma {:induction false} HitStays(cache: seq<CacheEntry>, want: nat, hash: nat, seg: nat, i: nat, e: CacheEntry)
    requires |cache| == MC_HASH_ENTRIES && HitFrom(cache, want, hash, seg) == Some(i) && e.skbHash == want
    ensures HitFrom(cache[i := e], want, hash, seg) == Some(i)
    decreases MC_HASH_SEGS - seg
  {
    if i != hash % MC_HASH_ENTRIES { HitStays(cache, want, hash / MC_HASH_ENTRIES, seg + 1, i, e); }
  }

  /** The segment loop: the first hit, or else the candidate with the lowest hash
      of those visited. */
  method FindEntry(cache: seq<CacheEntry>, want: nat) returns (hit: Option<nat>, ce: nat)
    requires |cache| == MC_HASH_ENTRIES
    ensures hit == HitFrom(cache, want, want, 0) && ce < |cache| && (hit.None? ==> Visits(want, 0, ce))
    ensures hit.None? ==> forall i :: 0 <= i < |cache| && Visits(want, 0, i) ==> cache[ce].skbHash <= cache[i].skbHash
  {
    var hash: nat, seg: nat := want, 0;
    ce := 0;
    while seg < MC_HASH_SEGS
      invariant seg <= MC_HASH_SEGS && ce < |cache| && HitFrom(cache, want, hash, seg) == HitFrom(cache, want, want, 0)
      invariant forall i :: Visits(hash, seg, i) ==> Visits(want, 0, i)
      invariant forall i :: 0 <= i < |cache| && Visits(want, 0, i) && !Visits(hash, seg, i) ==> seg > 0 && cache[ce].skbHash <= cache[i].skbHash
      invariant seg > 0 ==> Visits(want, 0, ce)
    {
      var index := hash % MC_HASH_ENTRIES;
      if cache[index].skbHash == want { return Some(index), ce; }
      assert Visits(hash, seg, index);
      if seg == 0 || cache[index].skbHash < cache[ce].skbHash {
        ce := index;
      }
      hash, seg := hash / MC_HASH_ENTRIES, seg + 1;
    }
    hit := None;
  }

  /** The hash the cache goes by: packets that come round again have another. */
  function CacheHash(h: Hashes, skbHash: nat, recirc: nat): nat
  {
    if recirc != 0 then h.mix(skbHash, recirc) else skbHash
  }

  /** What a lookup does to the cache: an entry that had the hash and did not help is
      cleared; one that helped, or else the entry with the lowest hash of those for this
      hash, now leads to the mask of the flow found; and every other entry stays. */
  ghost predicate CacheAfter(was: seq<CacheEntry>, now: seq<CacheEntry>, want: nat, ma: seq<MaskId>, r: Option<Flow>)
    requires |was| == |now| == MC_HASH_ENTRIES
  {
    var hit := HitFrom(was, want, want, 0);
    if r.None? then
      now == if hit.Some? then was[hit.value := CacheEntry(0, was[hit.value].maskIndex)] else was
    else
      exists e: nat, index: nat :: e < |was| && Leads(was, now, want, ma, r.value, e, index)
        && (if hit.Some? then e == hit.value else Visits(want, 0, e) && LowestOf(was, want, e))
  }

  /** Entry `e` is now for the hash, and leads to the mask of the flow. */
  ghost predicate Leads(was: seq<CacheEntry>, now: seq<CacheEntry>, want: nat, ma: seq<MaskId>, f: Flow, e: nat, index: nat)
    requires e < |was|
  {
    index < |ma| && ma[index] == f.mask && now == was[e := CacheEntry(want, index)]
  }

  ghost predicate LowestOf(cache: seq<CacheEntry>, want: nat, e: nat)
    requires e < |cache|
  {
    forall i :: 0 <= i < |cache| && Visits(want, 0, i) ==> cache[e].skbHash <= cache[i].skbHash
  }

  /** ovs_flow_tbl_lookup_stats.  Whatever is in the cache, the answer is right; a
      successful lookup leaves the cache hot for its mask, and a hot cache saves
      all probes but one. */
  method LookupStats(h: Hashes, n: nat, ti: Instance, masks: map<MaskId, Mask>, ma: seq<MaskId>, cache: array<CacheEntry>,
                     key: Key, recirc: nat, skbHash: nat)
    returns (r: Option<Flow>, hits: nat, ghost probed: seq<MaskId>)
    requires InstanceOk(h, n, ti, masks) && Listed(ma, masks, n) && |key| == n && cache.Length == MC_HASH_ENTRIES
    modifies cache
    ensures Answers(ti, masks, key, r) && hits == |probed| && NoRepeats(probed) && forall m :: m in probed ==> m != NULL && m in ma
    ensures if skbHash == 0 then cache[..] == old(cache[..]) else CacheAfter(old(cache[..]), cache[..], CacheHash(h, skbHash, recirc), ma, r)
    ensures skbHash != 0 && r.Some? ==> Hot(cache[..], CacheHash(h, skbHash, recirc), ma, r.value.mask)
    ensures forall m, f :: skbHash != 0 && old(Hot(cache[..], CacheHash(h, skbHash, recirc), ma, m)) && MatchWith(ti, masks, key, m, f) ==> hits == 1
  {
    hide InstanceOk, Listed, Answers, NoRepeats, HitFrom, Visits, Matches, IsIn;
    if skbHash == 0 {
      var index';
      r, index', hits, probed := FlowLookup(h, n, ti, masks, ma, key, 0);
      return;
    }
    var want := CacheHash(h, skbHash, recirc);
    var hit, ce := FindEntry(cache[..], want);
    var e := if hit.Some? then hit.value else ce;
    var index';
    r, index', hits, probed := FlowLookup(h, n, ti, masks, ma, key, cache[e].maskIndex);
    ghost var was := cache[..];
    forall m, f | Hot(was, want, ma, m) && MatchWith(ti, masks, key, m, f) ensures hits == 1 {
      assert HitAt(ti, masks, ma, key, was[e].maskIndex);
    }
    if r.Some? {
      if hit.Some? {
        HitStays(was, want, want, 0, e, CacheEntry(want, index'));
      } else {
        MissThenHit(was, want, want, 0, e, CacheEntry(want, index'));
      }
      cache[e] := CacheEntry(want, index');
      assert Leads(was, cache[..], want, ma, r.value, e, index');
    } else if hit.Some? {
      cache[e] := CacheEntry(0, cache[e].maskIndex);
      assert cache[..] == was[e := CacheEntry(0, was[e].maskIndex)];
    }
  }

  /** Repeating a successful lookup on an unchanged table probes one mask. */
  method LookupAgain(h: Hashes, n: nat, ti: Instance, masks: map<MaskId, Mask>, ma: seq<MaskId>, cache: array<CacheEntry>,
                     key: Key, recirc: nat, skbHash: nat)
    returns (r: Option<Flow>, again: Option<Flow>, hits: nat)
    requires InstanceOk(h, n, ti, masks) && Listed(ma, masks, n) && |key| == n && cache.Length == MC_HASH_ENTRIES && skbHash != 0
    modifies cache
    ensures Answers(ti, masks, key, r) && Answers(ti, masks, key, again) && (r.Some? ==> hits == 1)
  {
    hide InstanceOk, Listed, Hot, Matches, IsIn;
    ghost var probed;
    r, hits, probed := LookupStats(h, n, ti, masks, ma, cache, key, recirc, skbHash);
    if r.Some? { assert MatchWith(ti, masks, key, r.value.mask, r.value); }
    again, hits, probed := LookupStats(h, n, ti, masks, ma, cache, key, recirc, skbHash);
  }

  /** Where at most one flow matches, the answer is that flow. */
  lemma AnswerIsUnique(ti: Instance, masks: map<MaskId, Mask>, key: Key, r: Option<Flow>, f: Flow)
    requires Answers(ti, masks, key, r) && IsIn(ti.buckets, f) && Matches(masks, f, key)
    requires forall g :: IsIn(ti.buckets, g) && Matches(masks, g, key) ==> g == f
    ensures r == Some(f)
  {
  }
}
