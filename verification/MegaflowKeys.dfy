/** Keys and masks of the kernel flow table.  A key is a sequence of longs; a mask
    has a byte range, in whole longs, outside of which it is zero. */
module MegaflowKeys {
  const LONG: nat := 8

  type Key = seq<bv64>

  datatype Range = Range(start: nat, end: nat)
  datatype Mask = Mask(key: Key, range: Range)

  function RoundDown(x: nat): nat { x / LONG * LONG }
  function RoundUp(x: nat): nat { (x + LONG - 1) / LONG * LONG }

  /** update_range: the range after a store of `size` bytes at `offset`. */
  function UpdateRange(r: Range, offset: nat, size: nat): Range
  {
    var start, end := RoundDown(offset), RoundUp(offset + size);
    if r.start == r.end then Range(start, end)
    else Range(if r.start > start then start else r.start, if r.end < end then end else r.end)
  }

  /** A mask of `n` longs whose longs outside its range are zero. */
  ghost predicate MaskOk(m: Mask, n: nat)
  {
    && |m.key| == n && Aligned(m.range, n)
    && forall j :: 0 <= j < n && !InRange(m.range, j) ==> m.key[j] == 0
  }

  predicate InRange(r: Range, j: int) { r.start <= j * LONG < r.end }

  /** Long `j` has some of the `size` bytes at `offset`. */
  predicate Touches(offset: nat, size: nat, j: int) { j * LONG < offset + size && offset < j * LONG + LONG }

  /** `m'` is `m` after some store to those bytes of its key, and the update of
      its range that goes before the store. */
  ghost predicate Put(m: Mask, offset: nat, size: nat, m': Mask)
  {
    && |m'.key| == |m.key| && m'.range == UpdateRange(m.range, offset, size)
    && forall j :: 0 <= j < |m.key| && !Touches(offset, size, j) ==> m'.key[j] == m.key[j]
  }

  lemma Rounding(x: nat)
    ensures RoundDown(x) % LONG == 0 && RoundUp(x) % LONG == 0
    ensures RoundDown(x) <= x < RoundDown(x) + LONG && x <= RoundUp(x) < x + LONG
  {
  }

  /** A long that the store reaches is in the new range. */
  lemma TouchedInRange(r: Range, offset: nat, size: nat, j: nat)
    requires r.start <= r.end
    ensures Touches(offset, size, j) ==> InRange(UpdateRange(r, offset, size), j)
    ensures r.start % LONG == 0 && InRange(r, j) ==> InRange(UpdateRange(r, offset, size), j)
  {
    hide RoundDown, RoundUp;
    Rounding(offset);
    Rounding(offset + size);
  }

  lemma RangeStaysAligned(r: Range, n: nat, offset: nat, size: nat)
    requires Aligned(r, n) && offset + size <= n * LONG
    ensures Aligned(UpdateRange(r, offset, size), n) && r.start <= r.end && r.start % LONG == 0
  {
    hide RoundDown, RoundUp;
    Rounding(offset);
    Rounding(offset + size);
    RoundUpFits(offset + size, n);
  }

  lemma RoundUpFits(x: nat, n: nat)
    requires x <= n * LONG
    ensures RoundUp(x) <= n * LONG
  {
  }

  /** Stores keep a mask zero outside of its range. */
  lemma PutKeepsMask(m: Mask, n: nat, offset: nat, size: nat, m': Mask)
    requires MaskOk(m, n) && Put(m, offset, size, m') && offset + size <= n * LONG
    ensures MaskOk(m', n)
  {
    hide UpdateRange, InRange, Touches, Aligned;
    RangeStaysAligned(m.range, n, offset, size);
    forall j | 0 <= j < n && !InRange(m'.range, j) ensures m'.key[j] == 0 {
      TouchedInRange(m.range, offset, size, j);
    }
  }

  /** Any run of stores that starts with a zeroed mask. */
  lemma {:induction false} PutsKeepMask(n: nat, masks: seq<Mask>, stores: seq<(nat, nat)>)
    requires |masks| == |stores| + 1 && masks[0] == Mask(seq(n, _ => 0), Range(0, 0))
    requires forall k :: 0 <= k < |stores| ==>
               stores[k].0 + stores[k].1 <= n * LONG && Put(masks[k], stores[k].0, stores[k].1, masks[k + 1])
    ensures MaskOk(masks[|stores|], n)
    decreases |stores|
  {
    if stores != [] {
      var k := |stores| - 1;
      PutsKeepMask(n, masks[..k + 1], stores[..k]);
      PutKeepsMask(masks[k], n, stores[k].0, stores[k].1, masks[k + 1]);
    }
  }

  /** Some store reaches the long at that byte. */
  ghost predicate Stored(stores: seq<(nat, nat)>, byte: nat)
  {
    exists k :: 0 <= k < |stores| && Touches(stores[k].0, stores[k].1, byte / LONG)
  }

  /** The range is no wider than the stores: one of them reaches its first long, and one its
      last. */
  lemma {:induction false} PutsAreTight(n: nat, masks: seq<Mask>, stores: seq<(nat, nat)>)
    requires |masks| == |stores| + 1 && masks[0] == Mask(seq(n, _ => 0), Range(0, 0)) && stores != []
    requires forall k :: 0 <= k < |stores| ==> stores[k].1 > 0 && Put(masks[k], stores[k].0, stores[k].1, masks[k + 1])
    ensures var r := masks[|stores|].range;
            r.start < r.end && r.start % LONG == 0 && r.end % LONG == 0 && Stored(stores, r.start) && Stored(stores, r.end - LONG)
    decreases |stores|
  {
    hide UpdateRange, Touches;
    var k := |stores| - 1;
    var was, r, s := masks[k].range, masks[k + 1].range, stores[k];
    assert Put(masks[k], s.0, s.1, masks[k + 1]);
    if k > 0 {
      PutsAreTight(n, masks[..k + 1], stores[..k]);
      assert masks[..k + 1][k].range == was;
      forall byte: nat | Stored(stores[..k], byte) ensures Stored(stores, byte) {
        var i :| 0 <= i < k && Touches(stores[..k][i].0, stores[..k][i].1, byte / LONG);
        assert stores[..k][i] == stores[i];
      }
    }
    WidensTo(was, s.0, s.1);
  }

  lemma WidensTo(r: Range, offset: nat, size: nat)
    requires size > 0 && ((r.start < r.end && r.start % LONG == 0 && r.end % LONG == 0) || r == Range(0, 0))
    ensures var r' := UpdateRange(r, offset, size);
            && r'.start < r'.end && r'.start % LONG == 0 && r'.end % LONG == 0
            && (Touches(offset, size, r'.start / LONG) || (r.start < r.end && r'.start == r.start))
            && (Touches(offset, size, (r'.end - LONG) / LONG) || (r.start < r.end && r'.end == r.end))
  {
    hide RoundDown, RoundUp;
    Rounding(offset);
    Rounding(offset + size);
  }

  // ---- Masking and comparing ----

  function AndLong(a: bv64, b: bv64): bv64 { a & b }

  function And(a: Key, b: Key): (r: Key)
    requires |a| == |b|
    ensures |r| == |a| && forall j :: 0 <= j < |a| ==> r[j] == AndLong(a[j], b[j])
  {
    seq(|a|, j requires 0 <= j < |a| => AndLong(a[j], b[j]))
  }

  /** The longs of a key in a range. */
  function Slice(k: Key, r: Range): Key
    requires r.start <= r.end <= |k| * LONG
  {
    k[r.start / LONG..r.end / LONG]
  }

  ghost predicate Aligned(r: Range, n: nat)
  {
    r.start % LONG == 0 && r.end % LONG == 0 && r.start <= r.end <= n * LONG
  }

  lemma InRangeLongs(r: Range, n: nat, j: int)
    requires Aligned(r, n)
    ensures InRange(r, j) <==> r.start / LONG <= j < r.end / LONG
    ensures r.start / LONG <= r.end / LONG <= n
  {
  }

  /** ovs_flow_mask_key: masks the longs in the mask's range, or all of them. */
  method MaskKey(dst: array<bv64>, src: Key, full: bool, m: Mask)
    requires MaskOk(m, dst.Length) && |src| == dst.Length
    modifies dst
    ensures forall j :: 0 <= j < dst.Length && (full || InRange(m.range, j)) ==> dst[j] == AndLong(src[j], m.key[j])
    ensures forall j :: 0 <= j < dst.Length && !full && !InRange(m.range, j) ==> dst[j] == old(dst[j])
  {
    hide AndLong;
    var first, last := if full then 0 else m.range.start / LONG, if full then dst.Length else m.range.end / LONG;
    InRangeLongs(m.range, dst.Length, 0);
    MaskLongs(dst, src, m.key, first, last);
    forall j | 0 <= j < dst.Length ensures InRange(m.range, j) <==> m.range.start / LONG <= j < m.range.end / LONG {
      InRangeLongs(m.range, dst.Length, j);
    }
  }

  method MaskLongs(dst: array<bv64>, src: Key, mask: Key, first: nat, last: nat)
    requires first <= last <= dst.Length == |src| == |mask|
    modifies dst
    ensures forall j :: first <= j < last ==> dst[j] == AndLong(src[j], mask[j])
    ensures forall j :: 0 <= j < dst.Length && !(first <= j < last) ==> dst[j] == old(dst[j])
  {
    hide AndLong;
    var i := first;
    while i < last
      invariant first <= i <= last
      invariant forall j :: first <= j < i ==> dst[j] == AndLong(src[j], mask[j])
      invariant forall j :: 0 <= j < dst.Length && !(first <= j < i) ==> dst[j] == old(dst[j])
    {
      dst[i] := AndLong(src[i], mask[i]);
      i := i + 1;
    }
  }

  /** Collects the bits in which longs differ. */
  function Collect(d: bv64, a: bv64, b: bv64): bv64 { d | (a ^ b) }

  lemma NoDifference(d: bv64, a: bv64, b: bv64)
    ensures Collect(d, a, b) == 0 <==> d == 0 && a == b
  {
    XorZero(a, b);
    OrZero(d, a ^ b);
  }

  lemma XorZero(a: bv64, b: bv64)
    ensures a ^ b == 0 <==> a == b
  {
    if a ^ b == 0 {
      assert a == (a ^ b) ^ b;
    }
  }

  lemma OrZero(a: bv64, b: bv64)
    ensures a | b == 0 <==> a == 0 && b == 0
  {
    if a | b == 0 {
      assert a == (a | b) & a && b == (a | b) & b;
    }
  }

  ghost predicate SameLongs(a: Key, b: Key, lo: nat, hi: nat)
    requires lo <= hi <= |a| == |b|
  {
    forall j :: lo <= j < hi ==> a[j] == b[j]
  }

  lemma SameNone(a: Key, b: Key, lo: nat)
    requires lo <= |a| == |b|
    ensures SameLongs(a, b, lo, lo)
  {
  }

  lemma SameMore(a: Key, b: Key, lo: nat, i: nat, i': nat)
    requires lo <= i < |a| == |b| && i' == i + 1
    ensures SameLongs(a, b, lo, i') <==> SameLongs(a, b, lo, i) && a[i] == b[i]
  {
  }

  lemma SameSlices(a: Key, b: Key, lo: nat, hi: nat)
    requires lo <= hi <= |a| == |b|
    ensures SameLongs(a, b, lo, hi) <==> a[lo..hi] == b[lo..hi]
  {
    if a[lo..hi] == b[lo..hi] {
      forall j | lo <= j < hi ensures a[j] == b[j] { assert a[lo..hi][j - lo] == b[lo..hi][j - lo]; }
    }
  }

  /** cmp_key: whether the longs in the range are equal. */
  method CmpKey(a: Key, b: Key, r: Range) returns (same: bool)
    requires |a| == |b| && Aligned(r, |a|)
    ensures same == (Slice(a, r) == Slice(b, r))
  {
    hide Collect, SameLongs, InRange;
    var diffs: bv64 := 0;
    var lo, hi := r.start / LONG, r.end / LONG;
    InRangeLongs(r, |a|, 0);
    var i := lo;
    SameNone(a, b, lo);
    while i < hi
      invariant lo <= i <= hi && (diffs == 0 <==> SameLongs(a, b, lo, i))
    {
      NoDifference(diffs, a[i], b[i]);
      SameMore(a, b, lo, i, i + 1);
      diffs := Collect(diffs, a[i], b[i]);
      i := i + 1;
    }
    SameSlices(a, b, lo, hi);
    same := diffs == 0;
  }

  /** `k` is what remains of some key under the mask. */
  ghost predicate Masked(k: Key, m: Mask)
  {
    |k| == |m.key| && And(k, m.key) == k
  }

  lemma AndZero(a: bv64)
    ensures AndLong(a, 0) == 0
  {
  }

  /** Equality in the range is equality of the whole masked keys. */
  lemma RangeIsFull(key: Key, k: Key, m: Mask, n: nat)
    requires MaskOk(m, n) && |key| == n && Masked(k, m)
    ensures Slice(And(key, m.key), m.range) == Slice(k, m.range) <==> And(key, m.key) == k
  {
    hide AndLong, And;
    var a, r := And(key, m.key), m.range;
    if Slice(a, r) == Slice(k, r) {
      forall j | 0 <= j < n ensures a[j] == k[j] {
        if InRange(r, j) {
          assert Slice(a, r)[j - r.start / LONG] == a[j] && Slice(k, r)[j - r.start / LONG] == k[j];
        } else {
          AndZero(key[j]);
          AndZero(k[j]);
          assert And(k, m.key)[j] == AndLong(k[j], m.key[j]);
        }
      }
    }
  }
}
