/** The array of masks of the kernel flow table: slots are freed in place, and the
    array is compacted when it grows or shrinks. */
module MaskArray {
  import opened MegaflowLookup

  const MASK_ARRAY_SIZE_MIN: nat := 16

  /** The number of entries that are not null. */
  function NonNull(ma: seq<MaskId>): (n: nat)
    ensures n <= |ma|
  {
    if ma == [] then 0 else NonNull(ma[..|ma| - 1]) + if ma[|ma| - 1] == NULL then 0 else 1
  }

  lemma {:induction false} NonNullUpdate(ma: seq<MaskId>, i: nat, m: MaskId)
    requires i < |ma|
    ensures NonNull(ma[i := m]) == NonNull(ma) - (if ma[i] == NULL then 0 else 1) + (if m == NULL then 0 else 1)
    decreases |ma|
  {
    var n := |ma| - 1;
    if i < n {
      NonNullUpdate(ma[..n], i, m);
      assert ma[i := m][..n] == ma[..n][i := m];
    } else {
      assert ma[i := m][..n] == ma[..n];
    }
  }

  /** An array that is not full has a null entry. */
  lemma {:induction false} RoomLeft(ma: seq<MaskId>)
    requires NonNull(ma) < |ma|
    ensures exists i :: 0 <= i < |ma| && ma[i] == NULL
    decreases |ma|
  {
    var n := |ma| - 1;
    if ma[n] != NULL {
      RoomLeft(ma[..n]);
      var i :| 0 <= i < n && ma[..n][i] == NULL;
      assert ma[i] == NULL;
    }
  }

  /** `b` has the masks of `a`, each once if they are in `a`. */
  ghost predicate SameMasks(a: seq<MaskId>, b: seq<MaskId>)
  {
    forall m :: m != NULL ==> (m in a <==> m in b)
  }

  ghost predicate Once(ma: seq<MaskId>)
  {
    forall i, j :: 0 <= i < j < |ma| && ma[i] != NULL ==> ma[i] != ma[j]
  }

  lemma {:induction false} AllNull(ma: seq<MaskId>)
    requires forall i :: 0 <= i < |ma| ==> ma[i] == NULL
    ensures NonNull(ma) == 0
    decreases |ma|
  {
    if ma != [] { AllNull(ma[..|ma| - 1]); }
  }

  lemma NonNullGrows(ma: seq<MaskId>, i: nat)
    requires i < |ma|
    ensures NonNull(ma[..i + 1]) == NonNull(ma[..i]) + if ma[i] == NULL then 0 else 1
  {
    assert ma[..i + 1][..i] == ma[..i];
  }

  lemma {:induction false} NonNullMonotone(ma: seq<MaskId>, i: nat)
    requires i <= |ma|
    ensures NonNull(ma[..i]) <= NonNull(ma)
    decreases |ma| - i
  {
    if i < |ma| {
      NonNullGrows(ma, i);
      NonNullMonotone(ma, i + 1);
    } else {
      assert ma[..i] == ma;
    }
  }

  /** The entries that are not null, in order. */
  function Compact(ma: seq<MaskId>): (r: seq<MaskId>)
    ensures |r| == NonNull(ma) && NULL !in r
  {
    if ma == [] then [] else Compact(ma[..|ma| - 1]) + if ma[|ma| - 1] == NULL then [] else [ma[|ma| - 1]]
  }

  lemma {:induction false} CompactMember(ma: seq<MaskId>, m: MaskId)
    requires m != NULL
    ensures m in Compact(ma) <==> m in ma
    decreases |ma|
  {
    if ma != [] {
      CompactMember(ma[..|ma| - 1], m);
      assert ma == ma[..|ma| - 1] + [ma[|ma| - 1]];
    }
  }

  lemma {:induction false} CompactOnce(ma: seq<MaskId>)
    requires Once(ma)
    ensures Once(Compact(ma))
    decreases |ma|
  {
    if ma != [] {
      var n := |ma| - 1;
      CompactOnce(ma[..n]);
      if ma[n] != NULL { CompactMember(ma[..n], ma[n]); }
    }
  }

  /** Masks first, then nulls. */
  ghost predicate Packed(now: seq<MaskId>, s: seq<MaskId>)
  {
    && |s| <= |now| && NULL !in s && (forall k :: 0 <= k < |s| ==> now[k] == s[k])
    && (forall k :: |s| <= k < |now| ==> now[k] == NULL)
  }

  lemma {:induction false} PackedCount(now: seq<MaskId>, s: seq<MaskId>)
    requires Packed(now, s)
    ensures NonNull(now) == |s|
    decreases |now|
  {
    if now != [] {
      var n := |now| - 1;
      if |s| == |now| {
        assert s[n] in s;
        PackedCount(now[..n], s[..n]);
      } else {
        PackedCount(now[..n], s);
      }
    }
  }

  lemma PackedMasks(now: seq<MaskId>, ma: seq<MaskId>)
    requires Packed(now, Compact(ma)) && Once(ma)
    ensures SameMasks(ma, now) && Once(now)
  {
    var s := Compact(ma);
    CompactOnce(ma);
    forall m | m != NULL ensures m in ma <==> m in now {
      CompactMember(ma, m);
      if m in s { var k :| 0 <= k < |s| && s[k] == m; assert now[k] == m; }
      if m in now { var k :| 0 <= k < |now| && now[k] == m; assert s[k] == m; }
    }
  }

  /** tbl_mask_array_realloc: a compacted copy of at least `size` entries.  The
      masks always fit. */
  method Realloc(was: array<MaskId>, size: nat) returns (now: array<MaskId>, count: nat)
    requires NonNull(was[..]) <= size && Once(was[..])
    ensures fresh(now) && now.Length == if size < MASK_ARRAY_SIZE_MIN then MASK_ARRAY_SIZE_MIN else size
    ensures count == NonNull(was[..]) == NonNull(now[..]) && Packed(now[..], Compact(was[..]))
    ensures SameMasks(was[..], now[..]) && Once(now[..])
  {
    hide Once, SameMasks, Packed, Compact, NonNull;
    now := new MaskId[if size < MASK_ARRAY_SIZE_MIN then MASK_ARRAY_SIZE_MIN else size](_ => NULL);
    count := 0;
    NothingPacked(now[..], was[..0]);
    var i := 0;
    while i < was.Length
      invariant i <= was.Length && count == NonNull(was[..i]) && Packed(now[..], Compact(was[..i]))
    {
      CompactGrows(was[..], i);
      assert was[..][..i + 1] == was[..i + 1] && was[..][..i] == was[..i];
      NonNullMonotone(was[..], i + 1);
      if was[i] != NULL {
        ghost var before := now[..];
        PackedMore(before, Compact(was[..i]), was[i]);
        now[count] := was[i];
        assert now[..] == before[count := was[i]];
        count := count + 1;
      }
      i := i + 1;
    }
    assert was[..i] == was[..];
    PackedCount(now[..], Compact(was[..]));
    PackedMasks(now[..], was[..]);
  }

  lemma NothingPacked(now: seq<MaskId>, s: seq<MaskId>)
    requires s == [] && forall k :: 0 <= k < |now| ==> now[k] == NULL
    ensures NonNull(s) == 0 && Packed(now, Compact(s))
  {
  }

  lemma PackedMore(now: seq<MaskId>, s: seq<MaskId>, m: MaskId)
    requires Packed(now, s) && |s| < |now| && m != NULL
    ensures Packed(now[|s| := m], s + [m])
  {
  }

  lemma CompactGrows(ma: seq<MaskId>, i: nat)
    requires i < |ma|
    ensures Compact(ma[..i + 1]) == if ma[i] == NULL then Compact(ma[..i]) else Compact(ma[..i]) + [ma[i]]
    ensures NonNull(ma[..i + 1]) == NonNull(ma[..i]) + if ma[i] == NULL then 0 else 1
  {
    assert ma[..i + 1][..i] == ma[..i];
  }

  /** tbl_mask_array_delete_mask: the mask is there, so the scan ends by finding
      it. */
  method DeleteMask(ma: array<MaskId>, m: MaskId)
    requires m != NULL && m in ma[..] && Once(ma[..])
    modifies ma
    ensures m !in ma[..] && Once(ma[..]) && NonNull(ma[..]) == old(NonNull(ma[..])) - 1
    ensures forall x :: x != NULL && x != m ==> (x in ma[..] <==> x in old(ma[..]))
    ensures forall i :: 0 <= i < ma.Length ==> ma[i] == if old(ma[i]) == m then NULL else old(ma[i])
  {
    ghost var was := ma[..];
    var i := 0;
    while ma[i] != m
      invariant i < ma.Length && ma[..] == was && exists k :: i <= k < |was| && was[k] == m
      decreases ma.Length - i
    {
      i := i + 1;
    }
    NonNullUpdate(was, i, NULL);
    ma[i] := NULL;
    assert ma[..] == was[i := NULL];
    StillThere(was, i);
  }

  lemma StillThere(was: seq<MaskId>, i: nat)
    requires i < |was| && was[i] != NULL && Once(was)
    ensures was[i] !in was[i := NULL] && Once(was[i := NULL])
    ensures forall x :: x != NULL && x != was[i] ==> (x in was[i := NULL] <==> x in was)
  {
    var now := was[i := NULL];
    forall x | x != NULL && x != was[i] ensures x in now <==> x in was {
      if x in was { var k :| 0 <= k < |was| && was[k] == x; assert now[k] == x; }
    }
  }

  /** The scan for a null entry, which a full array does not have. */
  method AddMask(ma: array<MaskId>, m: MaskId)
    requires m != NULL && m !in ma[..] && Once(ma[..]) && NonNull(ma[..]) < ma.Length
    modifies ma
    ensures m in ma[..] && Once(ma[..]) && NonNull(ma[..]) == old(NonNull(ma[..])) + 1
    ensures exists i :: 0 <= i < ma.Length && FirstNull(old(ma[..]), i) && ma[..] == old(ma[..])[i := m]
    ensures forall x :: x != NULL && x != m ==> (x in ma[..] <==> x in old(ma[..]))
  {
    ghost var was := ma[..];
    RoomLeft(was);
    var i := 0;
    while ma[i] != NULL
      invariant i < ma.Length && ma[..] == was && forall k :: 0 <= k < i ==> was[k] != NULL
      decreases ma.Length - i
    {
      i := i + 1;
    }
    NonNullUpdate(was, i, m);
    ma[i] := m;
    assert FirstNull(was, i) && ma[..] == was[i := m];
    NowThere(was, i, m);
  }

  predicate FirstNull(ma: seq<MaskId>, i: nat)
    requires i < |ma|
  {
    ma[i] == NULL && forall k :: 0 <= k < i ==> ma[k] != NULL
  }

  lemma NowThere(was: seq<MaskId>, i: nat, m: MaskId)
    requires i < |was| && was[i] == NULL && m != NULL && m !in was && Once(was)
    ensures m in was[i := m] && Once(was[i := m])
    ensures forall x :: x != NULL && x != m ==> (x in was[i := m] <==> x in was)
  {
    var now := was[i := m];
    assert now[i] == m;
    forall x | x != NULL && x != m ensures x in now <==> x in was {
      if x in was { var k :| 0 <= k < |was| && was[k] == x; assert now[k] == x; }
    }
  }
}
