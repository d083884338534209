/** The concurrent hash map seen by its one writer: insertion with expansion and
    re-basing, replacement and removal with shrinking, and lookup. */
module CMap {
  import opened Basics
  import opened CuckooTable
  import opened CuckooInsert
  import opened CuckooSearch

  const CMAP_MAX_LOAD := 3650722200
  const CMAP_MIN_LOAD := 858993459

  // ---- Counting what lookup finds ----

  lemma {:induction false} ZeroBucket(bucket: Bucket, w: Weight)
    requires forall i :: 0 <= i < |bucket| ==> w(bucket[i]) == 0
    ensures BucketWeight(bucket, w) == 0
  {
    if bucket != [] { ZeroBucket(bucket[..|bucket| - 1], w); }
  }

  lemma {:induction false} ZeroTotal(t: Table, w: Weight)
    requires forall b, i :: 0 <= b < |t| && 0 <= i < |t[b]| ==> w(t[b][i]) == 0
    ensures Total(t, w) == 0
  {
    if t != [] {
      var n := |t| - 1;
      ZeroTotal(t[..n], w);
      ZeroBucket(t[n], w);
    }
  }

  /** A hash that is not in use weighs nothing. */
  lemma NotLiveWeighsNothing(t: Table, h: nat, x: Node)
    requires NotLive(t, {}, h)
    ensures Count(t, h, x) == 0
  {
    forall b, i | 0 <= b < |t| && 0 <= i < |t[b]| ensures PairIn(h, x)(t[b][i]) == 0 {
      if t[b][i].chain != [] { assert Live(t, {}, b, i) && HashAt(t, b, i) != h; }
    }
    ZeroTotal(t, PairIn(h, x));
  }

  /** The table holds a node as often as lookup finds it. */
  lemma CountIsFind(l: Layout, t: Table, h: nat, x: Node)
    requires Inv(l, t, {})
    ensures Count(t, h, x) == Occurrences(Find(l, t, h), x)
  {
    hide Find, Total;
    if NotLive(t, {}, h) {
      NotLiveWeighsNothing(t, h, x);
      NotLiveFind(l, t, h);
    } else {
      var b: int, i: int :| Live(t, {}, b, i) && HashAt(t, b, i) == h;
      LiveIsFound(l, t, b, i);
      Emptied(l, t, b, i);
      NotLiveWeighsNothing(SetSlot(t, b, i, Slot(h, [])), h, x);
      SetSlotTotal(t, b, i, Slot(h, []), PairIn(h, x));
    }
  }

  lemma NotLiveFind(l: Layout, t: Table, h: nat)
    requires Shape(l, t) && NotLive(t, {}, h)
    ensures Find(l, t, h) == []
  {
    if Find(l, t, h) != [] { FoundMeansLive(l, t, h); }
  }

  lemma FoundMeansLive(l: Layout, t: Table, h: nat)
    requires Shape(l, t) && Find(l, t, h) != []
    ensures !NotLive(t, {}, h)
  {
    hide Find;
    FoundIsLive(l, t, h);
    var b: int, i: int :| Live(t, {}, b, i) && t[b][i] == Slot(h, Find(l, t, h));
    assert HashAt(t, b, i) == h;
  }

  lemma Emptied(l: Layout, t: Table, b: nat, i: nat)
    requires Inv(l, t, {}) && Live(t, {}, b, i)
    ensures NotLive(SetSlot(t, b, i, Slot(HashAt(t, b, i), [])), {}, HashAt(t, b, i))
  {
    var h := HashAt(t, b, i);
    var t' := SetSlot(t, b, i, Slot(h, []));
    forall b', i' | Live(t', {}, b', i') ensures HashAt(t', b', i') != h {
      assert Live(t, {}, b', i') && HashAt(t', b', i') == HashAt(t, b', i');
    }
  }

  // ---- Changing the chain of a slot in use ----

  /** `t'` is `t` with another chain for hash `h`. */
  ghost predicate Rechained(l: Layout, t: Table, h: nat, chain: seq<Node>, t': Table)
    requires Inv(l, t, {})
  {
    && Inv(l, t', {})
    && (forall g: nat :: Find(l, t', g) == if g == h then chain else Find(l, t, g))
    && Size(t') == Size(t) - |Find(l, t, h)| + |chain|
  }

  lemma RechainFind(l: Layout, t: Table, p: Place, chain: seq<Node>, g: nat)
    requires Inv(l, t, {}) && Live(t, {}, p.b, p.i)
    requires Inv(l, SetSlot(t, p.b, p.i, Slot(HashAt(t, p.b, p.i), chain)), {})
    ensures Find(l, SetSlot(t, p.b, p.i, Slot(HashAt(t, p.b, p.i), chain)), g) ==
            if g == HashAt(t, p.b, p.i) then chain else Find(l, t, g)
  {
    hide Find, HasChain;
    var h := HashAt(t, p.b, p.i);
    var t' := SetSlot(t, p.b, p.i, Slot(h, chain));
    assert {} + {p} == {p} && {p} - {p} == {};
    if g != h {
      forall c ensures HasChain(t', {}, g, c) <==> HasChain(t, {}, g, c) {
        FilledChains(t, {p}, p, h, chain, g, c);
        HoleChains(l, t, {}, p, g, c);
      }
      SameFind(l, t, t', g);
    } else if chain == [] {
      Emptied(l, t, p.b, p.i);
      NotLiveFind(l, t', h);
    } else {
      assert Live(t', {}, p.b, p.i);
      LiveIsFound(l, t', p.b, p.i);
    }
  }

  lemma Rechain(l: Layout, t: Table, p: Place, chain: seq<Node>)
    requires Inv(l, t, {}) && Live(t, {}, p.b, p.i)
    ensures var h := HashAt(t, p.b, p.i); Rechained(l, t, h, chain, SetSlot(t, p.b, p.i, Slot(h, chain)))
  {
    hide Find, Inv, Bears, Fits, Total;
    var h := HashAt(t, p.b, p.i);
    var t' := SetSlot(t, p.b, p.i, Slot(h, chain));
    LiveFits(l, t, p);
    FillHole(l, t, {p}, p, h, chain);
    assert {p} - {p} == {};
    ValidShape(l, t, {});
    ValidShape(l, t', {});
    forall g: nat ensures Find(l, t', g) == if g == h then chain else Find(l, t, g) { RechainFind(l, t, p, chain, g); }
    LiveIsFound(l, t, p.b, p.i);
    SetSlotTotal(t, p.b, p.i, Slot(h, chain), Nodes());
  }

  // ---- Rehashing ----

  /** The slots of a table in order. */
  ghost function Flat(t: Table): Bucket
  {
    if t == [] then [] else Flat(t[..|t| - 1]) + t[|t| - 1]
  }

  /** The chain of the last slot in use for the hash. */
  ghost function LastLive(s: Bucket, h: nat): seq<Node>
  {
    if s == [] then []
    else if s[|s| - 1].hash == h && s[|s| - 1].chain != [] then s[|s| - 1].chain
    else LastLive(s[..|s| - 1], h)
  }

  /** The slots before place `i` of bucket `b`. */
  ghost function Before(t: Table, b: nat, i: nat): Bucket
    requires b < |t| && i <= |t[b]|
  {
    Flat(t[..b]) + t[b][..i]
  }

  lemma {:induction false} FlatMember(t: Table, s: Slot) returns (b: nat, i: nat)
    requires s in Flat(t)
    ensures b < |t| && i < |t[b]| && t[b][i] == s
    decreases |t|
  {
    var n := |t| - 1;
    if s in t[n] {
      b := n;
      i :| 0 <= i < |t[n]| && t[n][i] == s;
    } else {
      b, i := FlatMember(t[..n], s);
    }
  }

  lemma {:induction false} MemberFlat(t: Table, b: nat, i: nat)
    requires b < |t| && i < |t[b]|
    ensures t[b][i] in Flat(t)
    decreases |t|
  {
    if b < |t| - 1 { MemberFlat(t[..|t| - 1], b, i); }
  }

  lemma {:induction false} LastLiveIsIn(s: Bucket, h: nat)
    requires LastLive(s, h) != []
    ensures Slot(h, LastLive(s, h)) in s
    decreases |s|
  {
    if !(s[|s| - 1].hash == h && s[|s| - 1].chain != []) { LastLiveIsIn(s[..|s| - 1], h); }
  }

  lemma {:induction false} LiveIsLast(s: Bucket, x: Slot)
    requires x in s && x.chain != []
    ensures LastLive(s, x.hash) != []
    decreases |s|
  {
    var n := |s| - 1;
    if !(s[n].hash == x.hash && s[n].chain != []) { LiveIsLast(s[..n], x); }
  }

  /** All slots together give what lookup finds. */
  lemma FlatIsFind(l: Layout, t: Table, h: nat)
    requires Inv(l, t, {})
    ensures LastLive(Flat(t), h) == Find(l, t, h)
  {
    hide Find, LastLive, Flat;
    if LastLive(Flat(t), h) != [] {
      LastLiveIsIn(Flat(t), h);
      var b, i := FlatMember(t, Slot(h, LastLive(Flat(t), h)));
      assert Live(t, {}, b, i);
      LiveIsFound(l, t, b, i);
    } else if Find(l, t, h) != [] {
      FoundIsLive(l, t, h);
      var b: int, i: int :| Live(t, {}, b, i) && t[b][i] == Slot(h, Find(l, t, h));
      MemberFlat(t, b, i);
      LiveIsLast(Flat(t), t[b][i]);
    }
  }

  /** A hash in use at a place is not in use before it. */
  lemma NotBefore(l: Layout, t: Table, b: nat, i: nat)
    requires Inv(l, t, {}) && Live(t, {}, b, i)
    ensures LastLive(Before(t, b, i), t[b][i].hash) == []
  {
    hide LastLive, Flat;
    var h := t[b][i].hash;
    if LastLive(Before(t, b, i), h) != [] {
      LastLiveIsIn(Before(t, b, i), h);
      var b', i' := BeforeMember(t, b, i, Slot(h, LastLive(Before(t, b, i), h)));
      OneLivePlace(l, t, b, i, b', i');
    }
  }

  lemma BeforeMember(t: Table, b: nat, i: nat, s: Slot) returns (b': nat, i': nat)
    requires b < |t| && i <= |t[b]| && s in Before(t, b, i)
    ensures b' < |t| && i' < |t[b']| && t[b'][i'] == s && (b' < b || (b' == b && i' < i))
  {
    if s in Flat(t[..b]) {
      b', i' := FlatMember(t[..b], s);
    } else {
      b' := b;
      i' :| 0 <= i' < i && t[b][i'] == s;
    }
  }

  lemma OneLivePlace(l: Layout, t: Table, b: nat, i: nat, b': nat, i': nat)
    requires Inv(l, t, {}) && Live(t, {}, b, i) && b' < |t| && i' < |t[b']|
    requires t[b'][i'].chain != [] && t[b'][i'].hash == t[b][i].hash
    ensures b == b' && i == i'
  {
    assert Live(t, {}, b', i') && HashAt(t, b', i') == HashAt(t, b, i);
  }

  lemma BeforeGrows(t: Table, b: nat, i: nat)
    requires b < |t| && i < |t[b]|
    ensures Before(t, b, i + 1) == Before(t, b, i) + [t[b][i]]
  {
    assert t[b][..i + 1] == t[b][..i] + [t[b][i]];
  }

  lemma BeforeNext(t: Table, b: nat)
    requires b < |t|
    ensures Before(t, b, |t[b]|) == Flat(t[..b + 1])
  {
    assert t[..b + 1][..b] == t[..b] && t[b][..|t[b]|] == t[b];
  }

  /** The new table holds the slots before the place. */
  ghost predicate Copied(l: Layout, new_: Table, s: Bucket)
  {
    Inv(l, new_, {}) && forall g: nat :: Find(l, new_, g) == LastLive(s, g)
  }

  lemma CopyOne(l: Layout, new_: Table, s: Bucket, x: Slot, new2: Table)
    requires Copied(l, new_, s) && x.chain != [] && LastLive(s, x.hash) == [] && Inserted(l, new_, x.hash, x.chain, new2)
    ensures Copied(l, new2, s + [x])
  {
    hide Inv, Find;
    ValidShape(l, new2, {});
    forall g: nat ensures Find(l, new2, g) == LastLive(s + [x], g) {
      assert (s + [x])[..|s|] == s;
      assert x.chain + [] == x.chain;
    }
  }

  lemma CopyNone(l: Layout, new_: Table, s: Bucket, x: Slot)
    requires Copied(l, new_, s) && x.chain == []
    ensures Copied(l, new_, s + [x])
  {
    hide Inv, Find;
    ValidShape(l, new_, {});
    forall g: nat ensures Find(l, new_, g) == LastLive(s + [x], g) { assert (s + [x])[..|s|] == s; }
  }

  function Zeroed(l: Layout): Table { seq(l.nBuckets, _ => seq(l.k, _ => Slot(0, []))) }

  lemma ZeroedIsEmpty(l: Layout)
    requires l.Ok()
    ensures Copied(l, Zeroed(l), []) && Size(Zeroed(l)) == 0
  {
    var t := Zeroed(l);
    assert Inv(l, t, {}) by { assert forall b, i :: !Live(t, {}, b, i); }
    forall g: nat ensures Find(l, t, g) == [] { NotLiveFind(l, t, g); }
    ZeroTotal(t, Nodes());
  }

  /** A rebuilding of the table gets stuck: when the new table holds all chains before one
      of them, there is no room for that. */
  ghost predicate Stuck(l: Layout, t: Table, l': Layout)
  {
    exists b: nat, i: nat, u: Table :: b < |t| && i < |t[b]| && t[b][i].chain != [] && Copied(l', u, Before(t, b, i)) && NoRoom(l', u, t[b][i].hash)
  }

  ghost predicate NoRoom(l: Layout, t: Table, h: nat) { l.Ok() && !Takes(l, t, h) }

  /** cmap_try_rehash: inserts every chain of the old table into the new one. */
  method TryRehash(l: Layout, t: Table, l': Layout, buckets: array<Bucket>) returns (ok: bool)
    requires Inv(l, t, {}) && l'.Ok() && buckets[..] == Zeroed(l')
    modifies buckets
    ensures ok ==> Inv(l', buckets[..], {}) && forall g: nat :: Find(l', buckets[..], g) == Find(l, t, g)
    ensures ok ==> Size(buckets[..]) == Size(t)
    ensures !ok ==> Stuck(l, t, l')
  {
    hide Inv, Inserted, Copied, Zeroed, Find, LastLive, Flat, Before, Total, BucketWeight, Takes;
    ZeroedIsEmpty(l');
    ValidShape(l, t, {});
    NothingBefore(t);
    for b := 0 to |t|
      invariant Copied(l', buckets[..], Flat(t[..b])) && Size(buckets[..]) == Total(t[..b], Nodes())
    {
      StartOfBucket(t, b);
      for i := 0 to |t[b]|
        invariant Copied(l', buckets[..], Before(t, b, i))
        invariant Size(buckets[..]) == Total(t[..b], Nodes()) + BucketWeight(t[b][..i], Nodes())
      {
        ghost var was := buckets[..];
        CopyIsValid(l', was, Before(t, b, i));
        BeforeGrows(t, b, i);
        WeightGrows(t[b], i, Nodes());
        if t[b][i].chain != [] {
          ok := TryInsert(l', buckets, t[b][i].hash, t[b][i].chain);
          if !ok {
            assert Copied(l', was, Before(t, b, i)) && NoRoom(l', was, t[b][i].hash);
            return;
          }
          NotBefore(l, t, b, i);
          CopyOne(l', was, Before(t, b, i), t[b][i], buckets[..]);
          InsertedSize(l', was, t[b][i].hash, t[b][i].chain, buckets[..]);
        } else {
          CopyNone(l', was, Before(t, b, i), t[b][i]);
        }
      }
      EndOfBucket(t, b, Nodes());
    }
    assert t[..|t|] == t;
    CopyIsWhole(l, t, l', buckets[..]);
    ok := true;
  }

  lemma NothingBefore(t: Table)
    ensures Flat(t[..0]) == [] && Total(t[..0], Nodes()) == 0
  {
  }

  lemma StartOfBucket(t: Table, b: nat)
    requires b < |t|
    ensures Before(t, b, 0) == Flat(t[..b]) && BucketWeight(t[b][..0], Nodes()) == 0
  {
  }

  lemma EndOfBucket(t: Table, b: nat, w: Weight)
    requires b < |t|
    ensures Before(t, b, |t[b]|) == Flat(t[..b + 1])
    ensures Total(t[..b + 1], w) == Total(t[..b], w) + BucketWeight(t[b][..|t[b]|], w)
  {
    BeforeNext(t, b);
    assert t[..b + 1][..b] == t[..b] && t[b][..|t[b]|] == t[b];
  }

  lemma WeightGrows(bucket: Bucket, i: nat, w: Weight)
    requires i < |bucket|
    ensures BucketWeight(bucket[..i + 1], w) == BucketWeight(bucket[..i], w) + w(bucket[i])
  {
    assert bucket[..i + 1][..i] == bucket[..i];
  }

  lemma CopyIsValid(l: Layout, t: Table, s: Bucket)
    requires Copied(l, t, s)
    ensures Inv(l, t, {})
  {
  }

  lemma InsertedSize(l: Layout, t: Table, h: nat, chain: seq<Node>, t': Table)
    requires Inv(l, t, {}) && Inserted(l, t, h, chain, t')
    ensures Size(t') == Size(t) + |chain|
  {
  }

  lemma CopyIsWhole(l: Layout, t: Table, l': Layout, t': Table)
    requires Inv(l, t, {}) && Copied(l', t', Flat(t))
    ensures Inv(l', t', {}) && forall g: nat :: Find(l', t', g) == Find(l, t, g)
  {
    hide Inv, Find, LastLive, Flat;
    ValidShape(l, t, {});
    ValidShape(l', t', {});
    forall g: nat ensures Find(l', t', g) == Find(l, t, g) { FlatIsFind(l, t, g); }
  }

  /** The tables have the same nodes under every hash. */
  ghost predicate SameNodes(l: Layout, t: Table, l': Layout, t': Table)
  {
    Inv(l, t, {}) && Inv(l', t', {}) && forall g: nat :: Find(l', t', g) == Find(l, t, g)
  }

  lemma SameSelf(l: Layout, t: Table)
    requires Inv(l, t, {})
    ensures SameNodes(l, t, l, t)
  {
  }

  lemma SameTwice(l0: Layout, t0: Table, l: Layout, t: Table, l': Layout, t': Table)
    requires SameNodes(l0, t0, l, t) && SameNodes(l, t, l', t')
    ensures SameNodes(l0, t0, l', t')
  {
    hide Find, Inv;
    ValidShape(l, t, {});
    ValidShape(l0, t0, {});
    ValidShape(l', t', {});
  }

  lemma SameIsFound(l: Layout, t: Table, l': Layout, t': Table)
    requires SameNodes(l, t, l', t')
    ensures Inv(l, t, {}) && Inv(l', t', {}) && forall g: nat :: Find(l', t', g) == Find(l, t, g)
  {
  }

  /** Rebuilding table `t0` with layout `x` to insert hash `h` was in vain: it got stuck,
      from that table or another with the same nodes, or left no room for the hash. */
  ghost predicate InVain(l0: Layout, t0: Table, x: Layout, h: nat)
  {
    || (exists l: Layout, t: Table :: SameNodes(l0, t0, l, t) && Stuck(l, t, x))
    || (exists t: Table :: SameNodes(l0, t0, x, t) && NoRoom(x, t, h))
  }

  lemma StuckInVain(l0: Layout, t0: Table, l: Layout, t: Table, x: Layout, h: nat)
    requires SameNodes(l0, t0, l, t) && Stuck(l, t, x)
    ensures InVain(l0, t0, x, h)
  {
    hide SameNodes, Stuck;
  }

  lemma NoRoomInVain(l0: Layout, t0: Table, x: Layout, t: Table, h: nat)
    requires SameNodes(l0, t0, x, t) && x.Ok() && !Takes(x, t, h)
    ensures InVain(l0, t0, x, h)
  {
    hide SameNodes, Takes;
  }

  /** What is left of the bases once some have been used. */
  predicate LeftOf(bases: seq<nat>, rest: seq<nat>) { |rest| <= |bases| && rest == bases[|bases| - |rest|..] }

  lemma Left(bases: seq<nat>, rest: seq<nat>)
    requires LeftOf(bases, rest)
    ensures |rest| <= |bases| && rest == bases[|bases| - |rest|..]
  {
  }

  lemma LeftOfLeft(bases: seq<nat>, rest: seq<nat>, rest': seq<nat>)
    requires LeftOf(bases, rest) && LeftOf(rest, rest')
    ensures LeftOf(bases, rest') && (rest' != rest ==> bases[|bases| - |rest'| - 1] == rest[|rest| - |rest'| - 1])
  {
  }

  // ---- The map ----

  function MaxN(mask: nat, k: nat): nat { (mask + 1) * k * CMAP_MAX_LOAD / 0x1_0000_0000 }

  function MinN(mask: nat, k: nat): nat { (mask + 1) * k * CMAP_MIN_LOAD / 0x1_0000_0000 }

  /** One less than a power of two, so that `& mask` is `% (mask + 1)`. */
  predicate IsMask(mask: nat)
  {
    mask == 0 || (mask % 2 == 1 && IsMask(mask / 2))
  }

  lemma MaxNDoubles(mask: nat, k: nat)
    requires k == 5 || k == 7
    ensures MaxN(mask, k) < MaxN(2 * mask + 1, k) && MaxN(mask, k) >= 4
  {
    var x := (mask + 1) * k * CMAP_MAX_LOAD;
    assert (2 * mask + 2) * k * CMAP_MAX_LOAD == 2 * x;
    assert x >= 5 * CMAP_MAX_LOAD;
  }

  lemma ShrinkFits(mask: nat, k: nat, n: nat)
    requires (k == 5 || k == 7) && IsMask(mask) && n < MinN(mask, k)
    ensures n < MaxN(mask / 2, k)
  {
    if mask == 0 {
    } else {
      var half := mask / 2;
      assert mask + 1 == 2 * (half + 1);
      assert (mask + 1) * k * CMAP_MIN_LOAD <= (half + 1) * k * CMAP_MAX_LOAD;
    }
  }

  class Map {
    const k: nat
    const finish: (nat, nat) -> Hash32   // hash_finish(basis, hash)
    var n: nat
    var mask: nat
    var basis: nat
    var buckets: array<Bucket>

    ghost predicate Valid()
      reads this, buckets
    {
      && (k == 5 || k == 7) && IsMask(mask)
      && Inv(L(), buckets[..], {}) && n == Size(buckets[..]) && n <= MaxN(mask, k)
    }

    function L(): Layout
      reads this
    {
      LayoutFor(mask, basis)
    }

    function LayoutFor(mask: nat, basis: nat): Layout
    {
      Layout(mask + 1, k, (h: nat) => finish(basis, h))
    }

    /** The chain of nodes that have the hash. */
    ghost function Nodes(h: nat): seq<Node>
      reads this, buckets
      requires Valid()
    {
      Find(L(), buckets[..], h)
    }

    /** cmap_init. */
    constructor (k: nat, finish: (nat, nat) -> Hash32, basis: nat)
      requires k == 5 || k == 7
      ensures Valid() && fresh(buckets) && n == 0 && forall h: nat :: Nodes(h) == []
    {
      this.k, this.finish, this.basis := k, finish, basis;
      n, mask := 0, 0;
      buckets := new Bucket[1](_ => seq(k, _ => Slot(0, [])));
      new;
      assert buckets[..] == Zeroed(L());
      ZeroedIsEmpty(L());
    }

    /** cmap_find, with no writer at work. */
    method Lookup(h: nat) returns (chain: seq<Node>)
      requires Valid()
      ensures chain == Nodes(h)
    {
      chain := FindIn(buckets[B1(L(), h)], h);
      if chain == [] {
        chain := FindIn(buckets[B2(L(), h)], h);
      }
    }

    /** Rebuilding the table `t` with each of the first `j` bases gets stuck. */
    ghost predicate AllStuck(l: Layout, t: Table, mask': nat, bases: seq<nat>, j: nat)
    {
      forall i :: 0 <= i < j && i < |bases| ==> Stuck(l, t, LayoutFor(mask', bases[i]))
    }

    /** cmap_rehash: a table of the given size, under the first basis that takes
        every chain.  Random bases come from `bases`; without success the map
        stays as it is. */
    method Rehash(mask': nat, bases: seq<nat>) returns (ok: bool, rest: seq<nat>)
      requires Valid() && IsMask(mask') && n < MaxN(mask', k)
      modifies this
      ensures Valid() && n == old(n) && |rest| <= |bases|
      ensures buckets == old(buckets) || fresh(buckets)
      ensures forall h: nat :: Nodes(h) == old(Nodes(h))
      ensures SameNodes(old(L()), old(buckets[..]), L(), buckets[..])
      ensures ok ==> mask == mask' && |rest| < |bases|
      ensures LeftOf(bases, rest)
      ensures ok ==> var j := |bases| - |rest|; basis == bases[j - 1] && AllStuck(old(L()), old(buckets[..]), mask', bases, j - 1)
      ensures !ok ==> AllStuck(old(L()), old(buckets[..]), mask', bases, |bases|)
      ensures !ok ==> rest == [] && mask == old(mask) && basis == old(basis) && buckets == old(buckets)
    {
      hide Inv, Find, Total, Stuck;
      ghost var t0 := buckets[..];
      rest := bases;
      while rest != []
        invariant |rest| <= |bases| && unchanged(this) && buckets[..] == t0 && Valid()
        invariant rest == bases[|bases| - |rest|..] && AllStuck(old(L()), old(buckets[..]), mask', bases, |bases| - |rest|)
        decreases |rest|
      {
        var basis' := rest[0];
        rest := rest[1..];
        var l' := LayoutFor(mask', basis');
        var now := new Bucket[mask' + 1](_ => seq(k, _ => Slot(0, [])));
        assert now[..] == Zeroed(l');
        var done := TryRehash(L(), buckets[..], l', now);
        if done {
          buckets, mask, basis := now, mask', basis';
          return true, rest;
        }
      }
      ok := false;
    }

    /** Rebuilding the table `t0` with each of the first `j` bases was in vain. */
    ghost predicate Tried(l0: Layout, t0: Table, mask': nat, bases: seq<nat>, j: int, h: nat)
    {
      forall i :: 0 <= i < j && i < |bases| ==> InVain(l0, t0, LayoutFor(mask', bases[i]), h)
    }

    lemma TriedNone(l0: Layout, t0: Table, mask': nat, bases: seq<nat>, h: nat)
      ensures Tried(l0, t0, mask', bases, -1, h) && Tried(l0, t0, mask', bases, 0, h) && bases[0..] == bases
    {
    }

    lemma TriedOne(l0: Layout, t0: Table, mask': nat, bases: seq<nat>, j: nat, t: Table, h: nat)
      requires Tried(l0, t0, mask', bases, j - 1, h) && j <= |bases|
      requires j > 0 ==> var x := LayoutFor(mask', bases[j - 1]); SameNodes(l0, t0, x, t) && x.Ok() && !Takes(x, t, h)
      ensures Tried(l0, t0, mask', bases, j, h)
    {
      hide SameNodes, Takes, InVain, LayoutFor;
      if j > 0 { NoRoomInVain(l0, t0, LayoutFor(mask', bases[j - 1]), t, h); }
    }

    lemma TriedMore(l0: Layout, t0: Table, l: Layout, t: Table, mask': nat, bases: seq<nat>, a: nat, j: nat, h: nat)
      requires SameNodes(l0, t0, l, t) && a <= |bases| && j <= |bases[a..]| && Tried(l0, t0, mask', bases, a, h)
      requires AllStuck(l, t, mask', bases[a..], j)
      ensures Tried(l0, t0, mask', bases, a + j, h)
    {
      hide SameNodes, Stuck, InVain, LayoutFor;
      forall i | 0 <= i < a + j ensures InVain(l0, t0, LayoutFor(mask', bases[i]), h) {
        if i >= a {
          assert bases[a..][i - a] == bases[i];
          StuckInVain(l0, t0, l, t, LayoutFor(mask', bases[i]), h);
        }
      }
    }

    /** The insertion is being tried: the bases before the current one were in vain. */
    ghost predicate Trying(l0: Layout, t0: Table, bases: seq<nat>, rest: seq<nat>, h: nat)
      reads this, buckets
    {
      && LeftOf(bases, rest) && SameNodes(l0, t0, L(), buckets[..])
      && Tried(l0, t0, mask, bases, |bases| - |rest| - 1, h) && (rest != bases ==> basis == bases[|bases| - |rest| - 1])
    }

    /** cmap_insert.  The map grows exactly when it is as full as it may be.  A node for
        which there is room goes in at once; otherwise the map is rebuilt, and the
        insertion fails only when it has been in vain with every basis supplied. */
    method Insert(node: Node, h: nat, bases: seq<nat>) returns (ok: bool, rest: seq<nat>)
      requires Valid()
      modifies this, buckets
      ensures Valid() && (buckets == old(buckets) || fresh(buckets))
      ensures ok ==> n == old(n) + 1
                     && forall g: nat :: Nodes(g) == if g == h then [node] + old(Nodes(g)) else old(Nodes(g))
      ensures !ok ==> rest == [] && n == old(n) && forall g: nat :: Nodes(g) == old(Nodes(g))
      ensures ok ==> mask == if old(n) >= MaxN(old(mask), k) then 2 * old(mask) + 1 else old(mask)
      ensures old(n) < MaxN(old(mask), k) && Takes(old(L()), old(buckets[..]), h) ==> ok && rest == bases && buckets == old(buckets)
      ensures !ok ==> Tried(old(L()), old(buckets[..]), if old(n) >= MaxN(old(mask), k) then 2 * old(mask) + 1 else old(mask), bases, |bases|, h)
    {
      hide Inv, Find, Total, Inserted, MaxN, Takes, InVain, Stuck, SameNodes, Tried, AllStuck;
      ghost var l0, t0 := L(), buckets[..];
      SameSelf(l0, t0);
      TriedNone(l0, t0, 2 * mask + 1, bases, h);
      TriedNone(l0, t0, mask, bases, h);
      rest := bases;
      if n >= MaxN(mask, k) {
        MaxNDoubles(mask, k);
        ok, rest := Rehash(2 * mask + 1, rest);
        TriedMore(l0, t0, l0, t0, 2 * old(mask) + 1, bases, 0, if ok then |bases| - |rest| - 1 else |bases|, h);
        if !ok { return; }
      }
      while true
        invariant Valid() && n == old(n) < MaxN(mask, k) && (buckets == old(buckets) || fresh(buckets)) && Trying(l0, t0, bases, rest, h)
        invariant mask == if old(n) >= MaxN(old(mask), k) then 2 * old(mask) + 1 else old(mask)
        invariant if rest == bases then buckets == old(buckets) && buckets[..] == t0 && L() == l0
                  else !(old(n) < MaxN(old(mask), k) && Takes(l0, t0, h))
        decreases |rest|
      {
        var done;
        done, ok, rest := InsertOrRebuild(node, h, bases, rest, l0, t0);
        if done { return true, rest; }
        if !ok { return; }
      }
    }

    /** One turn of cmap_insert: the node goes in if there is room, and otherwise the map is
        rebuilt. */
    method InsertOrRebuild(node: Node, h: nat, ghost bases: seq<nat>, rest: seq<nat>, ghost l0: Layout, ghost t0: Table)
      returns (done: bool, ok: bool, rest': seq<nat>)
      requires Valid() && n < MaxN(mask, k) && Trying(l0, t0, bases, rest, h)
      modifies this, buckets
      ensures Valid() && (buckets == old(buckets) || fresh(buckets)) && mask == old(mask)
      ensures done <==> Takes(old(L()), old(buckets[..]), h)
      ensures done ==> rest' == rest && n == old(n) + 1 && buckets == old(buckets) && Inv(l0, t0, {})
                       && forall g: nat :: Nodes(g) == if g == h then [node] + Find(l0, t0, g) else Find(l0, t0, g)
      ensures !done ==> n == old(n) && Inv(l0, t0, {}) && forall g: nat :: Nodes(g) == Find(l0, t0, g)
      ensures !done && ok ==> |rest'| < |rest| && Trying(l0, t0, bases, rest', h)
      ensures !done && !ok ==> rest' == [] && Tried(l0, t0, mask, bases, |bases|, h)
    {
      hide Inv, Find, Total, Inserted, MaxN, Takes, InVain, Stuck, SameNodes, Tried, AllStuck, LeftOf;
      ghost var t, l, j := buckets[..], L(), |bases| - |rest|;
      assert j >= 0 && rest == bases[j..] by { Left(bases, rest); }
      SameIsFound(l0, t0, l, t);
      ok, rest' := true, rest;
      done := TryInsert(L(), buckets, h, [node]);
      if done {
        InsertedFacts(L(), t, h, [node], buckets[..]);
        n := n + 1;
        return;
      }
      TriedOne(l0, t0, mask, bases, j, t, h);
      ok, rest' := Rehash(mask, rest);
      LeftOfLeft(bases, rest, rest');
      SameTwice(l0, t0, l, t, L(), buckets[..]);
      SameIsFound(l0, t0, L(), buckets[..]);
      TriedMore(l0, t0, l, t, mask, bases, j, if ok then |rest| - |rest'| - 1 else |rest|, h);
    }

    /** cmap_replace: the replacement, if any, takes the place of the node in its
        chain.  The map shrinks when it is nearly empty. */
    method Replace(node: Node, replacement: Option<Node>, h: nat, bases: seq<nat>)
      requires Valid() && node in Nodes(h)
      modifies this, buckets
      ensures Valid() && (buckets == old(buckets) || fresh(buckets))
      ensures n == if replacement.None? then old(n) - 1 else old(n)
      ensures forall g: nat :: Nodes(g) == if g == h then Spliced(old(Nodes(g)), node, replacement) else old(Nodes(g))
      ensures mask == old(mask) || (replacement.None? && n < MinN(old(mask), k) && mask == old(mask) / 2)
      ensures replacement.None? && n < MinN(old(mask), k) ==>
                mask == old(mask) / 2 || AllStuck(L(), buckets[..], old(mask) / 2, bases, |bases|)
    {
      hide Inv, Find, Total, MaxN, MinN, Rechained, Spliced, Stuck;
      ghost var t := buckets[..];
      ValidShape(L(), t, {});
      ReplaceIn(L(), buckets, node, replacement, h);
      ghost var chain := Spliced(Find(L(), t, h), node, replacement);
      RechainedFacts(L(), t, h, chain, buckets[..]);
      if replacement.None? {
        n := n - 1;
        if n < MinN(mask, k) {
          ShrinkFits(mask, k, n);
          HalfMask(mask);
          var ok, rest := Rehash(mask / 2, bases);
        }
      }
    }
  }

  /** cmap_replace__ in the first bucket that has the hash. */
  method ReplaceIn(l: Layout, buckets: array<Bucket>, node: Node, replacement: Option<Node>, h: nat)
    requires Inv(l, buckets[..], {}) && node in Find(l, buckets[..], h)
    modifies buckets
    ensures Rechained(l, old(buckets[..]), h, Spliced(Find(l, old(buckets[..]), h), node, replacement), buckets[..])
  {
    hide Inv, Find, Rechained, Spliced;
    ghost var t := buckets[..];
    ValidShape(l, t, {});
    HasSlot(l, t, h);
    var b := B1(l, h);
    var i := FindSlot(buckets[b], h);
    if i < 0 {
      b := B2(l, h);
      i := FindSlot(buckets[b], h);
    }
    SlotIsFind(l, t, b, i, h);
    var chain := Splice(buckets[b][i].chain, node, replacement);
    Rechain(l, t, Place(b, i), chain);
    buckets[b] := buckets[b][i := Slot(h, chain)];
    assert buckets[..] == SetSlot(t, b, i, Slot(h, chain));
  }

  lemma HalfMask(mask: nat)
    requires IsMask(mask)
    ensures IsMask(mask / 2)
  {
  }

  lemma InsertedFacts(l: Layout, t: Table, h: nat, chain: seq<Node>, t': Table)
    requires Inv(l, t, {}) && Inserted(l, t, h, chain, t')
    ensures Inv(l, t', {}) && Size(t') == Size(t) + |chain|
    ensures forall g: nat :: Find(l, t', g) == if g == h then chain + Find(l, t, g) else Find(l, t, g)
  {
  }

  lemma RechainedFacts(l: Layout, t: Table, h: nat, chain: seq<Node>, t': Table)
    requires Inv(l, t, {}) && Rechained(l, t, h, chain, t')
    ensures Inv(l, t', {}) && Size(t') == Size(t) - |Find(l, t, h)| + |chain|
    ensures forall g: nat :: Find(l, t', g) == if g == h then chain else Find(l, t, g)
  {
  }

  /** cmap_find_slot_protected. */
  method FindSlot(bucket: Bucket, h: nat) returns (i: int)
    ensures -1 <= i < |bucket|
    ensures i >= 0 ==> bucket[i].hash == h && bucket[i].chain != []
    ensures i < 0 ==> forall j :: 0 <= j < |bucket| ==> !(bucket[j].hash == h && bucket[j].chain != [])
  {
    i := 0;
    while i < |bucket|
      invariant 0 <= i <= |bucket| && forall j :: 0 <= j < i ==> !(bucket[j].hash == h && bucket[j].chain != [])
    {
      if bucket[i].hash == h && bucket[i].chain != [] { return; }
      i := i + 1;
    }
    i := -1;
  }

  lemma HasSlot(l: Layout, t: Table, h: nat)
    requires Inv(l, t, {}) && Find(l, t, h) != []
    ensures exists b, i :: Live(t, {}, b, i) && t[b][i].hash == h && (b == B1(l, h) || b == B2(l, h))
  {
    hide Find;
    FoundIsLive(l, t, h);
    var b: int, i: int :| Live(t, {}, b, i) && t[b][i] == Slot(h, Find(l, t, h));
    assert HashAt(t, b, i) == h;
  }

  lemma SlotIsFind(l: Layout, t: Table, b: nat, i: nat, h: nat)
    requires Inv(l, t, {}) && b < |t| && i < |t[b]| && t[b][i].hash == h && t[b][i].chain != []
    ensures Live(t, {}, b, i) && Find(l, t, h) == t[b][i].chain && HashAt(t, b, i) == h
  {
    LiveIsFound(l, t, b, i);
  }

  /** The chain with the first `node` replaced, or taken out. */
  function Spliced(chain: seq<Node>, node: Node, replacement: Option<Node>): (r: seq<Node>)
    ensures node in chain ==> |r| == if replacement.None? then |chain| - 1 else |chain|
  {
    if chain == [] then []
    else if chain[0] == node then (if replacement.None? then [] else [replacement.value]) + chain[1..]
    else [chain[0]] + Spliced(chain[1..], node, replacement)
  }

  /** The pairs change by the node and its replacement only. */
  lemma {:induction false} SplicedCounts(chain: seq<Node>, node: Node, replacement: Option<Node>, x: Node)
    requires node in chain
    ensures Occurrences(Spliced(chain, node, replacement), x) ==
            Occurrences(chain, x) - (if x == node then 1 else 0) + (if replacement == Some(x) then 1 else 0)
  {
    if chain[0] == node {
      OccurrencesConcat(if replacement.None? then [] else [replacement.value], chain[1..], x);
    } else {
      SplicedCounts(chain[1..], node, replacement, x);
    }
  }

  lemma {:induction false} SplicedAt(chain: seq<Node>, node: Node, replacement: Option<Node>, i: nat)
    requires i < |chain| && chain[i] == node && forall j :: 0 <= j < i ==> chain[j] != node
    ensures Spliced(chain, node, replacement) ==
            chain[..i] + (if replacement.None? then [] else [replacement.value]) + chain[i + 1..]
  {
    if i > 0 {
      SplicedAt(chain[1..], node, replacement, i - 1);
      assert chain[..i] == [chain[0]] + chain[1..][..i - 1];
      assert chain[i + 1..] == chain[1..][i..];
    }
  }

  /** Walks the chain to the node and splices it out. */
  method Splice(chain: seq<Node>, node: Node, replacement: Option<Node>) returns (r: seq<Node>)
    requires node in chain
    ensures r == Spliced(chain, node, replacement)
  {
    var i := 0;
    while chain[i] != node
      invariant i < |chain| && forall j :: 0 <= j < i ==> chain[j] != node
      decreases |chain| - i
    {
      i := i + 1;
    }
    SplicedAt(chain, node, replacement, i);
    r := chain[..i] + (if replacement.None? then [] else [replacement.value]) + chain[i + 1..];
  }
}
