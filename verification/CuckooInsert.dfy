/** Insertion into the cuckoo table: reuse of a slot that bears the hash, an empty
    slot of a candidate bucket, or a breadth-first search for a sequence of
    displacements. */
module CuckooInsert {
  import opened CuckooTable

  // ---- One slot at a time ----

  ghost predicate InTable(t: Table, p: Place)
  {
    0 <= p.b < |t| && 0 <= p.i < |t[p.b]|
  }

  ghost predicate NotLive(t: Table, holes: set<Place>, h: nat)
  {
    forall b, i :: Live(t, holes, b, i) ==> HashAt(t, b, i) != h
  }

  /** No slot of bucket `b` before place `n` bears the hash. */
  ghost predicate NoneBears(t: Table, holes: set<Place>, b: int, n: int, h: nat)
  {
    forall j :: 0 <= j < n ==> !Bears(t, holes, b, j, h)
  }

  /** Hash `h` may be put at place `p`. */
  ghost predicate Fits(l: Layout, t: Table, holes: set<Place>, p: Place, h: nat)
    requires l.Ok()
  {
    && InTable(t, p) && NotLive(t, holes, h) && NoneBears(t, holes, p.b, p.i, h)
    && (p.b == B1(l, h) || (p.b == B2(l, h) && NoneBears(t, holes, B1(l, h), l.k, h)))
  }

  lemma MoreHoles(l: Layout, t: Table, holes: set<Place>, p: Place)
    requires Inv(l, t, holes)
    ensures Inv(l, t, holes + {p})
  {
    forall b, i | Live(t, holes + {p}, b, i) ensures Live(t, holes, b, i) {}
    forall b, i, h | Bears(t, holes + {p}, b, i, h) ensures Bears(t, holes, b, i, h) {}
  }

  lemma FilledLive(t: Table, holes: set<Place>, p: Place, h: nat, chain: seq<Node>, b: int, i: int)
    requires InTable(t, p) && p in holes
    ensures var t' := SetSlot(t, p.b, p.i, Slot(h, chain));
            && (Place(b, i) != p ==> Live(t', holes - {p}, b, i) == Live(t, holes, b, i) && HashAt(t', b, i) == HashAt(t, b, i))
            && (Place(b, i) == p ==> Live(t', holes - {p}, b, i) == (chain != []) && HashAt(t', b, i) == h)
            && forall g :: Bears(t', holes - {p}, b, i, g) == if Place(b, i) == p then g == h else Bears(t, holes, b, i, g)
  {
  }

  lemma FilledFirst(l: Layout, t: Table, holes: set<Place>, p: Place, h: nat, chain: seq<Node>, b: int, i: int, j: int)
    requires Inv(l, t, holes) && p in holes && Fits(l, t, holes, p, h)
    requires Live(SetSlot(t, p.b, p.i, Slot(h, chain)), holes - {p}, b, i)
    ensures var t' := SetSlot(t, p.b, p.i, Slot(h, chain));
            var g := HashAt(t', b, i);
            && (b == B1(l, g) || b == B2(l, g))
            && (j < i ==> !Bears(t', holes - {p}, b, j, g))
            && (b != B1(l, g) ==> !Bears(t', holes - {p}, B1(l, g), j, g))
  {
    hide Live, Bears, HashAt;
    var g := HashAt(SetSlot(t, p.b, p.i, Slot(h, chain)), b, i);
    FilledLive(t, holes, p, h, chain, b, i);
    FilledLive(t, holes, p, h, chain, b, j);
    FilledLive(t, holes, p, h, chain, B1(l, g), j);
    BearsInRange(t, holes, b, j, h);
    BearsInRange(t, holes, B1(l, g), j, h);
  }

  lemma FilledOnce(l: Layout, t: Table, holes: set<Place>, p: Place, h: nat, chain: seq<Node>, b: int, i: int, b': int, i': int)
    requires Inv(l, t, holes) && p in holes && Fits(l, t, holes, p, h)
    requires var t' := SetSlot(t, p.b, p.i, Slot(h, chain));
             Live(t', holes - {p}, b, i) && Live(t', holes - {p}, b', i') && HashAt(t', b, i) == HashAt(t', b', i')
    ensures b == b' && i == i'
  {
    hide Live, Bears, HashAt;
    FilledLive(t, holes, p, h, chain, b, i);
    FilledLive(t, holes, p, h, chain, b', i');
  }

  /** Filling a hole where the hash fits keeps the invariant. */
  lemma FillHole(l: Layout, t: Table, holes: set<Place>, p: Place, h: nat, chain: seq<Node>)
    requires Inv(l, t, holes) && p in holes && Fits(l, t, holes, p, h)
    ensures Inv(l, SetSlot(t, p.b, p.i, Slot(h, chain)), holes - {p})
  {
    hide Live, Bears, HashAt, Fits;
    InFits(l, t, holes, p, h);
    var t' := SetSlot(t, p.b, p.i, Slot(h, chain));
    var rest := holes - {p};
    forall b, i, j | Live(t', rest, b, i)
      ensures b == B1(l, HashAt(t', b, i)) || b == B2(l, HashAt(t', b, i))
      ensures j < i ==> !Bears(t', rest, b, j, HashAt(t', b, i))
      ensures b != B1(l, HashAt(t', b, i)) ==> !Bears(t', rest, B1(l, HashAt(t', b, i)), j, HashAt(t', b, i))
    {
      FilledFirst(l, t, holes, p, h, chain, b, i, j);
    }
    forall b, i | Live(t', rest, b, i)
      ensures b == B1(l, HashAt(t', b, i)) || b == B2(l, HashAt(t', b, i))
    {
      FilledFirst(l, t, holes, p, h, chain, b, i, 0);
    }
    forall b, i, b', i' | Live(t', rest, b, i) && Live(t', rest, b', i') && HashAt(t', b, i) == HashAt(t', b', i')
      ensures b == b' && i == i'
    {
      FilledOnce(l, t, holes, p, h, chain, b, i, b', i');
    }
  }

  lemma InFits(l: Layout, t: Table, holes: set<Place>, p: Place, h: nat)
    requires l.Ok() && Fits(l, t, holes, p, h)
    ensures InTable(t, p)
  {
  }

  lemma BearsInRange(t: Table, holes: set<Place>, b: int, j: int, h: nat)
    ensures Bears(t, holes, b, j, h) ==> 0 <= b < |t| && 0 <= j < |t[b]|
  {
  }

  /** What the table holds after filling a hole. */
  lemma FilledChains(t: Table, holes: set<Place>, p: Place, h: nat, chain: seq<Node>, g: nat, c: seq<Node>)
    requires InTable(t, p) && p in holes
    ensures HasChain(SetSlot(t, p.b, p.i, Slot(h, chain)), holes - {p}, g, c) <==>
            HasChain(t, holes, g, c) || (g == h && c == chain && c != [])
  {
    var t' := SetSlot(t, p.b, p.i, Slot(h, chain));
    if HasChain(t', holes - {p}, g, c) {
      var b, i :| Live(t', holes - {p}, b, i) && t'[b][i] == Slot(g, c);
      if Place(b, i) != p { assert Live(t, holes, b, i); }
    }
    if HasChain(t, holes, g, c) {
      var b, i :| Live(t, holes, b, i) && t[b][i] == Slot(g, c);
      assert Live(t', holes - {p}, b, i);
    }
    if chain != [] { assert Live(t', holes - {p}, p.b, p.i); }
  }

  /** Making a hole forgets the chain in it, and no other. */
  lemma HoleChains(l: Layout, t: Table, holes: set<Place>, p: Place, g: nat, c: seq<Node>)
    requires Inv(l, t, holes) && InTable(t, p)
    ensures HasChain(t, holes + {p}, g, c) <==> HasChain(t, holes, g, c) && !(Live(t, holes, p.b, p.i) && g == HashAt(t, p.b, p.i))
  {
    if HasChain(t, holes + {p}, g, c) {
      var b, i :| Live(t, holes + {p}, b, i) && t[b][i] == Slot(g, c);
      assert Live(t, holes, b, i) && HashAt(t, b, i) == g;
    }
    if HasChain(t, holes, g, c) && !(Live(t, holes, p.b, p.i) && g == HashAt(t, p.b, p.i)) {
      var b, i :| Live(t, holes, b, i) && t[b][i] == Slot(g, c);
      assert Live(t, holes + {p}, b, i);
    }
  }

  // ---- What an insertion does ----

  /** `t'` is `t` with `chain` put before what hash `h` had. */
  ghost predicate Inserted(l: Layout, t: Table, h: nat, chain: seq<Node>, t': Table)
    requires Inv(l, t, {})
  {
    && Inv(l, t', {})
    && (forall g: nat :: Find(l, t', g) == if g == h then chain + Find(l, t, g) else Find(l, t, g))
    && (forall g: nat, x: Node :: Count(t', g, x) == Count(t, g, x) + if g == h then Occurrences(chain, x) else 0)
    && Size(t') == Size(t) + |chain|
  }

  /** Tables that hold the same chains, but for one new chain. */
  lemma FindAfter(l: Layout, t: Table, t': Table, h: nat, chain: seq<Node>, g: nat)
    requires Inv(l, t, {}) && Inv(l, t', {}) && chain != []
    requires g == h ==> HasChain(t', {}, h, chain)
    requires g != h ==> forall c :: HasChain(t', {}, g, c) <==> HasChain(t, {}, g, c)
    ensures Find(l, t', g) == if g == h then chain else Find(l, t, g)
  {
    hide HasChain, Live, Bears, HashAt, Find;
    if g == h {
      FindIsExact(l, t', h, chain);
    } else {
      SameFind(l, t, t', g);
    }
  }

  /** The slot at `p`, in use for `h` or not at all, gets `chain` in front. */
  lemma PutInserts(l: Layout, t: Table, p: Place, h: nat, chain: seq<Node>)
    requires Inv(l, t, {}) && chain != [] && InTable(t, p) && Fits(l, t, {p}, p, h)
    requires t[p.b][p.i].chain == [] || t[p.b][p.i].hash == h
    ensures Inserted(l, t, h, chain, SetSlot(t, p.b, p.i, Slot(h, chain + t[p.b][p.i].chain)))
  {
    hide HasChain, Live, Bears, HashAt, Find, Inv, Fits;
    var now := chain + t[p.b][p.i].chain;
    var t' := SetSlot(t, p.b, p.i, Slot(h, now));
    MoreHoles(l, t, {}, p);
    assert {} + {p} == {p} && {p} - {p} == {};
    FillHole(l, t, {p}, p, h, now);
    ValidShape(l, t, {});
    forall g: nat ensures Find(l, t', g) == if g == h then chain + Find(l, t, g) else Find(l, t, g) {
      PutFind(l, t, p, h, chain, g);
    }
    forall g: nat, x: Node ensures Count(t', g, x) == Count(t, g, x) + if g == h then Occurrences(chain, x) else 0 {
      SetSlotTotal(t, p.b, p.i, Slot(h, now), PairIn(g, x));
      OccurrencesConcat(chain, t[p.b][p.i].chain, x);
    }
    SetSlotTotal(t, p.b, p.i, Slot(h, now), Nodes());
  }

  lemma ValidShape(l: Layout, t: Table, holes: set<Place>)
    requires Inv(l, t, holes)
    ensures Shape(l, t)
  {
  }

  lemma PutFind(l: Layout, t: Table, p: Place, h: nat, chain: seq<Node>, g: nat)
    requires Inv(l, t, {}) && chain != [] && InTable(t, p) && Fits(l, t, {p}, p, h)
    requires t[p.b][p.i].chain == [] || t[p.b][p.i].hash == h
    requires Inv(l, SetSlot(t, p.b, p.i, Slot(h, chain + t[p.b][p.i].chain)), {})
    ensures Find(l, SetSlot(t, p.b, p.i, Slot(h, chain + t[p.b][p.i].chain)), g) ==
            if g == h then chain + Find(l, t, g) else Find(l, t, g)
  {
    hide HasChain, Bears, Find;
    var was := t[p.b][p.i].chain;
    var t' := SetSlot(t, p.b, p.i, Slot(h, chain + was));
    assert {} + {p} == {p} && {p} - {p} == {};
    if g == h {
      OldChain(l, t, p, h);
      FilledChains(t, {p}, p, h, chain + was, h, chain + was);
    } else {
      forall c ensures HasChain(t', {}, g, c) <==> HasChain(t, {}, g, c) {
        FilledChains(t, {p}, p, h, chain + was, g, c);
        HoleChains(l, t, {}, p, g, c);
      }
    }
    FindAfter(l, t, t', h, chain + was, g);
  }

  /** A slot where the hash fits holds the hash's chain. */
  lemma OldChain(l: Layout, t: Table, p: Place, h: nat)
    requires Inv(l, t, {}) && InTable(t, p) && Fits(l, t, {p}, p, h)
    requires t[p.b][p.i].chain == [] || t[p.b][p.i].hash == h
    ensures Find(l, t, h) == t[p.b][p.i].chain
  {
    hide Bears, Find, Inv, Fits;
    ValidShape(l, t, {});
    if t[p.b][p.i].chain != [] {
      assert Live(t, {}, p.b, p.i);
      LiveIsFound(l, t, p.b, p.i);
    } else if Find(l, t, h) != [] {
      FoundIsLive(l, t, h);
      var b, i :| Live(t, {}, b, i) && t[b][i] == Slot(h, Find(l, t, h));
      FitsMeansNotLive(l, t, {p}, p, h, b, i);
    }
  }

  lemma FitsMeansNotLive(l: Layout, t: Table, holes: set<Place>, p: Place, h: nat, b: int, i: int)
    requires l.Ok() && Fits(l, t, holes, p, h)
    ensures Live(t, holes, b, i) ==> HashAt(t, b, i) != h
  {
  }

  // ---- A slot that bears the hash, or an empty one ----

  /** The bucket has no empty slot. */
  ghost predicate Full(t: Table, b: int)
  {
    0 <= b < |t| && PrefixFull(t, b, |t[b]|)
  }

  /** The slots of bucket `b` before place `n` are all in use. */
  ghost predicate PrefixFull(t: Table, b: int, n: int)
  {
    0 <= b < |t| && forall i :: 0 <= i < n && i < |t[b]| ==> t[b][i].chain != []
  }

  /** No slot of the hash's two buckets bears it. */
  ghost predicate Absent(l: Layout, t: Table, holes: set<Place>, h: nat)
    requires l.Ok()
  {
    NoneBears(t, holes, B1(l, h), l.k, h) && NoneBears(t, holes, B2(l, h), l.k, h)
  }

  lemma AbsentIsNotLive(l: Layout, t: Table, holes: set<Place>, h: nat)
    requires Inv(l, t, holes) && Absent(l, t, holes, h)
    ensures NotLive(t, holes, h)
  {
    forall b, i | Live(t, holes, b, i) ensures HashAt(t, b, i) != h {
      if HashAt(t, b, i) == h { assert Bears(t, holes, b, i, h); }
    }
  }

  /** An absent hash fits into any hole of its buckets. */
  lemma AbsentFits(l: Layout, t: Table, holes: set<Place>, p: Place, h: nat)
    requires Inv(l, t, holes) && InTable(t, p) && Absent(l, t, holes, h) && (p.b == B1(l, h) || p.b == B2(l, h))
    ensures Fits(l, t, holes, p, h)
  {
    AbsentIsNotLive(l, t, holes, h);
  }

  lemma FewerBear(t: Table, p: Place, b: int, n: int, h: nat)
    requires NoneBears(t, {}, b, n, h)
    ensures NoneBears(t, {p}, b, n, h)
  {
    forall j | 0 <= j < n ensures !Bears(t, {p}, b, j, h) { assert !Bears(t, {}, b, j, h); }
  }

  /** The hash fits where the first slot bears it. */
  lemma BearerFits(l: Layout, t: Table, p: Place, h: nat)
    requires Inv(l, t, {}) && InTable(t, p) && t[p.b][p.i].hash == h && NoneBears(t, {}, p.b, p.i, h)
    requires p.b == B1(l, h) || (p.b == B2(l, h) && NoneBears(t, {}, B1(l, h), l.k, h))
    ensures Fits(l, t, {p}, p, h)
  {
    assert Bears(t, {}, p.b, p.i, h);
    FewerBear(t, p, p.b, p.i, h);
    if p.b != B1(l, h) { FewerBear(t, p, B1(l, h), l.k, h); }
    forall b, i | Live(t, {p}, b, i) ensures HashAt(t, b, i) != h {
      assert Live(t, {}, b, i);
      if HashAt(t, b, i) == h { BearerIsOnly(l, t, p, h, b, i); }
    }
  }

  lemma BearerIsOnly(l: Layout, t: Table, p: Place, h: nat, b: int, i: int)
    requires Inv(l, t, {}) && Bears(t, {}, p.b, p.i, h) && NoneBears(t, {}, p.b, p.i, h)
    requires p.b == B1(l, h) || (p.b == B2(l, h) && NoneBears(t, {}, B1(l, h), l.k, h))
    requires Live(t, {}, b, i) && HashAt(t, b, i) == h
    ensures Place(b, i) == p
  {
    assert Bears(t, {}, b, i, h);
  }

  /** A hash fits where it is. */
  lemma LiveFits(l: Layout, t: Table, p: Place)
    requires Inv(l, t, {}) && Live(t, {}, p.b, p.i)
    ensures Inv(l, t, {p}) && Fits(l, t, {p}, p, HashAt(t, p.b, p.i))
  {
    var h := HashAt(t, p.b, p.i);
    assert {} + {p} == {p};
    MoreHoles(l, t, {}, p);
    forall b, i | Live(t, {p}, b, i) ensures HashAt(t, b, i) != h { assert Live(t, {}, b, i); }
    forall j | 0 <= j < p.i ensures !Bears(t, {p}, p.b, j, h) { assert !Bears(t, {}, p.b, j, h); }
    if p.b != B1(l, h) {
      forall j | 0 <= j < l.k ensures !Bears(t, {p}, B1(l, h), j, h) { assert !Bears(t, {}, B1(l, h), j, h); }
    }
  }

  /** cmap_insert_dup: puts the chain into the first slot that bears the hash, in
      front of what that slot has. */
  method InsertDup(l: Layout, buckets: array<Bucket>, b: nat, h: nat, chain: seq<Node>) returns (ok: bool)
    requires Inv(l, buckets[..], {}) && chain != []
    requires b == B1(l, h) || (b == B2(l, h) && NoneBears(buckets[..], {}, B1(l, h), l.k, h))
    modifies buckets
    ensures ok ==> Inserted(l, old(buckets[..]), h, chain, buckets[..])
    ensures !ok ==> buckets[..] == old(buckets[..])
    ensures ok <==> !NoneBears(old(buckets[..]), {}, b, l.k, h)
  {
    ghost var t := buckets[..];
    for i := 0 to l.k
      invariant buckets[..] == t && NoneBears(t, {}, b, i, h)
    {
      if buckets[b][i].hash == h {
        assert Bears(t, {}, b, i, h);
        BearerFits(l, t, Place(b, i), h);
        PutInserts(l, t, Place(b, i), h, chain);
        buckets[b] := buckets[b][i := Slot(h, chain + buckets[b][i].chain)];
        assert buckets[..] == SetSlot(t, b, i, Slot(h, chain + t[b][i].chain));
        return true;
      }
    }
    ok := false;
  }

  method FindEmptySlot(bucket: Bucket) returns (j: int)
    ensures -1 <= j < |bucket|
    ensures j >= 0 ==> bucket[j].chain == [] && forall i :: 0 <= i < j ==> bucket[i].chain != []
    ensures j < 0 ==> forall i :: 0 <= i < |bucket| ==> bucket[i].chain != []
  {
    j := 0;
    while j < |bucket|
      invariant 0 <= j <= |bucket| && forall i :: 0 <= i < j ==> bucket[i].chain != []
    {
      if bucket[j].chain == [] { return; }
      j := j + 1;
    }
    j := -1;
  }

  /** cmap_insert_bucket: puts the chain into the first empty slot. */
  method InsertBucket(l: Layout, buckets: array<Bucket>, b: nat, h: nat, chain: seq<Node>) returns (ok: bool)
    requires Inv(l, buckets[..], {}) && chain != [] && (b == B1(l, h) || b == B2(l, h)) && Absent(l, buckets[..], {}, h)
    modifies buckets
    ensures ok ==> Inserted(l, old(buckets[..]), h, chain, buckets[..])
    ensures !ok ==> buckets[..] == old(buckets[..])
    ensures ok <==> !Full(old(buckets[..]), b)
  {
    ghost var t := buckets[..];
    var j := FindEmptySlot(buckets[b]);
    if j < 0 { return false; }
    ghost var p := Place(b, j);
    FewerBear(t, p, B1(l, h), l.k, h);
    FewerBear(t, p, B2(l, h), l.k, h);
    MoreHoles(l, t, {}, p);
    assert {} + {p} == {p};
    AbsentFits(l, t, {p}, p, h);
    PutInserts(l, t, p, h, chain);
    buckets[b] := buckets[b][j := Slot(h, chain)];
    assert buckets[..] == SetSlot(t, b, j, Slot(h, chain));
    assert chain + [] == chain;
    ok := true;
  }

  // ---- Displacement along a route ----

  /** The bucket a slot's content may move to. */
  function Step(l: Layout, t: Table, b: nat, i: nat): nat
    requires l.Ok()
  {
    OtherBucket(l, b, HashAt(t, b, i))
  }

  ghost predicate Distinct(bs: seq<nat>)
  {
    forall i, j :: 0 <= i < j < |bs| ==> bs[i] != bs[j]
  }

  /** From bucket to bucket by way of full ones, each to the other bucket of the
      slot taken, without repeating a bucket, to a first empty slot. */
  ghost predicate Route(l: Layout, t: Table, bs: seq<nat>, slots: seq<nat>)
  {
    && Shape(l, t) && |bs| == |slots| >= 1 && Distinct(bs)
    && (forall m :: 0 <= m < |bs| ==> bs[m] < |t| && slots[m] < l.k)
    && (forall m :: 0 <= m < |bs| - 1 ==> Full(t, bs[m]) && bs[m + 1] == Step(l, t, bs[m], slots[m]))
    && var n := |bs| - 1; t[bs[n]][slots[n]].chain == [] && PrefixFull(t, bs[n], slots[n])
  }

  /** The content of place `q`, in a full bucket, may move to the hole `p` of its
      other bucket, where all slots before the hole are in use. */
  ghost predicate CanMove(l: Layout, t: Table, p: Place, q: Place)
    requires l.Ok()
  {
    && InTable(t, p) && InTable(t, q) && p.b != q.b && Full(t, q.b) && PrefixFull(t, p.b, p.i)
    && p.b == Step(l, t, q.b, q.i)
  }

  /** Moving the content of place `q` into the hole `p` makes `q` the hole. */
  lemma MoveFits(l: Layout, t: Table, p: Place, q: Place)
    requires Inv(l, t, {p}) && CanMove(l, t, p, q)
    ensures Inv(l, t, {p, q}) && Fits(l, t, {p, q}, p, HashAt(t, q.b, q.i))
  {
    var h := HashAt(t, q.b, q.i);
    MoreHoles(l, t, {p}, q);
    assert {p} + {q} == {p, q};
    assert Live(t, {p}, q.b, q.i);
    forall b, i | Live(t, {p, q}, b, i) ensures HashAt(t, b, i) != h { assert Live(t, {p}, b, i); }
    forall j | 0 <= j < p.i ensures !Bears(t, {p, q}, p.b, j, h) { assert Live(t, {p}, p.b, j); }
    if p.b != B1(l, h) {
      forall j | 0 <= j < l.k ensures !Bears(t, {p, q}, q.b, j, h) {
        if Place(q.b, j) != q { assert Live(t, {p}, q.b, j); }
      }
    }
  }

  lemma MoveKeeps(l: Layout, t: Table, p: Place, q: Place)
    requires Inv(l, t, {p}) && CanMove(l, t, p, q)
    ensures Inv(l, SetSlot(t, p.b, p.i, t[q.b][q.i]), {q})
  {
    hide Inv, Fits;
    MoveFits(l, t, p, q);
    FillHole(l, t, {p, q}, p, HashAt(t, q.b, q.i), t[q.b][q.i].chain);
    assert {p, q} - {p} == {q};
  }

  lemma MoveChains(l: Layout, t: Table, p: Place, q: Place, g: nat, c: seq<Node>)
    requires Inv(l, t, {p}) && InTable(t, p) && InTable(t, q) && p.b != q.b && Full(t, q.b)
    ensures HasChain(SetSlot(t, p.b, p.i, t[q.b][q.i]), {q}, g, c) <==> HasChain(t, {p}, g, c)
  {
    var s := t[q.b][q.i];
    assert {p} + {q} == {p, q} && {p, q} - {p} == {q};
    FilledChains(t, {p, q}, p, s.hash, s.chain, g, c);
    HoleChains(l, t, {p}, q, g, c);
    assert Live(t, {p}, q.b, q.i);
    if HasChain(t, {p}, g, c) && g == s.hash {
      var b, i :| Live(t, {p}, b, i) && t[b][i] == Slot(g, c);
      assert HashAt(t, b, i) == HashAt(t, q.b, q.i);
    }
  }

  /** Not counting the hole, the tables hold the same pairs. */
  ghost predicate Balanced(t0: Table, t: Table, p: Place)
    requires InTable(t, p)
  {
    && (forall g: nat, x: Node :: Count(t, g, x) == Count(t0, g, x) + PairIn(g, x)(t[p.b][p.i]))
    && Size(t) == Size(t0) + |t[p.b][p.i].chain|
  }

  lemma MoveBalance(t0: Table, t: Table, p: Place, q: Place)
    requires InTable(t, p) && InTable(t, q) && p.b != q.b && Balanced(t0, t, p)
    ensures Balanced(t0, SetSlot(t, p.b, p.i, t[q.b][q.i]), q)
  {
    hide Total, PairIn;
    var t' := SetSlot(t, p.b, p.i, t[q.b][q.i]);
    forall g: nat, x: Node ensures Count(t', g, x) == Count(t0, g, x) + PairIn(g, x)(t'[q.b][q.i]) {
      SetSlotTotal(t, p.b, p.i, t[q.b][q.i], PairIn(g, x));
      assert Count(t, g, x) == Count(t0, g, x) + PairIn(g, x)(t[p.b][p.i]);
    }
    SetSlotTotal(t, p.b, p.i, t[q.b][q.i], Nodes());
  }

  lemma MoveAbsent(l: Layout, t: Table, p: Place, q: Place, h: nat)
    requires Inv(l, t, {p}) && InTable(t, p) && InTable(t, q) && p.b != q.b && Full(t, q.b) && Absent(l, t, {p}, h)
    ensures Absent(l, SetSlot(t, p.b, p.i, t[q.b][q.i]), {q}, h)
  {
    var t' := SetSlot(t, p.b, p.i, t[q.b][q.i]);
    AbsentIsNotLive(l, t, {p}, h);
    assert Live(t, {p}, q.b, q.i);
    forall b, j | 0 <= j < l.k && (b == B1(l, h) || b == B2(l, h)) ensures !Bears(t', {q}, b, j, h) {
      assert !Bears(t, {p}, b, j, h);
    }
  }
}
