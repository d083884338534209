/** The cuckoo hash table of a concurrent map: buckets of (hash, chain) slots,
    two candidate buckets for each hash, and the invariant that every hash lives
    in one chain.  Emptied slots keep their old hash. */
module CuckooTable {
  type Node = nat
  type Hash32 = h: int | 0 <= h < 0x1_0000_0000

  /** A slot and the chain of nodes it points to; no nodes for a null pointer. */
  datatype Slot = Slot(hash: nat, chain: seq<Node>)

  type Bucket = seq<Slot>
  type Table = seq<Bucket>

  /** The size of a table and of its buckets, and its rehash function. */
  datatype Layout = Layout(nBuckets: nat, k: nat, rehash: nat -> Hash32)
  {
    predicate Ok() { nBuckets > 0 && k > 0 }
  }

  datatype Place = Place(b: int, i: int)

  /** Rotation by 16 bits. */
  function OtherHash(h: Hash32): Hash32
  {
    h % 0x1_0000 * 0x1_0000 + h / 0x1_0000
  }

  lemma OtherHashIsSymmetric(h: Hash32)
    ensures OtherHash(OtherHash(h)) == h
  {
    var lo, hi := h % 0x1_0000, h / 0x1_0000;
    assert (lo * 0x1_0000 + hi) / 0x1_0000 == lo && (lo * 0x1_0000 + hi) % 0x1_0000 == hi;
  }

  function B1(l: Layout, h: nat): (b: nat)
    requires l.Ok()
    ensures b < l.nBuckets
  {
    l.rehash(h) % l.nBuckets
  }

  function B2(l: Layout, h: nat): (b: nat)
    requires l.Ok()
    ensures b < l.nBuckets
  {
    OtherHash(l.rehash(h)) % l.nBuckets
  }

  /** other_bucket_protected: the other bucket a hash found in bucket `b` may be
      in. */
  function OtherBucket(l: Layout, b: nat, h: nat): (r: nat)
    requires l.Ok()
    ensures r < l.nBuckets && (b == B1(l, h) || b == B2(l, h) ==> {b, r} == {B1(l, h), B2(l, h)})
  {
    if B1(l, h) == b then B2(l, h) else B1(l, h)
  }

  // ---- The invariant ----

  ghost predicate Shape(l: Layout, t: Table)
  {
    l.Ok() && |t| == l.nBuckets && forall b :: 0 <= b < |t| ==> |t[b]| == l.k
  }

  /** The slot is in use; `holes` are places whose content does not count. */
  ghost predicate Live(t: Table, holes: set<Place>, b: int, i: int)
  {
    0 <= b < |t| && 0 <= i < |t[b]| && Place(b, i) !in holes && t[b][i].chain != []
  }

  ghost predicate Bears(t: Table, holes: set<Place>, b: int, i: int, h: nat)
  {
    0 <= b < |t| && 0 <= i < |t[b]| && Place(b, i) !in holes && t[b][i].hash == h
  }

  function HashAt(t: Table, b: int, i: int): nat
  {
    if 0 <= b < |t| && 0 <= i < |t[b]| then t[b][i].hash else 0
  }

  /** Every hash in use is in one slot, in one of its two buckets, the first slot
      of that bucket that bears it; when that is not its first bucket, no slot of
      the first bucket bears it. */
  ghost predicate Inv(l: Layout, t: Table, holes: set<Place>)
  {
    && Shape(l, t)
    && (forall b, i :: Live(t, holes, b, i) ==> b == B1(l, HashAt(t, b, i)) || b == B2(l, HashAt(t, b, i)))
    && (forall b, i, b', i' :: Live(t, holes, b, i) && Live(t, holes, b', i') && HashAt(t, b, i) == HashAt(t, b', i') ==> b == b' && i == i')
    && (forall b, i, j :: Live(t, holes, b, i) && j < i ==> !Bears(t, holes, b, j, HashAt(t, b, i)))
    && (forall b, i, j :: Live(t, holes, b, i) && b != B1(l, HashAt(t, b, i)) ==>
          !Bears(t, holes, B1(l, HashAt(t, b, i)), j, HashAt(t, b, i)))
  }

  /** Some slot in use has the hash and the chain. */
  ghost predicate HasChain(t: Table, holes: set<Place>, h: nat, chain: seq<Node>)
  {
    exists b, i :: Live(t, holes, b, i) && t[b][i] == Slot(h, chain)
  }

  // ---- Lookup ----

  /** The chain of the first slot bearing the hash. */
  function FindIn(bucket: Bucket, h: nat): seq<Node>
  {
    if bucket == [] then [] else if bucket[0].hash == h then bucket[0].chain else FindIn(bucket[1..], h)
  }

  function Find(l: Layout, t: Table, h: nat): seq<Node>
    requires Shape(l, t)
  {
    var first := FindIn(t[B1(l, h)], h);
    if first != [] then first else FindIn(t[B2(l, h)], h)
  }

  lemma {:induction false} FindInAt(bucket: Bucket, h: nat, i: nat)
    requires i < |bucket| && bucket[i].hash == h && forall j :: 0 <= j < i ==> bucket[j].hash != h
    ensures FindIn(bucket, h) == bucket[i].chain
  {
    if i > 0 { FindInAt(bucket[1..], h, i - 1); }
  }

  lemma {:induction false} FindInNone(bucket: Bucket, h: nat)
    requires forall j :: 0 <= j < |bucket| ==> bucket[j].hash != h
    ensures FindIn(bucket, h) == []
  {
    if bucket != [] { FindInNone(bucket[1..], h); }
  }

  lemma {:induction false} FoundInBucket(bucket: Bucket, h: nat) returns (i: nat)
    requires FindIn(bucket, h) != []
    ensures i < |bucket| && bucket[i] == Slot(h, FindIn(bucket, h))
  {
    if bucket[0].hash == h {
      i := 0;
    } else {
      i := FoundInBucket(bucket[1..], h);
      i := i + 1;
    }
  }

  /** Lookup finds every chain in use. */
  lemma LiveIsFound(l: Layout, t: Table, b: nat, i: nat)
    requires Inv(l, t, {}) && Live(t, {}, b, i)
    ensures Find(l, t, t[b][i].hash) == t[b][i].chain
  {
    var h := t[b][i].hash;
    assert HashAt(t, b, i) == h;
    forall j | 0 <= j < i ensures t[b][j].hash != h { assert !Bears(t, {}, b, j, h); }
    FindInAt(t[b], h, i);
    if b != B1(l, h) {
      forall j | 0 <= j < |t[B1(l, h)]| ensures t[B1(l, h)][j].hash != h { assert !Bears(t, {}, B1(l, h), j, h); }
      FindInNone(t[B1(l, h)], h);
    }
  }

  lemma FoundIsLive(l: Layout, t: Table, h: nat)
    requires Shape(l, t) && Find(l, t, h) != []
    ensures HasChain(t, {}, h, Find(l, t, h))
  {
    var b := if FindIn(t[B1(l, h)], h) != [] then B1(l, h) else B2(l, h);
    var i := FoundInBucket(t[b], h);
    assert Live(t, {}, b, i);
  }

  /** What lookup finds is what the table holds. */
  lemma FindIsExact(l: Layout, t: Table, h: nat, chain: seq<Node>)
    requires Inv(l, t, {}) && chain != []
    ensures Find(l, t, h) == chain <==> HasChain(t, {}, h, chain)
  {
    if Find(l, t, h) == chain { FoundIsLive(l, t, h); }
    if HasChain(t, {}, h, chain) {
      var b, i :| Live(t, {}, b, i) && t[b][i] == Slot(h, chain);
      LiveIsFound(l, t, b, i);
    }
  }

  /** Tables that hold the same chains of a hash answer alike. */
  lemma SameFind(l: Layout, t: Table, t': Table, h: nat)
    requires Inv(l, t, {}) && Inv(l, t', {})
    requires forall chain :: HasChain(t, {}, h, chain) <==> HasChain(t', {}, h, chain)
    ensures Find(l, t, h) == Find(l, t', h)
  {
    hide HasChain, Find;
    if Find(l, t, h) != [] { FindIsExact(l, t, h, Find(l, t, h)); FindIsExact(l, t', h, Find(l, t, h)); }
    if Find(l, t', h) != [] { FindIsExact(l, t, h, Find(l, t', h)); FindIsExact(l, t', h, Find(l, t', h)); }
  }

  // ---- Contents ----

  function SetSlot(t: Table, b: nat, i: nat, s: Slot): Table
    requires b < |t| && i < |t[b]|
  {
    t[b := t[b][i := s]]
  }

  type Weight = Slot -> nat

  ghost function BucketWeight(bucket: Bucket, w: Weight): nat
  {
    if bucket == [] then 0 else BucketWeight(bucket[..|bucket| - 1], w) + w(bucket[|bucket| - 1])
  }

  /** The sum over all slots of a table. */
  ghost function Total(t: Table, w: Weight): nat
  {
    if t == [] then 0 else Total(t[..|t| - 1], w) + BucketWeight(t[|t| - 1], w)
  }

  function Occurrences(chain: seq<Node>, x: Node): nat
  {
    if chain == [] then 0 else (if chain[0] == x then 1 else 0) + Occurrences(chain[1..], x)
  }

  /** How often a slot holds node `x` with hash `h`. */
  function PairIn(h: nat, x: Node): Weight
  {
    (s: Slot) => if s.hash == h then Occurrences(s.chain, x) else 0
  }

  function Nodes(): Weight { (s: Slot) => |s.chain| }

  /** How often the table holds node `x` with hash `h`. */
  ghost function Count(t: Table, h: nat, x: Node): nat { Total(t, PairIn(h, x)) }

  /** How many nodes the table holds. */
  ghost function Size(t: Table): nat { Total(t, Nodes()) }

  lemma {:induction false} OccurrencesConcat(a: seq<Node>, b: seq<Node>, x: Node)
    ensures Occurrences(a + b, x) == Occurrences(a, x) + Occurrences(b, x)
  {
    if a == [] {
      assert a + b == b;
    } else {
      OccurrencesConcat(a[1..], b, x);
      assert (a + b)[1..] == a[1..] + b;
    }
  }

  lemma {:induction false} BucketWeightUpdate(bucket: Bucket, i: nat, s: Slot, w: Weight)
    requires i < |bucket|
    ensures BucketWeight(bucket[i := s], w) == BucketWeight(bucket, w) - w(bucket[i]) + w(s)
    decreases |bucket|
  {
    var n := |bucket| - 1;
    if i < n {
      BucketWeightUpdate(bucket[..n], i, s, w);
      assert bucket[i := s][..n] == bucket[..n][i := s];
    } else {
      assert bucket[i := s][..n] == bucket[..n];
    }
  }

  lemma {:induction false} TotalUpdate(t: Table, b: nat, bucket: Bucket, w: Weight)
    requires b < |t|
    ensures Total(t[b := bucket], w) == Total(t, w) - BucketWeight(t[b], w) + BucketWeight(bucket, w)
    decreases |t|
  {
    hide BucketWeight;
    var n := |t| - 1;
    if b < n {
      TotalUpdate(t[..n], b, bucket, w);
      assert t[b := bucket][..n] == t[..n][b := bucket];
    } else {
      assert t[b := bucket][..n] == t[..n];
    }
  }

  lemma SetSlotTotal(t: Table, b: nat, i: nat, s: Slot, w: Weight)
    requires b < |t| && i < |t[b]|
    ensures Total(SetSlot(t, b, i, s), w) == Total(t, w) - w(t[b][i]) + w(s)
  {
    BucketWeightUpdate(t[b], i, s, w);
    TotalUpdate(t, b, t[b][i := s], w);
  }
}
