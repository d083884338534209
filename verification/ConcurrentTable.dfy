/** The cuckoo table as its one writer changes it store by store while readers
    look: buckets with a change counter, slots with a hash and a pointer, nodes
    with a `next` pointer.  Stores are sequentially consistent, counters
    unbounded, and a node is inserted at most once. */
module ConcurrentTable {
  import opened CuckooTable

  const NULL: nat := 0

  datatype CSlot = CSlot(hash: nat, ptr: nat)
  datatype CBucket = CBucket(counter: nat, slots: seq<CSlot>)

  /** Between operations; between two bucket changes of a displacement, with a
      place whose content has been copied on; or inside cmap_set_bucket, which
      has done `phase` of its stores and goes on as `after`. */
  datatype Writer = Idle | Hole(p: Place) | Setting(p: Place, slot: CSlot, phase: nat, after: Writer)

  type Next = map<nat, nat>
  type Buckets = seq<CBucket>

  /** `hashOf` has every node that was ever inserted. */
  datatype State = State(t: Buckets, next: Next, hashOf: map<nat, nat>, w: Writer)

  // ---- Following pointers ----

  function NextOf(next: Next, x: nat): nat { if x in next then next[x] else NULL }

  ghost predicate IsPath(next: Next, path: seq<nat>)
  {
    path != [] && path[0] != NULL && (|path| > 1 ==> path[1] == NextOf(next, path[0]) && IsPath(next, path[1..]))
  }

  /** Node `z` is on the chain that starts at `r`. */
  ghost predicate Reach(next: Next, r: nat, z: nat)
  {
    exists path :: IsPath(next, path) && path[0] == r && path[|path| - 1] == z
  }

  lemma ReachHere(next: Next, r: nat)
    requires r != NULL
    ensures Reach(next, r, r)
  {
    assert IsPath(next, [r]) && [r][0] == r;
  }

  lemma ReachOn(next: Next, r: nat, z: nat)
    requires r != NULL && Reach(next, NextOf(next, r), z)
    ensures Reach(next, r, z)
  {
    var path :| IsPath(next, path) && path[0] == NextOf(next, r) && path[|path| - 1] == z;
    var longer := [r] + path;
    assert longer[1..] == path;
    assert IsPath(next, longer) && longer[0] == r && longer[|longer| - 1] == z;
  }

  lemma ReachRest(next: Next, r: nat, z: nat)
    requires Reach(next, r, z) && r != z
    ensures NextOf(next, r) != NULL && Reach(next, NextOf(next, r), z)
  {
    var path :| IsPath(next, path) && path[0] == r && path[|path| - 1] == z;
    assert IsPath(next, path[1..]) && path[1..][|path| - 2] == z;
  }

  lemma ReachNotNull(next: Next, r: nat, z: nat)
    requires Reach(next, r, z)
    ensures r != NULL
  {
  }

  /** The pointer of node `v` is as before, or skips `x`, or goes to `y`, which
      has taken the place of `x`. */
  predicate Kept(next: Next, next': Next, v: nat, x: nat, y: nat)
  {
    || NextOf(next', v) == NextOf(next, v)
    || (NextOf(next, v) == x && NextOf(next', v) == NextOf(next, x))
    || (NextOf(next, v) == x && NextOf(next', v) == y && y != NULL && NextOf(next', y) == NextOf(next, x))
  }

  /** Taking `x` out of a chain, or replacing it by the new node `y`, keeps every
      other node reachable from wherever it was, removed nodes included. */
  lemma {:induction false} PathKept(next: Next, next': Next, path: seq<nat>, x: nat, y: nat)
    requires IsPath(next, path) && path[|path| - 1] != x && y !in path
    requires forall v :: v != y ==> Kept(next, next', v, x, y)
    ensures Reach(next', path[0], path[|path| - 1])
    decreases |path|
  {
    var v, z := path[0], path[|path| - 1];
    if |path| == 1 {
      ReachHere(next', v);
    } else {
      assert Kept(next, next', v, x, y);
      if NextOf(next', v) == NextOf(next, v) {
        PathKept(next, next', path[1..], x, y);
        ReachOn(next', v, z);
      } else {
        assert path[1] == x && |path| > 2;
        assert IsPath(next, path[1..]) && path[1..][1] == path[2] && path[1..][1..] == path[2..];
        PathKept(next, next', path[2..], x, y);
        if NextOf(next', v) != NextOf(next, x) { ReachOn(next', y, z); }
        ReachOn(next', v, z);
      }
    }
  }

  // ---- Hashes of nodes ----

  /** Pointers lead to inserted nodes of the same hash. */
  ghost predicate Sorted(next: Next, hashOf: map<nat, nat>)
  {
    && NULL !in hashOf
    && (forall x :: x in next ==> x in hashOf)
    && (forall x :: x in hashOf ==> PointsWell(next, hashOf, x))
  }

  ghost predicate PointsWell(next: Next, hashOf: map<nat, nat>, x: nat)
  {
    var v := NextOf(next, x);
    x in hashOf && (v == NULL || (v in hashOf && hashOf[v] == hashOf[x]))
  }

  lemma {:induction false} PathHash(next: Next, hashOf: map<nat, nat>, path: seq<nat>)
    requires Sorted(next, hashOf) && IsPath(next, path) && path[0] in hashOf
    ensures forall v :: v in path ==> v in hashOf && hashOf[v] == hashOf[path[0]]
    decreases |path|
  {
    if |path| > 1 { PathHash(next, hashOf, path[1..]); }
  }

  /** Every node of a chain has the hash of its first. */
  lemma ReachHash(next: Next, hashOf: map<nat, nat>, r: nat, z: nat)
    requires Sorted(next, hashOf) && r in hashOf && Reach(next, r, z)
    ensures z in hashOf && hashOf[z] == hashOf[r]
  {
    var path :| IsPath(next, path) && path[0] == r && path[|path| - 1] == z;
    PathHash(next, hashOf, path);
    assert path[|path| - 1] in path;
  }

  lemma ReachKept(next: Next, next': Next, hashOf: map<nat, nat>, r: nat, z: nat, x: nat, y: nat)
    requires Sorted(next, hashOf) && r in hashOf && Reach(next, r, z) && z != x && y !in hashOf
    requires forall v :: v != y ==> Kept(next, next', v, x, y)
    ensures Reach(next', r, z)
  {
    var path :| IsPath(next, path) && path[0] == r && path[|path| - 1] == z;
    PathHash(next, hashOf, path);
    PathKept(next, next', path, x, y);
  }

  // ---- The table a state stands for ----

  function AsSlot(s: CSlot): Slot { Slot(s.hash, if s.ptr == NULL then [] else [s.ptr]) }

  function TableOf(t: Buckets): (r: Table)
    ensures |r| == |t| && forall b :: 0 <= b < |t| ==> |r[b]| == |t[b].slots|
    ensures forall b, i :: 0 <= b < |t| && 0 <= i < |t[b].slots| ==> r[b][i] == AsSlot(t[b].slots[i])
  {
    seq(|t|, b requires 0 <= b < |t| => seq(|t[b].slots|, i requires 0 <= i < |t[b].slots| => AsSlot(t[b].slots[i])))
  }

  predicate In(t: Buckets, p: Place) { 0 <= p.b < |t| && 0 <= p.i < |t[p.b].slots| }

  function At(t: Buckets, p: Place): CSlot
    requires In(t, p)
  {
    t[p.b].slots[p.i]
  }

  function Counter(t: Buckets, b: int): nat { if 0 <= b < |t| then t[b].counter else 0 }

  function Store(t: Buckets, p: Place, s: CSlot): Buckets
    requires In(t, p)
  {
    t[p.b := CBucket(t[p.b].counter, t[p.b].slots[p.i := s])]
  }

  function Tick(t: Buckets, b: nat): Buckets
    requires b < |t|
  {
    t[b := CBucket(t[b].counter + 1, t[b].slots)]
  }

  lemma StoreTable(t: Buckets, p: Place, s: CSlot)
    requires In(t, p)
    ensures TableOf(Store(t, p, s)) == SetSlot(TableOf(t), p.b, p.i, AsSlot(s))
  {
    var a, b := TableOf(Store(t, p, s)), SetSlot(TableOf(t), p.b, p.i, AsSlot(s));
    forall x | 0 <= x < |a| ensures a[x] == b[x] {
      assert |a[x]| == |b[x]|;
      forall i | 0 <= i < |a[x]| ensures a[x][i] == b[x][i] {}
    }
  }

  lemma TickTable(t: Buckets, b: nat)
    requires b < |t|
    ensures TableOf(Tick(t, b)) == TableOf(t)
  {
    forall x | 0 <= x < |t| ensures TableOf(Tick(t, b))[x] == TableOf(t)[x] {}
  }

  function Holes(w: Writer): set<Place> { if w.Idle? then {} else {w.p} }

  /** The place counts: it is in use and its content has not been copied on. */
  ghost predicate Counts(s: State, b: int, i: int)
  {
    0 <= b < |s.t| && 0 <= i < |s.t[b].slots| && Place(b, i) !in Holes(s.w) && s.t[b].slots[i].ptr != NULL
  }

  lemma CountsIsLive(s: State, b: int, i: int)
    ensures Counts(s, b, i) == Live(TableOf(s.t), Holes(s.w), b, i)
    ensures Counts(s, b, i) ==> HashAt(TableOf(s.t), b, i) == s.t[b].slots[i].hash
  {
  }

  /** Node `z` is in the map with hash `g`. */
  ghost predicate Present(s: State, g: nat, z: nat)
  {
    exists b, i :: Counts(s, b, i) && s.t[b].slots[i].hash == g && Reach(s.next, s.t[b].slots[i].ptr, z)
  }

  /** Bucket `b` has the place of hash `g`. */
  ghost predicate InBucket(s: State, g: nat, b: int)
  {
    exists i :: Counts(s, b, i) && s.t[b].slots[i].hash == g
  }
}
