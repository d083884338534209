/** The stores of the writer of a concurrent map, one at a time, and what every
    one of them keeps. */
module ConcurrentWriter {
  import opened CuckooTable
  import opened CuckooInsert
  import opened ConcurrentTable

  // ---- The invariant ----

  /** Slots outside the one being set point to nodes of their hash. */
  ghost predicate SlotsSorted(t: Buckets, w: Writer, hashOf: map<nat, nat>)
  {
    forall b, i :: 0 <= b < |t| && 0 <= i < |t[b].slots| && !(w.Setting? && Place(b, i) == w.p) && t[b].slots[i].ptr != NULL ==>
      t[b].slots[i].ptr in hashOf && hashOf[t[b].slots[i].ptr] == t[b].slots[i].hash
  }

  /** A counter is odd just while its bucket is being set. */
  ghost predicate Parity(t: Buckets, w: Writer)
  {
    forall b :: 0 <= b < |t| ==> (t[b].counter % 2 == 1 <==> w.Setting? && w.p.b == b)
  }

  /** What the writer relies on between its stores. */
  ghost predicate WriterOk(l: Layout, t: Buckets, w: Writer, hashOf: map<nat, nat>)
    requires l.Ok()
  {
    match w
    case Idle => true
    case Hole(p) => In(t, p) && At(t, p).ptr != NULL && Copied(t, p)
    case Setting(p, slot, phase, after) =>
      && In(t, p) && 1 <= phase <= 3 && slot.ptr in hashOf && hashOf[slot.ptr] == slot.hash && slot.ptr != NULL
      && (phase >= 2 ==> At(t, p).ptr == slot.ptr) && (phase >= 3 ==> At(t, p).hash == slot.hash)
      && Fits(l, TableOf(t), Holes(after) + {p}, p, slot.hash)
      && (after.Idle? || (after.Hole? && after.p != p && In(t, after.p) && At(t, after.p) == slot))
  }

  /** Some other place has the content of place `p`. */
  ghost predicate Copied(t: Buckets, p: Place)
    requires In(t, p)
  {
    exists q :: q != p && In(t, q) && At(t, q) == At(t, p)
  }

  ghost predicate SysInv(l: Layout, s: State)
  {
    && Inv(l, TableOf(s.t), Holes(s.w)) && Sorted(s.next, s.hashOf)
    && SlotsSorted(s.t, s.w, s.hashOf) && Parity(s.t, s.w) && WriterOk(l, s.t, s.w, s.hashOf)
  }

  // ---- The steps ----

  /** Stores of the writer.  A new node's own pointer is set before the node can
      be reached, so that store is part of the one that publishes it. */
  datatype Step =
    | Dup(p: Place, y: nat)            // cmap_insert_dup
    | UnlinkFirst(p: Place)            // cmap_replace__ without a replacement
    | UnlinkAfter(u: nat)
    | ReplaceFirst(p: Place, y: nat)   // cmap_replace__
    | ReplaceAfter(u: nat, y: nat)
    | StartNew(p: Place, h: nat, y: nat)   // cmap_set_bucket with a new node
    | StartMove(p: Place, q: Place)        // cmap_set_bucket with a displaced node
    | StorePtr
    | StoreHash
    | Finish

  ghost predicate Fresh(s: State, y: nat) { y != NULL && y !in s.hashOf }

  /** The place is free to be set: empty, or a hole already. */
  ghost predicate Free(s: State, p: Place)
  {
    In(s.t, p) && ((s.w.Idle? && At(s.t, p).ptr == NULL) || s.w == Hole(p))
  }

  ghost predicate Guard(l: Layout, s: State, step: Step)
    requires l.Ok()
  {
    match step
    case Dup(p, y) =>
      s.w.Idle? && In(s.t, p) && Fresh(s, y)
      && var h, t := At(s.t, p).hash, TableOf(s.t);
         NoneBears(t, {}, p.b, p.i, h) && (p.b == B1(l, h) || (p.b == B2(l, h) && NoneBears(t, {}, B1(l, h), l.k, h)))
    case UnlinkFirst(p) => s.w.Idle? && In(s.t, p) && At(s.t, p).ptr != NULL
    case UnlinkAfter(u) => s.w.Idle? && u in s.hashOf && NextOf(s.next, u) != NULL
    case ReplaceFirst(p, y) => s.w.Idle? && In(s.t, p) && At(s.t, p).ptr != NULL && Fresh(s, y)
    case ReplaceAfter(u, y) => s.w.Idle? && u in s.hashOf && NextOf(s.next, u) != NULL && Fresh(s, y)
    case StartNew(p, h, y) => Free(s, p) && Fresh(s, y) && Fits(l, TableOf(s.t), {p}, p, h)
    case StartMove(p, q) => Free(s, p) && CanMove(l, TableOf(s.t), p, q)
    case StorePtr => s.w.Setting? && s.w.phase == 1
    case StoreHash => s.w.Setting? && s.w.phase == 2
    case Finish => s.w.Setting? && s.w.phase == 3
  }

  ghost predicate Valid(l: Layout, s: State, step: Step)
  {
    SysInv(l, s) && Guard(l, s, step)
  }

  /** The state after the step. */
  ghost function Apply(l: Layout, s: State, step: Step): State
    requires Valid(l, s, step)
  {
    match step
    case Dup(p, y) =>
      var slot := At(s.t, p);
      State(Store(s.t, p, CSlot(slot.hash, y)), s.next[y := slot.ptr], s.hashOf[y := slot.hash], s.w)
    case UnlinkFirst(p) =>
      s.(t := Store(s.t, p, CSlot(At(s.t, p).hash, NextOf(s.next, At(s.t, p).ptr))))
    case UnlinkAfter(u) =>
      s.(next := s.next[u := NextOf(s.next, NextOf(s.next, u))])
    case ReplaceFirst(p, y) =>
      var slot := At(s.t, p);
      State(Store(s.t, p, CSlot(slot.hash, y)), s.next[y := NextOf(s.next, slot.ptr)], s.hashOf[y := slot.hash], s.w)
    case ReplaceAfter(u, y) =>
      s.(next := s.next[y := NextOf(s.next, NextOf(s.next, u))][u := y], hashOf := s.hashOf[y := s.hashOf[u]])
    case StartNew(p, h, y) =>
      State(Tick(s.t, p.b), s.next[y := NULL], s.hashOf[y := h], Setting(p, CSlot(h, y), 1, Idle))
    case StartMove(p, q) =>
      s.(t := Tick(s.t, p.b), w := Setting(p, At(s.t, q), 1, Hole(q)))
    case StorePtr =>
      s.(t := Store(s.t, s.w.p, CSlot(At(s.t, s.w.p).hash, s.w.slot.ptr)), w := s.w.(phase := 2))
    case StoreHash =>
      s.(t := Store(s.t, s.w.p, CSlot(s.w.slot.hash, At(s.t, s.w.p).ptr)), w := s.w.(phase := 3))
    case Finish =>
      s.(t := Tick(s.t, s.w.p.b), w := s.w.after)
  }

  /** The node that the step takes out of the map, if any. */
  ghost function Removed(l: Layout, s: State, step: Step): nat
    requires Valid(l, s, step)
  {
    match step
    case UnlinkFirst(p) => At(s.t, p).ptr
    case ReplaceFirst(p, _) => At(s.t, p).ptr
    case UnlinkAfter(u) => NextOf(s.next, u)
    case ReplaceAfter(u, _) => NextOf(s.next, u)
    case _ => NULL
  }

  // ---- Every step keeps the invariant ----

  lemma HoleStoreLive(t: Table, holes: set<Place>, p: Place, x: Slot, b: int, i: int, g: nat)
    requires InTable(t, p) && p in holes
    ensures var t' := SetSlot(t, p.b, p.i, x);
            && Live(t', holes, b, i) == Live(t, holes, b, i) && Bears(t', holes, b, i, g) == Bears(t, holes, b, i, g)
            && (Live(t, holes, b, i) ==> HashAt(t', b, i) == HashAt(t, b, i))
  {
  }

  /** What is in a hole does not matter. */
  lemma HoleStore(l: Layout, t: Table, holes: set<Place>, p: Place, x: Slot)
    requires Inv(l, t, holes) && InTable(t, p) && p in holes
    ensures Inv(l, SetSlot(t, p.b, p.i, x), holes)
  {
    hide Live, Bears, HashAt;
    var t' := SetSlot(t, p.b, p.i, x);
    forall b, i, g: nat
      ensures Live(t', holes, b, i) == Live(t, holes, b, i) && Bears(t', holes, b, i, g) == Bears(t, holes, b, i, g)
      ensures Live(t, holes, b, i) ==> HashAt(t', b, i) == HashAt(t, b, i)
    {
      HoleStoreLive(t, holes, p, x, b, i, g);
    }
    forall b, i ensures Live(t', holes, b, i) == Live(t, holes, b, i)
                ensures Live(t, holes, b, i) ==> HashAt(t', b, i) == HashAt(t, b, i)
    {
      HoleStoreLive(t, holes, p, x, b, i, 0);
    }
  }

  lemma HoleStoreFits(l: Layout, t: Table, holes: set<Place>, p: Place, h: nat, x: Slot)
    requires l.Ok() && Fits(l, t, holes, p, h) && p in holes
    ensures Fits(l, SetSlot(t, p.b, p.i, x), holes, p, h)
  {
    hide Live, Bears, HashAt;
    var t' := SetSlot(t, p.b, p.i, x);
    forall b, i | Live(t', holes, b, i) ensures HashAt(t', b, i) != h { HoleStoreLive(t, holes, p, x, b, i, h); }
    forall j | 0 <= j < p.i ensures !Bears(t', holes, p.b, j, h) { HoleStoreLive(t, holes, p, x, p.b, j, h); }
    forall j | 0 <= j < l.k ensures Bears(t', holes, B1(l, h), j, h) == Bears(t, holes, B1(l, h), j, h) {
      HoleStoreLive(t, holes, p, x, B1(l, h), j, h);
    }
  }

  /** A new node is added to those known, with its pointer. */
  lemma SortedAdd(next: Next, hashOf: map<nat, nat>, y: nat, v: nat, h: nat)
    requires Sorted(next, hashOf) && y != NULL && y !in hashOf && (v == NULL || (v in hashOf && hashOf[v] == h))
    ensures Sorted(next[y := v], hashOf[y := h])
  {
    var next', hashOf' := next[y := v], hashOf[y := h];
    forall x | x in hashOf' ensures PointsWell(next', hashOf', x) {
      if x != y { assert PointsWell(next, hashOf, x); }
    }
  }

  lemma SortedSet(next: Next, hashOf: map<nat, nat>, u: nat, v: nat)
    requires Sorted(next, hashOf) && u in hashOf && (v == NULL || (v in hashOf && hashOf[v] == hashOf[u]))
    ensures Sorted(next[u := v], hashOf)
  {
    var next' := next[u := v];
    forall x | x in hashOf ensures PointsWell(next', hashOf, x) { assert PointsWell(next, hashOf, x); }
  }

  /** Storing a pointer into a slot, outside cmap_set_bucket. */
  lemma SlotStore(l: Layout, s: State, p: Place, ptr: nat, hashOf: map<nat, nat>)
    requires SysInv(l, s) && s.w.Idle? && In(s.t, p) && Fits(l, TableOf(s.t), {p}, p, At(s.t, p).hash)
    requires forall x :: x in s.hashOf ==> x in hashOf && hashOf[x] == s.hashOf[x]
    requires ptr == NULL || (ptr in hashOf && hashOf[ptr] == At(s.t, p).hash)
    ensures var t' := Store(s.t, p, CSlot(At(s.t, p).hash, ptr));
            Inv(l, TableOf(t'), {}) && SlotsSorted(t', Idle, hashOf) && Parity(t', Idle)
  {
    hide Inv, Fits;
    var h := At(s.t, p).hash;
    var slot := AsSlot(CSlot(h, ptr));
    StoreTable(s.t, p, CSlot(h, ptr));
    assert {} + {p} == {p} && {p} - {p} == {};
    MoreHoles(l, TableOf(s.t), {}, p);
    ValidShape(l, TableOf(s.t), {});
    FillHole(l, TableOf(s.t), {p}, p, h, slot.chain);
  }

  lemma DupKeeps(l: Layout, s: State, step: Step)
    requires Valid(l, s, step) && step.Dup?
    ensures SysInv(l, Apply(l, s, step))
  {
    hide Inv, Fits, TableOf, Sorted, Parity, NoneBears;
    var p, h := step.p, At(s.t, step.p).hash;
    InTableOf(s.t, p);
    BearerFits(l, TableOf(s.t), p, h);
    SortedAdd(s.next, s.hashOf, step.y, At(s.t, p).ptr, h);
    SlotStore(l, s, p, step.y, s.hashOf[step.y := h]);
  }

  lemma InTableOf(t: Buckets, p: Place)
    ensures In(t, p) == InTable(TableOf(t), p)
    ensures In(t, p) ==> TableOf(t)[p.b][p.i] == AsSlot(At(t, p)) && HashAt(TableOf(t), p.b, p.i) == At(t, p).hash
  {
  }

  lemma FirstKeeps(l: Layout, s: State, step: Step)
    requires Valid(l, s, step) && (step.UnlinkFirst? || step.ReplaceFirst?)
    ensures SysInv(l, Apply(l, s, step))
  {
    hide Inv, Fits, TableOf, Parity;
    var p, slot := step.p, At(s.t, step.p);
    InTableOf(s.t, p);
    CountsIsLive(s, p.b, p.i);
    LiveFits(l, TableOf(s.t), p);
    assert slot.ptr in s.hashOf && s.hashOf[slot.ptr] == slot.hash;
    if step.UnlinkFirst? {
      SlotStore(l, s, p, NextOf(s.next, slot.ptr), s.hashOf);
    } else {
      SortedAdd(s.next, s.hashOf, step.y, NextOf(s.next, slot.ptr), slot.hash);
      SlotStore(l, s, p, step.y, s.hashOf[step.y := slot.hash]);
    }
  }

  lemma AfterKeeps(l: Layout, s: State, step: Step)
    requires Valid(l, s, step) && (step.UnlinkAfter? || step.ReplaceAfter?)
    ensures SysInv(l, Apply(l, s, step))
  {
    hide Inv, Fits, TableOf, Parity;
    var u := step.u;
    var x := NextOf(s.next, u);
    if step.UnlinkAfter? {
      SortedSet(s.next, s.hashOf, u, NextOf(s.next, x));
    } else {
      SortedAdd(s.next, s.hashOf, step.y, NextOf(s.next, x), s.hashOf[u]);
      SortedSet(s.next[step.y := NextOf(s.next, x)], s.hashOf[step.y := s.hashOf[u]], u, step.y);
    }
  }

  /** A free place can be made a hole. */
  lemma FreeIsHole(l: Layout, s: State, p: Place)
    requires SysInv(l, s) && Free(s, p)
    ensures Inv(l, TableOf(s.t), {p})
  {
    assert {} + {p} == {p};
    if s.w.Idle? { MoreHoles(l, TableOf(s.t), {}, p); }
  }

  /** Starting to set a bucket makes its counter odd. */
  lemma TickParity(l: Layout, s: State, p: Place, slot: CSlot, after: Writer)
    requires SysInv(l, s) && Free(s, p)
    ensures Parity(Tick(s.t, p.b), Setting(p, slot, 1, after))
  {
    hide Inv, Fits, TableOf, Sorted, SlotsSorted;
  }

  lemma TickSorted(l: Layout, s: State, p: Place, slot: CSlot, after: Writer, hashOf: map<nat, nat>)
    requires SysInv(l, s) && Free(s, p) && forall x :: x in s.hashOf ==> x in hashOf && hashOf[x] == s.hashOf[x]
    ensures SlotsSorted(Tick(s.t, p.b), Setting(p, slot, 1, after), hashOf)
  {
    hide Inv, Fits, TableOf, Sorted, Parity;
  }

  lemma StartNewKeeps(l: Layout, s: State, step: Step)
    requires Valid(l, s, step) && step.StartNew?
    ensures SysInv(l, Apply(l, s, step))
  {
    hide Inv, Fits, TableOf, Sorted, Parity, SlotsSorted;
    var p := step.p;
    TickTable(s.t, p.b);
    FreeIsHole(l, s, p);
    TickParity(l, s, p, CSlot(step.h, step.y), Idle);
    TickSorted(l, s, p, CSlot(step.h, step.y), Idle, s.hashOf[step.y := step.h]);
    SortedAdd(s.next, s.hashOf, step.y, NULL, step.h);
    assert {} + {p} == {p};
  }

  lemma StartMoveKeeps(l: Layout, s: State, step: Step)
    requires Valid(l, s, step) && step.StartMove?
    ensures SysInv(l, Apply(l, s, step))
  {
    hide Inv, Fits, TableOf, Sorted, CanMove, Parity, SlotsSorted;
    var p := step.p;
    TickTable(s.t, p.b);
    FreeIsHole(l, s, p);
    SourceOk(l, s, p, step.q);
    TickParity(l, s, p, At(s.t, step.q), Hole(step.q));
    TickSorted(l, s, p, At(s.t, step.q), Hole(step.q), s.hashOf);
    MoveFits(l, TableOf(s.t), p, step.q);
    assert {step.q} + {p} == {p, step.q};
  }

  lemma SourceOk(l: Layout, s: State, p: Place, q: Place)
    requires SysInv(l, s) && Free(s, p) && CanMove(l, TableOf(s.t), p, q)
    ensures q != p && In(s.t, q) && At(s.t, q).ptr != NULL && HashAt(TableOf(s.t), q.b, q.i) == At(s.t, q).hash
    ensures At(s.t, q).ptr in s.hashOf && s.hashOf[At(s.t, q).ptr] == At(s.t, q).hash
  {
    hide Inv;
    InTableOf(s.t, q);
    assert TableOf(s.t)[q.b][q.i].chain != [];
    assert s.t[q.b].slots[q.i].ptr != NULL;
  }

  lemma StoreKeeps(l: Layout, s: State, step: Step)
    requires Valid(l, s, step) && (step.StorePtr? || step.StoreHash?)
    ensures SysInv(l, Apply(l, s, step))
  {
    hide Inv, Fits, TableOf, Sorted;
    var p := s.w.p;
    InTableOf(s.t, p);
    var slot := if step.StorePtr? then CSlot(At(s.t, p).hash, s.w.slot.ptr) else CSlot(s.w.slot.hash, At(s.t, p).ptr);
    StoreTable(s.t, p, slot);
    HoleStore(l, TableOf(s.t), {p}, p, AsSlot(slot));
    ValidShape(l, TableOf(s.t), {p});
    HoleStoreFits(l, TableOf(s.t), Holes(s.w.after) + {p}, p, s.w.slot.hash, AsSlot(slot));
  }

  lemma FinishKeeps(l: Layout, s: State, step: Step)
    requires Valid(l, s, step) && step.Finish?
    ensures SysInv(l, Apply(l, s, step))
  {
    hide Inv, Fits, TableOf, Sorted;
    var p, t := s.w.p, TableOf(s.t);
    InTableOf(s.t, p);
    TickTable(s.t, p.b);
    ValidShape(l, t, {p});
    var holes := Holes(s.w.after) + {p};
    assert Inv(l, t, holes) by {
      if s.w.after.Hole? {
        MoreHoles(l, t, {p}, s.w.after.p);
        assert {p} + {s.w.after.p} == holes;
      } else {
        assert holes == {p};
      }
    }
    FillHole(l, t, holes, p, s.w.slot.hash, AsSlot(s.w.slot).chain);
    assert holes - {p} == Holes(s.w.after);
    assert At(s.t, p) == s.w.slot && t[p.b][p.i := t[p.b][p.i]] == t[p.b];
    assert SetSlot(t, p.b, p.i, AsSlot(s.w.slot)) == t;
    if s.w.after.Hole? {
      var t' := Tick(s.t, p.b);
      assert p != s.w.after.p && In(t', p) && At(t', p) == At(t', s.w.after.p);
    }
  }

  /** Every step keeps the invariant. */
  lemma StepKeepsInv(l: Layout, s: State, step: Step)
    requires Valid(l, s, step)
    ensures SysInv(l, Apply(l, s, step))
  {
    hide SysInv, Guard, Apply;
    match step
    case Dup(_, _) => DupKeeps(l, s, step);
    case UnlinkFirst(_) => FirstKeeps(l, s, step);
    case ReplaceFirst(_, _) => FirstKeeps(l, s, step);
    case UnlinkAfter(_) => AfterKeeps(l, s, step);
    case ReplaceAfter(_, _) => AfterKeeps(l, s, step);
    case StartNew(_, _, _) => StartNewKeeps(l, s, step);
    case StartMove(_, _) => StartMoveKeeps(l, s, step);
    case StorePtr => StoreKeeps(l, s, step);
    case StoreHash => StoreKeeps(l, s, step);
    case Finish => FinishKeeps(l, s, step);
  }
}
