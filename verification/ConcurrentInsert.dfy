/** The bucket changes of an insertion by displacement are steps of the concurrent
    writer: the route that the breadth-first search finds can be taken store by
    store with readers at work. */
module ConcurrentInsert {
  import opened CuckooTable
  import opened CuckooInsert
  import opened CuckooSearch
  import opened ConcurrentTable
  import W = ConcurrentWriter

  /** The four stores of cmap_set_bucket, from its start to its end. */
  lemma SetBucketRuns(l: Layout, s: State, step: W.Step, slot: CSlot, after: Writer)
    returns (s1: State, s2: State, s3: State, s4: State)
    requires W.Valid(l, s, step) && (step.StartNew? || step.StartMove?)
    requires W.Apply(l, s, step).w == Setting(step.p, slot, 1, after)
    ensures s1 == W.Apply(l, s, step) && W.Valid(l, s1, W.StorePtr) && s2 == W.Apply(l, s1, W.StorePtr)
    ensures W.Valid(l, s2, W.StoreHash) && s3 == W.Apply(l, s2, W.StoreHash)
    ensures W.Valid(l, s3, W.Finish) && s4 == W.Apply(l, s3, W.Finish) && W.SysInv(l, s4)
    ensures s4.w == after && InTable(TableOf(s.t), step.p) && (step.StartMove? ==> s4.hashOf == s.hashOf)
    ensures TableOf(s4.t) == SetSlot(TableOf(s.t), step.p.b, step.p.i, AsSlot(slot))
  {
    hide W.SysInv, Fits, CanMove, TableOf;
    W.InTableOf(s.t, step.p);
    s1 := W.Apply(l, s, step);
    W.StepKeepsInv(l, s, step);
    TickTable(s.t, step.p.b);
    SettingIsIn(l, s1);
    s2 := W.Apply(l, s1, W.StorePtr);
    W.StepKeepsInv(l, s1, W.StorePtr);
    StoreTable(s1.t, step.p, CSlot(At(s1.t, step.p).hash, slot.ptr));
    SettingIsIn(l, s2);
    s3 := W.Apply(l, s2, W.StoreHash);
    W.StepKeepsInv(l, s2, W.StoreHash);
    StoreTable(s2.t, step.p, CSlot(slot.hash, At(s2.t, step.p).ptr));
    s4 := W.Apply(l, s3, W.Finish);
    W.StepKeepsInv(l, s3, W.Finish);
    TickTable(s3.t, step.p.b);
    SetTwice(TableOf(s.t), step.p, AsSlot(CSlot(At(s1.t, step.p).hash, slot.ptr)), AsSlot(slot));
  }

  lemma SettingIsIn(l: Layout, s: State)
    requires W.SysInv(l, s) && s.w.Setting?
    ensures In(s.t, s.w.p)
  {
  }

  lemma SetTwice(t: Table, p: Place, x: Slot, y: Slot)
    requires InTable(t, p)
    ensures SetSlot(SetSlot(t, p.b, p.i, x), p.b, p.i, y) == SetSlot(t, p.b, p.i, y)
  {
    assert t[p.b][p.i := x][p.i := y] == t[p.b][p.i := y];
  }

  lemma RouteCanMove(l: Layout, t0: Table, bs: seq<nat>, slots: seq<nat>, m: nat, h: nat, t: Table)
    requires Inv(l, t0, {}) && Route(l, t0, bs, slots) && 0 < m < |bs| && Moved(l, t0, bs, slots, m, h, t)
    ensures CanMove(l, t, Place(bs[m], slots[m]), Place(bs[m - 1], slots[m - 1]))
  {
    hide Inv, HasChain, Balanced, Absent;
    assert Full(t0, bs[m - 1]) && bs[m] == Step(l, t0, bs[m - 1], slots[m - 1]);
    StillFull(l, t0, t, Place(bs[m - 1], slots[m - 1]));
    ValidShape(l, t, {Place(bs[m], slots[m])});
  }

  // ---- Runs of the writer ----

  ghost predicate WriterRun(l: Layout, states: seq<State>, steps: seq<W.Step>)
  {
    && |states| == |steps| + 1
    && forall k :: 0 <= k < |steps| ==> W.Valid(l, states[k], steps[k]) && states[k + 1] == W.Apply(l, states[k], steps[k])
  }

  /** A store of cmap_set_bucket. */
  predicate SetsBucket(step: W.Step) { step.StartNew? || step.StartMove? || step.StorePtr? || step.StoreHash? || step.Finish? }

  ghost predicate OnlySets(steps: seq<W.Step>) { forall k :: 0 <= k < |steps| ==> SetsBucket(steps[k]) }

  /** The stores of cmap_set_bucket that the given one begins. */
  function BucketSteps(first: W.Step): seq<W.Step> { [first, W.StorePtr, W.StoreHash, W.Finish] }

  /** The moves along a route, from place `m` back to its start. */
  function MoveSteps(bs: seq<nat>, slots: seq<nat>, m: nat): seq<W.Step>
    requires m < |bs| == |slots|
  {
    if m == 0 then []
    else BucketSteps(W.StartMove(Place(bs[m], slots[m]), Place(bs[m - 1], slots[m - 1]))) + MoveSteps(bs, slots, m - 1)
  }

  /** All stores of a displacement and of the new node after it. */
  function RouteSteps(bs: seq<nat>, slots: seq<nat>, h: nat, y: nat): seq<W.Step>
    requires |bs| == |slots| >= 1
  {
    MoveSteps(bs, slots, |bs| - 1) + BucketSteps(W.StartNew(Place(bs[0], slots[0]), h, y))
  }

  lemma RunThen(l: Layout, states: seq<State>, steps: seq<W.Step>, states': seq<State>, steps': seq<W.Step>)
    requires WriterRun(l, states, steps) && WriterRun(l, states', steps') && states[|steps|] == states'[0]
    requires OnlySets(steps) && OnlySets(steps')
    ensures WriterRun(l, states + states'[1..], steps + steps') && OnlySets(steps + steps')
    ensures (states + states'[1..])[0] == states[0] && (states + states'[1..])[|steps + steps'|] == states'[|steps'|]
  {
    hide W.Valid, W.Apply;
    var all, s := states + states'[1..], steps + steps';
    forall k | 0 <= k < |s| ensures W.Valid(l, all[k], s[k]) && all[k + 1] == W.Apply(l, all[k], s[k]) {
      if k >= |steps| { assert all[k] == states'[k - |steps|] && s[k] == steps'[k - |steps|]; }
    }
  }

  /** cmap_set_bucket as a run. */
  lemma SetBucketSteps(l: Layout, s: State, step: W.Step, slot: CSlot, after: Writer) returns (states: seq<State>, steps: seq<W.Step>)
    requires W.Valid(l, s, step) && (step.StartNew? || step.StartMove?)
    requires W.Apply(l, s, step).w == Setting(step.p, slot, 1, after)
    ensures WriterRun(l, states, steps) && OnlySets(steps) && steps == BucketSteps(step) && states[0] == s && W.SysInv(l, states[|steps|])
    ensures states[|steps|].w == after && InTable(TableOf(s.t), step.p) && (step.StartMove? ==> states[|steps|].hashOf == s.hashOf)
    ensures TableOf(states[|steps|].t) == SetSlot(TableOf(s.t), step.p.b, step.p.i, AsSlot(slot))
  {
    hide W.Valid, W.Apply, TableOf, W.SysInv;
    var s1, s2, s3, s4 := SetBucketRuns(l, s, step, slot, after);
    states, steps := [s, s1, s2, s3, s4], [step, W.StorePtr, W.StoreHash, W.Finish];
  }

  /** Each move along the route is allowed, and leaves the next to be done. */
  lemma MoveIsLegal(l: Layout, t0: Table, bs: seq<nat>, slots: seq<nat>, m: nat, h: nat, s: State)
    returns (states: seq<State>, steps: seq<W.Step>)
    requires Inv(l, t0, {}) && Route(l, t0, bs, slots) && 0 < m < |bs|
    requires W.SysInv(l, s) && W.Free(s, Place(bs[m], slots[m])) && Moved(l, t0, bs, slots, m, h, TableOf(s.t))
    ensures WriterRun(l, states, steps) && OnlySets(steps) && states[0] == s
    ensures steps == BucketSteps(W.StartMove(Place(bs[m], slots[m]), Place(bs[m - 1], slots[m - 1])))
    ensures W.SysInv(l, states[|steps|]) && W.Free(states[|steps|], Place(bs[m - 1], slots[m - 1])) && states[|steps|].hashOf == s.hashOf
    ensures Moved(l, t0, bs, slots, m - 1, h, TableOf(states[|steps|].t))
  {
    hide Inv, Route, Moved, CanMove, W.SysInv, TableOf, WriterRun, OnlySets;
    ValidShape(l, t0, {});
    RouteIsIn(l, t0, bs, slots);
    var p, q := Place(bs[m], slots[m]), Place(bs[m - 1], slots[m - 1]);
    RouteCanMove(l, t0, bs, slots, m, h, TableOf(s.t));
    W.SourceOk(l, s, p, q);
    W.InTableOf(s.t, q);
    MoveOn(l, t0, bs, slots, m, m - 1, h, TableOf(s.t));
    states, steps := SetBucketSteps(l, s, W.StartMove(p, q), At(s.t, q), Hole(q));
    RunLength(l, states, steps);
    HoleIsIn(l, states[|steps|]);
  }

  lemma RunLength(l: Layout, states: seq<State>, steps: seq<W.Step>)
    requires WriterRun(l, states, steps)
    ensures |states| == |steps| + 1
  {
  }

  /** All moves along the route, from place `m` back to its start. */
  lemma {:induction false} MovesRun(l: Layout, t0: Table, bs: seq<nat>, slots: seq<nat>, m: nat, h: nat, s: State)
    returns (states: seq<State>, steps: seq<W.Step>)
    requires Inv(l, t0, {}) && Route(l, t0, bs, slots) && m < |bs|
    requires W.SysInv(l, s) && W.Free(s, Place(bs[m], slots[m])) && Moved(l, t0, bs, slots, m, h, TableOf(s.t))
    ensures WriterRun(l, states, steps) && OnlySets(steps) && states[0] == s && |bs| == |slots| && steps == MoveSteps(bs, slots, m)
    ensures W.SysInv(l, states[|steps|]) && W.Free(states[|steps|], Place(bs[0], slots[0])) && states[|steps|].hashOf == s.hashOf
    ensures Moved(l, t0, bs, slots, 0, h, TableOf(states[|steps|].t))
    decreases m
  {
    hide Inv, Route, Moved, W.SysInv, TableOf, WriterRun, OnlySets, W.Free;
    RouteIsIn(l, t0, bs, slots);
    if m == 0 {
      states, steps := [s], [];
      NoSteps(l, s);
    } else {
      var first, some := MoveIsLegal(l, t0, bs, slots, m, h, s);
      RunLength(l, first, some);
      var rest, more := MovesRun(l, t0, bs, slots, m - 1, h, first[|some|]);
      RunLength(l, rest, more);
      RunThen(l, first, some, rest, more);
      states, steps := first + rest[1..], some + more;
      RunLength(l, states, steps);
    }
  }

  lemma NoSteps(l: Layout, s: State)
    ensures WriterRun(l, [s], []) && OnlySets([])
  {
  }

  lemma HoleIsIn(l: Layout, s: State)
    requires W.SysInv(l, s) && s.w.Hole?
    ensures In(s.t, s.w.p)
  {
  }

  /** At the end of the route the new node can be set. */
  lemma EndIsLegal(l: Layout, t0: Table, bs: seq<nat>, slots: seq<nat>, h: nat, s: State, y: nat)
    requires Inv(l, t0, {}) && Route(l, t0, bs, slots) && (bs[0] == B1(l, h) || bs[0] == B2(l, h))
    requires W.SysInv(l, s) && W.Free(s, Place(bs[0], slots[0])) && Moved(l, t0, bs, slots, 0, h, TableOf(s.t)) && W.Fresh(s, y)
    ensures l.Ok() && W.Guard(l, s, W.StartNew(Place(bs[0], slots[0]), h, y))
  {
    hide Inv, Route, W.SysInv, TableOf, Absent, HasChain, Balanced;
    ValidShape(l, t0, {});
    RouteIsIn(l, t0, bs, slots);
    AbsentFits(l, TableOf(s.t), {Place(bs[0], slots[0])}, Place(bs[0], slots[0]), h);
  }

  lemma StartIsFree(l: Layout, s: State, bs: seq<nat>, slots: seq<nat>)
    requires W.SysInv(l, s) && s.w.Idle? && Route(l, TableOf(s.t), bs, slots)
    ensures Inv(l, TableOf(s.t), {}) && |bs| == |slots| >= 1 && W.Free(s, Place(bs[|bs| - 1], slots[|bs| - 1]))
  {
    var p := Place(bs[|bs| - 1], slots[|bs| - 1]);
    assert TableOf(s.t)[p.b][p.i].chain == [];
  }

  /** The displacement that cmap_insert_bfs found, and the store of the new node after
      it, as one run of the writer. */
  lemma DisplacementRuns(l: Layout, s: State, bs: seq<nat>, slots: seq<nat>, h: nat, y: nat) returns (states: seq<State>, steps: seq<W.Step>)
    requires W.SysInv(l, s) && s.w.Idle? && Route(l, TableOf(s.t), bs, slots) && Absent(l, TableOf(s.t), {}, h) && W.Fresh(s, y)
    requires bs[0] == B1(l, h) || bs[0] == B2(l, h)
    ensures WriterRun(l, states, steps) && OnlySets(steps) && states[0] == s && |bs| == |slots| && steps == RouteSteps(bs, slots, h, y)
    ensures W.SysInv(l, states[|steps|]) && states[|steps|].w.Idle? && Present(states[|steps|], h, y)
  {
    hide Inv, Route, Moved, W.SysInv, TableOf, WriterRun, OnlySets, W.Free, Absent, Present, Fits;
    StartIsFree(l, s, bs, slots);
    MoveStart(l, TableOf(s.t), bs, slots, h);
    var first, some := MovesRun(l, TableOf(s.t), bs, slots, |bs| - 1, h, s);
    RunLength(l, first, some);
    var mid := first[|some|];
    EndIsLegal(l, TableOf(s.t), bs, slots, h, mid, y);
    var rest, more := SetBucketSteps(l, mid, W.StartNew(Place(bs[0], slots[0]), h, y), CSlot(h, y), Idle);
    RunLength(l, rest, more);
    RunThen(l, first, some, rest, more);
    states, steps := first + rest[1..], some + more;
    RunLength(l, states, steps);
    SetIsPresent(mid.t, rest[|more|], Place(bs[0], slots[0]), h, y);
  }

  lemma SetIsPresent(t: Buckets, s: State, p: Place, h: nat, y: nat)
    requires InTable(TableOf(t), p) && TableOf(s.t) == SetSlot(TableOf(t), p.b, p.i, AsSlot(CSlot(h, y)))
    requires s.w.Idle? && y != NULL
    ensures Present(s, h, y)
  {
    assert TableOf(s.t)[p.b][p.i] == Slot(h, [y]);
    assert Counts(s, p.b, p.i) && s.t[p.b].slots[p.i] == CSlot(h, y);
    ReachHere(s.next, y);
  }
}
