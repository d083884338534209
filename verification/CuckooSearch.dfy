/** cmap_insert_bfs: the breadth-first search for an empty slot, and the moves
    along the path it finds. */
module CuckooSearch {
  import opened CuckooTable
  import opened CuckooInsert

  // ---- Moving along a route ----

  /** The route has been moved along down to position `m`, whose place is now a
      hole: the table `t` holds what `t0` did. */
  ghost predicate Moved(l: Layout, t0: Table, bs: seq<nat>, slots: seq<nat>, m: nat, h: nat, t: Table)
    requires m < |bs| && |bs| == |slots|
  {
    var p := Place(bs[m], slots[m]);
    && Inv(l, t, {p}) && InTable(t, p) && PrefixFull(t, p.b, p.i)
    && (forall g, c :: HasChain(t, {p}, g, c) <==> HasChain(t0, {}, g, c))
    && Balanced(t0, t, p) && Absent(l, t, {p}, h)
    && (forall j :: 0 <= j < m ==> bs[j] < |t| == |t0| && t[bs[j]] == t0[bs[j]])
  }

  lemma MoveStart(l: Layout, t0: Table, bs: seq<nat>, slots: seq<nat>, h: nat)
    requires Inv(l, t0, {}) && Route(l, t0, bs, slots) && Absent(l, t0, {}, h)
    ensures Moved(l, t0, bs, slots, |bs| - 1, h, t0)
  {
    var p := Place(bs[|bs| - 1], slots[|bs| - 1]);
    assert {} + {p} == {p};
    MoreHoles(l, t0, {}, p);
    FewerBear(t0, p, B1(l, h), l.k, h);
    FewerBear(t0, p, B2(l, h), l.k, h);
    forall g, c ensures HasChain(t0, {p}, g, c) <==> HasChain(t0, {}, g, c) {
      HoleChains(l, t0, {}, p, g, c);
    }
  }

  lemma MoveOn(l: Layout, t0: Table, bs: seq<nat>, slots: seq<nat>, m: nat, m': nat, h: nat, t: Table)
    requires Inv(l, t0, {}) && Route(l, t0, bs, slots) && m < |bs| && m' == m - 1 && Moved(l, t0, bs, slots, m, h, t)
    ensures Moved(l, t0, bs, slots, m', h, SetSlot(t, bs[m], slots[m], t[bs[m']][slots[m']]))
  {
    hide Inv, HasChain, Balanced, Absent;
    var p, q := Place(bs[m], slots[m]), Place(bs[m'], slots[m']);
    assert Full(t0, bs[m']) && bs[m] == Step(l, t0, bs[m'], slots[m']);
    StillFull(l, t0, t, q);
    ValidShape(l, t, {p});
    MoveKeeps(l, t, p, q);
    forall g, c ensures HasChain(SetSlot(t, p.b, p.i, t[q.b][q.i]), {q}, g, c) <==> HasChain(t0, {}, g, c) {
      MoveChains(l, t, p, q, g, c);
    }
    MoveBalance(t0, t, p, q);
    MoveAbsent(l, t, p, q, h);
  }

  lemma StillFull(l: Layout, t0: Table, t: Table, q: Place)
    requires l.Ok() && 0 <= q.b < |t0| == |t| && t[q.b] == t0[q.b] && Full(t0, q.b) && 0 <= q.i < |t[q.b]|
    ensures Full(t, q.b) && InTable(t, q) && Step(l, t, q.b, q.i) == Step(l, t0, q.b, q.i)
    ensures PrefixFull(t, q.b, q.i)
  {
  }

  /** At the end of the route the new chain goes into the hole. */
  lemma MoveEnds(l: Layout, t0: Table, bs: seq<nat>, slots: seq<nat>, h: nat, chain: seq<Node>, t: Table)
    requires Inv(l, t0, {}) && Route(l, t0, bs, slots) && Absent(l, t0, {}, h) && Moved(l, t0, bs, slots, 0, h, t)
    requires chain != [] && (bs[0] == B1(l, h) || bs[0] == B2(l, h))
    ensures Inserted(l, t0, h, chain, SetSlot(t, bs[0], slots[0], Slot(h, chain)))
  {
    hide Inv, HasChain, Absent, Find, Total, PairIn, Nodes, PrefixFull;
    var p := Place(bs[0], slots[0]);
    var t' := SetSlot(t, p.b, p.i, Slot(h, chain));
    ValidShape(l, t0, {});
    AbsentFits(l, t, {p}, p, h);
    FillHole(l, t, {p}, p, h, chain);
    assert {p} - {p} == {};
    ValidShape(l, t', {});
    forall g: nat ensures Find(l, t', g) == if g == h then chain + Find(l, t0, g) else Find(l, t0, g) {
      FilledFind(l, t0, t, p, h, chain, g);
    }
    FilledBalance(t0, t, p, h, chain);
  }

  lemma FilledFind(l: Layout, t0: Table, t: Table, p: Place, h: nat, chain: seq<Node>, g: nat)
    requires Inv(l, t0, {}) && Absent(l, t0, {}, h) && InTable(t, p) && chain != []
    requires forall g, c :: HasChain(t, {p}, g, c) <==> HasChain(t0, {}, g, c)
    requires Inv(l, SetSlot(t, p.b, p.i, Slot(h, chain)), {})
    ensures Find(l, SetSlot(t, p.b, p.i, Slot(h, chain)), g) == if g == h then chain + Find(l, t0, g) else Find(l, t0, g)
  {
    hide HasChain, Absent, Find, Live, Bears;
    var t' := SetSlot(t, p.b, p.i, Slot(h, chain));
    assert {p} - {p} == {};
    FilledChains(t, {p}, p, h, chain, h, chain);
    forall c ensures g != h ==> (HasChain(t', {}, g, c) <==> HasChain(t0, {}, g, c)) {
      FilledChains(t, {p}, p, h, chain, g, c);
    }
    FindAfter(l, t0, t', h, chain, g);
    AbsentFind(l, t0, h);
  }

  lemma AbsentFind(l: Layout, t: Table, h: nat)
    requires Inv(l, t, {}) && Absent(l, t, {}, h)
    ensures Find(l, t, h) == []
  {
    forall j | 0 <= j < l.k ensures t[B1(l, h)][j].hash != h && t[B2(l, h)][j].hash != h {
      assert !Bears(t, {}, B1(l, h), j, h) && !Bears(t, {}, B2(l, h), j, h);
    }
    FindInNone(t[B1(l, h)], h);
    FindInNone(t[B2(l, h)], h);
  }

  lemma FilledBalance(t0: Table, t: Table, p: Place, h: nat, chain: seq<Node>)
    requires InTable(t, p) && Balanced(t0, t, p)
    ensures var t' := SetSlot(t, p.b, p.i, Slot(h, chain));
            && (forall g: nat, x: Node :: Count(t', g, x) == Count(t0, g, x) + if g == h then Occurrences(chain, x) else 0)
            && Size(t') == Size(t0) + |chain|
  {
    hide Total;
    var t' := SetSlot(t, p.b, p.i, Slot(h, chain));
    forall g: nat, x: Node ensures Count(t', g, x) == Count(t0, g, x) + if g == h then Occurrences(chain, x) else 0 {
      SetSlotTotal(t, p.b, p.i, Slot(h, chain), PairIn(g, x));
      assert Count(t, g, x) == Count(t0, g, x) + PairIn(g, x)(t[p.b][p.i]);
    }
    SetSlotTotal(t, p.b, p.i, Slot(h, chain), Nodes());
  }

  /** Moves the content of each place of the route to the next, last first, and
      puts the new chain into the first. */
  method ApplyRoute(l: Layout, buckets: array<Bucket>, bs: seq<nat>, slots: seq<nat>, h: nat, chain: seq<Node>)
    requires Inv(l, buckets[..], {}) && Route(l, buckets[..], bs, slots) && Absent(l, buckets[..], {}, h)
    requires chain != [] && (bs[0] == B1(l, h) || bs[0] == B2(l, h))
    modifies buckets
    ensures Inserted(l, old(buckets[..]), h, chain, buckets[..])
  {
    hide Inv, Route, Absent, Inserted, Moved;
    ghost var t0 := buckets[..];
    RouteIsIn(l, t0, bs, slots);
    MoveStart(l, t0, bs, slots, h);
    var m: nat := |bs| - 1;
    while m > 0
      invariant m < |bs| && |buckets[..]| == |t0| && Moved(l, t0, bs, slots, m, h, buckets[..])
      invariant forall b :: 0 <= b < |t0| ==> |buckets[b]| == l.k
    {
      ghost var t := buckets[..];
      MoveOn(l, t0, bs, slots, m, m - 1, h, t);
      buckets[bs[m]] := buckets[bs[m]][slots[m] := buckets[bs[m - 1]][slots[m - 1]]];
      assert buckets[..] == SetSlot(t, bs[m], slots[m], t[bs[m - 1]][slots[m - 1]]);
      m := m - 1;
    }
    ghost var t := buckets[..];
    MoveEnds(l, t0, bs, slots, h, chain, t);
    buckets[bs[0]] := buckets[bs[0]][slots[0] := Slot(h, chain)];
    assert buckets[..] == SetSlot(t, bs[0], slots[0], Slot(h, chain));
  }

  lemma RouteIsIn(l: Layout, t: Table, bs: seq<nat>, slots: seq<nat>)
    requires Route(l, t, bs, slots)
    ensures |bs| == |slots| >= 1 && (forall m :: 0 <= m < |bs| ==> bs[m] < |t| && slots[m] < l.k)
    ensures l.Ok() && forall b :: 0 <= b < |t| ==> |t[b]| == l.k
  {
  }

  // ---- The search ----

  const MAX_DEPTH := 4
  const MAX_QUEUE := 500

  /** A path from bucket `start` to bucket `end` by way of the given slots. */
  datatype Path = Path(start: nat, end: nat, slots: seq<nat>)

  /** The buckets along a path. */
  function Trail(l: Layout, t: Table, start: nat, slots: seq<nat>): (bs: seq<nat>)
    requires l.Ok()
    ensures |bs| == |slots| + 1 && bs[0] == start
    decreases |slots|
  {
    if slots == [] then [start]
    else
      var n := |slots| - 1;
      var bs := Trail(l, t, start, slots[..n]);
      bs + [Step(l, t, bs[n], slots[n])]
  }

  lemma TrailGrows(l: Layout, t: Table, start: nat, slots: seq<nat>, i: nat)
    requires l.Ok()
    ensures var bs := Trail(l, t, start, slots);
            Trail(l, t, start, slots + [i]) == bs + [Step(l, t, bs[|slots|], i)]
  {
    assert (slots + [i])[..|slots|] == slots;
  }

  lemma {:induction false} TrailSteps(l: Layout, t: Table, start: nat, slots: seq<nat>, m: nat)
    requires l.Ok() && m < |slots|
    ensures var bs := Trail(l, t, start, slots); bs[m + 1] == Step(l, t, bs[m], slots[m])
    decreases |slots|
  {
    var n := |slots| - 1;
    if m < n { TrailSteps(l, t, start, slots[..n], m); }
  }

  ghost predicate PathOk(l: Layout, t: Table, e: Path)
    requires l.Ok()
  {
    var bs := Trail(l, t, e.start, e.slots);
    && bs[|e.slots|] == e.end && |e.slots| <= MAX_DEPTH
    && (forall m :: 0 <= m < |bs| ==> Full(t, bs[m]))
    && (forall m :: 0 <= m < |e.slots| ==> e.slots[m] < l.k)
  }

  /** Some entry before place `n` of the queue ends in bucket `b`. */
  ghost predicate Reaches(queue: seq<Path>, n: nat, b: nat)
  {
    exists e :: 0 <= e < n && e < |queue| && queue[e].end == b
  }

  /** The path repeats no bucket, unless an earlier one ends where it does. */
  ghost predicate StraightOrLate(l: Layout, t: Table, queue: seq<Path>, e: nat)
    requires l.Ok() && e < |queue|
  {
    Distinct(Trail(l, t, queue[e].start, queue[e].slots)) || Reaches(queue, e, queue[e].end)
  }

  /** Every bucket along the path is the end of an entry up to this one. */
  ghost predicate Rooted(l: Layout, t: Table, queue: seq<Path>, e: nat)
    requires l.Ok() && e < |queue|
  {
    var bs := Trail(l, t, queue[e].start, queue[e].slots);
    forall m :: 0 <= m < |bs| ==> Reaches(queue, e + 1, bs[m])
  }

  ghost predicate QueueOk(l: Layout, t: Table, queue: seq<Path>)
    requires l.Ok()
  {
    && (forall e :: 0 <= e < |queue| ==> PathOk(l, t, queue[e]) && StraightOrLate(l, t, queue, e) && Rooted(l, t, queue, e))
    && (forall e, e' :: 0 <= e < e' < |queue| ==> |queue[e].slots| <= |queue[e'].slots|)
  }

  /** Slot `i` of the entry's last bucket leads nowhere new: to a full bucket
      that, if the limits allowed, is the end of some entry. */
  ghost predicate Explored(l: Layout, t: Table, queue: seq<Path>, e: Path, i: nat)
    requires l.Ok()
  {
    var next := Step(l, t, e.end, i);
    next == e.end || (Full(t, next) && (|e.slots| < MAX_DEPTH && |queue| < MAX_QUEUE ==> Reaches(queue, |queue|, next)))
  }

  ghost predicate Processed(l: Layout, t: Table, queue: seq<Path>, tail: nat)
    requires l.Ok()
  {
    forall e, i :: 0 <= e < tail && e < |queue| && 0 <= i < l.k ==> Explored(l, t, queue, queue[e], i)
  }

  ghost predicate PartlyExplored(l: Layout, t: Table, queue: seq<Path>, e: Path, n: nat)
    requires l.Ok()
  {
    forall i :: 0 <= i < n ==> Explored(l, t, queue, e, i)
  }

  /** An entry that ends where an earlier one does leads nowhere new. */
  lemma LateIsExplored(l: Layout, t: Table, queue: seq<Path>, tail: nat, i: nat)
    requires l.Ok() && QueueOk(l, t, queue) && tail < |queue| && Processed(l, t, queue, tail) && i < l.k
    requires Reaches(queue, tail, queue[tail].end)
    ensures Explored(l, t, queue, queue[tail], i)
  {
    hide PathOk, Rooted, StraightOrLate, Full, Step;
    var e :| 0 <= e < tail && queue[e].end == queue[tail].end;
    assert Explored(l, t, queue, queue[e], i);
  }

  /** An entry with a way to a bucket with room is the first to end there. */
  lemma FirstHere(l: Layout, t: Table, queue: seq<Path>, tail: nat, i: nat)
    requires l.Ok() && QueueOk(l, t, queue) && tail < |queue| && Processed(l, t, queue, tail) && i < l.k
    requires Step(l, t, queue[tail].end, i) != queue[tail].end && !Full(t, Step(l, t, queue[tail].end, i))
    ensures Distinct(Trail(l, t, queue[tail].start, queue[tail].slots))
  {
    hide PathOk, Rooted, Full;
    assert StraightOrLate(l, t, queue, tail);
    if Reaches(queue, tail, queue[tail].end) { LateIsExplored(l, t, queue, tail, i); }
  }

  /** The route that a successful search applies. */
  lemma PathIsRoute(l: Layout, t: Table, e: Path, i: nat, j: nat)
    requires Shape(l, t) && PathOk(l, t, e) && Distinct(Trail(l, t, e.start, e.slots)) && i < l.k
    requires var next := Step(l, t, e.end, i);
             next != e.end && j < l.k && t[next][j].chain == [] && PrefixFull(t, next, j)
    ensures Route(l, t, Trail(l, t, e.start, e.slots + [i]), e.slots + [i, j])
  {
    hide Step;
    var bs, slots := Trail(l, t, e.start, e.slots + [i]), e.slots + [i, j];
    TrailGrows(l, t, e.start, e.slots, i);
    forall m | 0 <= m < |bs| - 1 ensures Full(t, bs[m]) && bs[m + 1] == Step(l, t, bs[m], slots[m]) {
      TrailSteps(l, t, e.start, e.slots + [i], m);
      assert bs[m] == Trail(l, t, e.start, e.slots)[m];
    }
    StepInRange(l, t, e.end, i);
    assert !Full(t, bs[|bs| - 1]);
    assert Distinct(bs);
  }

  lemma StepInRange(l: Layout, t: Table, b: nat, i: nat)
    requires Shape(l, t)
    ensures Step(l, t, b, i) < |t|
  {
  }

  /** Entries that were there stay explored when one is added. */
  lemma ReachesMore(queue: seq<Path>, w: Path, n: nat, b: nat)
    requires Reaches(queue, n, b)
    ensures Reaches(queue + [w], n, b)
  {
    var e :| 0 <= e < n && e < |queue| && queue[e].end == b;
    assert (queue + [w])[e].end == b;
  }

  lemma ReachesAll(queue: seq<Path>, w: Path, b: nat)
    requires Reaches(queue, |queue|, b)
    ensures Reaches(queue + [w], |queue + [w]|, b)
  {
    var e :| 0 <= e < |queue| && queue[e].end == b;
    assert (queue + [w])[e].end == b;
  }

  lemma ExploredMore(l: Layout, t: Table, queue: seq<Path>, w: Path, e: Path, i: nat)
    requires l.Ok() && Explored(l, t, queue, e, i)
    ensures Explored(l, t, queue + [w], e, i)
  {
    hide Full, Reaches, Step;
    var next := Step(l, t, e.end, i);
    if Reaches(queue, |queue|, next) { ReachesAll(queue, w, next); }
  }

  lemma ProcessedMore(l: Layout, t: Table, queue: seq<Path>, w: Path, tail: nat)
    requires l.Ok() && Processed(l, t, queue, tail) && tail <= |queue|
    ensures Processed(l, t, queue + [w], tail)
  {
    hide Explored;
    forall e, i | 0 <= e < tail && 0 <= i < l.k ensures Explored(l, t, queue + [w], (queue + [w])[e], i) {
      assert Explored(l, t, queue, queue[e], i);
      ExploredMore(l, t, queue, w, queue[e], i);
    }
  }

  lemma PartlyMore(l: Layout, t: Table, queue: seq<Path>, w: Path, e: Path, n: nat)
    requires l.Ok() && PartlyExplored(l, t, queue, e, n)
    ensures PartlyExplored(l, t, queue + [w], e, n)
  {
    hide Explored;
    forall i | 0 <= i < n ensures Explored(l, t, queue + [w], e, i) { ExploredMore(l, t, queue, w, e, i); }
  }

  /** The path one slot further. */
  function Child(l: Layout, t: Table, u: Path, i: nat): Path
    requires l.Ok()
  {
    Path(u.start, Step(l, t, u.end, i), u.slots + [i])
  }

  lemma ChildOk(l: Layout, t: Table, u: Path, i: nat)
    requires l.Ok() && PathOk(l, t, u) && |u.slots| < MAX_DEPTH && i < l.k && Full(t, Step(l, t, u.end, i))
    ensures PathOk(l, t, Child(l, t, u, i))
  {
    hide Step, Full;
    TrailGrows(l, t, u.start, u.slots, i);
  }

  /** A new entry repeats a bucket only if an earlier one ends where it does. */
  lemma ChildStraight(l: Layout, t: Table, queue: seq<Path>, tail: nat, i: nat)
    requires l.Ok() && QueueOk(l, t, queue) && tail < |queue| < MAX_QUEUE && Processed(l, t, queue, tail) && i < l.k
    requires |queue[tail].slots| < MAX_DEPTH && Step(l, t, queue[tail].end, i) != queue[tail].end
    ensures StraightOrLate(l, t, queue + [Child(l, t, queue[tail], i)], |queue|)
  {
    hide PathOk, Step, Full, Reaches, Processed, QueueOk, Rooted;
    var u, w := queue[tail], Child(l, t, queue[tail], i);
    EntryOk(l, t, queue, tail);
    TrailGrows(l, t, u.start, u.slots, i);
    if Reaches(queue, |queue|, w.end) {
      ReachesMore(queue, w, |queue|, w.end);
    } else {
      if w.end in Trail(l, t, u.start, u.slots) { OnTrail(l, t, queue, tail, w.end); }
      if Reaches(queue, tail, u.end) { LateIsExplored(l, t, queue, tail, i); }
      DistinctMore(Trail(l, t, u.start, u.slots), w.end);
    }
  }

  lemma DistinctMore(bs: seq<nat>, b: nat)
    requires Distinct(bs) && b !in bs
    ensures Distinct(bs + [b])
  {
  }

  lemma EntryOk(l: Layout, t: Table, queue: seq<Path>, e: nat)
    requires l.Ok() && QueueOk(l, t, queue) && e < |queue|
    ensures PathOk(l, t, queue[e]) && StraightOrLate(l, t, queue, e) && Rooted(l, t, queue, e)
  {
  }

  lemma EndOfTrail(l: Layout, t: Table, e: Path)
    requires l.Ok() && PathOk(l, t, e)
    ensures Trail(l, t, e.start, e.slots)[|e.slots|] == e.end
  {
  }

  lemma OnTrail(l: Layout, t: Table, queue: seq<Path>, e: nat, b: nat)
    requires l.Ok() && e < |queue| && Rooted(l, t, queue, e) && b in Trail(l, t, queue[e].start, queue[e].slots)
    ensures Reaches(queue, |queue|, b)
  {
    var bs := Trail(l, t, queue[e].start, queue[e].slots);
    var m :| 0 <= m < |bs| && bs[m] == b;
    assert Reaches(queue, e + 1, bs[m]);
  }

  lemma ChildRooted(l: Layout, t: Table, queue: seq<Path>, tail: nat, i: nat)
    requires l.Ok() && tail < |queue| && Rooted(l, t, queue, tail)
    requires Trail(l, t, queue[tail].start, queue[tail].slots)[|queue[tail].slots|] == queue[tail].end
    ensures Rooted(l, t, queue + [Child(l, t, queue[tail], i)], |queue|)
  {
    hide Step;
    var u, w := queue[tail], Child(l, t, queue[tail], i);
    var queue' := queue + [w];
    TrailGrows(l, t, u.start, u.slots, i);
    var bs := Trail(l, t, w.start, w.slots);
    forall m | 0 <= m < |bs| ensures Reaches(queue', |queue| + 1, bs[m]) {
      if m < |bs| - 1 {
        assert Reaches(queue, tail + 1, bs[m]);
        var e :| 0 <= e < tail + 1 && queue[e].end == bs[m];
        assert queue'[e].end == bs[m];
      } else {
        assert queue'[|queue|].end == bs[m];
      }
    }
  }

  lemma OldEntryStays(l: Layout, t: Table, queue: seq<Path>, w: Path, e: nat)
    requires l.Ok() && e < |queue| && StraightOrLate(l, t, queue, e) && Rooted(l, t, queue, e)
    ensures StraightOrLate(l, t, queue + [w], e) && Rooted(l, t, queue + [w], e)
  {
    hide Reaches;
    if Reaches(queue, e, queue[e].end) { ReachesMore(queue, w, e, queue[e].end); }
    var bs := Trail(l, t, queue[e].start, queue[e].slots);
    forall m | 0 <= m < |bs| ensures Reaches(queue + [w], e + 1, bs[m]) { ReachesMore(queue, w, e + 1, bs[m]); }
  }

  lemma QueueGrows(l: Layout, t: Table, queue: seq<Path>, tail: nat, i: nat)
    requires l.Ok() && QueueOk(l, t, queue) && tail < |queue| < MAX_QUEUE && Processed(l, t, queue, tail) && i < l.k
    requires |queue[tail].slots| < MAX_DEPTH && Step(l, t, queue[tail].end, i) != queue[tail].end
    requires Full(t, Step(l, t, queue[tail].end, i))
    requires forall e :: 0 <= e < |queue| ==> |queue[e].slots| <= |queue[tail].slots| + 1
    ensures QueueOk(l, t, queue + [Child(l, t, queue[tail], i)])
    ensures Explored(l, t, queue + [Child(l, t, queue[tail], i)], queue[tail], i)
  {
    hide PathOk, StraightOrLate, Rooted, Processed, Full, Step;
    var w := Child(l, t, queue[tail], i);
    var queue' := queue + [w];
    assert PathOk(l, t, queue[tail]) && Rooted(l, t, queue, tail);
    ChildOk(l, t, queue[tail], i);
    ChildStraight(l, t, queue, tail, i);
    EndOfTrail(l, t, queue[tail]);
    ChildRooted(l, t, queue, tail, i);
    forall e | 0 <= e < |queue'|
      ensures PathOk(l, t, queue'[e]) && StraightOrLate(l, t, queue', e) && Rooted(l, t, queue', e)
    {
      if e < |queue| { OldEntryStays(l, t, queue, w, e); }
    }
    assert queue'[|queue|].end == Step(l, t, queue[tail].end, i);
  }

  /** The buckets along a path, one by one. */
  method FollowPath(l: Layout, buckets: array<Bucket>, start: nat, slots: seq<nat>) returns (bs: seq<nat>)
    requires Shape(l, buckets[..]) && start < l.nBuckets && forall m :: 0 <= m < |slots| ==> slots[m] < l.k
    ensures bs == Trail(l, buckets[..], start, slots)
  {
    bs := [start];
    for m := 0 to |slots|
      invariant bs == Trail(l, buckets[..], start, slots[..m]) && |bs| == m + 1 && bs[m] < l.nBuckets
    {
      TrailGrows(l, buckets[..], start, slots[..m], slots[m]);
      assert slots[..m + 1] == slots[..m] + [slots[m]];
      bs := bs + [OtherBucket(l, bs[m], buckets[bs[m]][slots[m]].hash)];
    }
    assert slots[..|slots|] == slots;
  }

  ghost predicate DepthBound(queue: seq<Path>, d: nat)
  {
    forall e :: 0 <= e < |queue| ==> |queue[e].slots| <= d
  }

  ghost predicate StartsAt(l: Layout, queue: seq<Path>, h: nat)
    requires l.Ok()
  {
    forall e :: 0 <= e < |queue| ==> queue[e].start == B1(l, h) || queue[e].start == B2(l, h)
  }

  /** What holds of the queue while the entry at `tail` is being explored. */
  ghost predicate Searching(l: Layout, t: Table, queue: seq<Path>, tail: nat, h: nat)
  {
    && Shape(l, t) && |queue| <= MAX_QUEUE && tail <= |queue|
    && QueueOk(l, t, queue) && Processed(l, t, queue, tail) && StartsAt(l, queue, h)
    && (tail < |queue| ==> DepthBound(queue, |queue[tail].slots| + 1))
  }

  lemma SearchStarts(l: Layout, t: Table, h: nat)
    requires Shape(l, t) && Full(t, B1(l, h)) && Full(t, B2(l, h))
    ensures var q := [Path(B1(l, h), B1(l, h), [])];
            Searching(l, t, if B1(l, h) == B2(l, h) then q else q + [Path(B2(l, h), B2(l, h), [])], 0, h)
  {
    hide PathOk, StraightOrLate, Rooted, Full;
    var q := [Path(B1(l, h), B1(l, h), [])];
    var queue := if B1(l, h) == B2(l, h) then q else q + [Path(B2(l, h), B2(l, h), [])];
    forall e | 0 <= e < |queue| ensures PathOk(l, t, queue[e]) && StraightOrLate(l, t, queue, e) && Rooted(l, t, queue, e) {
      StartEntryOk(l, t, queue, e);
    }
  }

  lemma StartEntryOk(l: Layout, t: Table, queue: seq<Path>, e: nat)
    requires l.Ok() && e < |queue| && queue[e].slots == [] && queue[e].start == queue[e].end && Full(t, queue[e].end)
    ensures PathOk(l, t, queue[e]) && StraightOrLate(l, t, queue, e) && Rooted(l, t, queue, e)
  {
    assert Reaches(queue, e + 1, queue[e].end);
  }

  lemma SearchGrows(l: Layout, t: Table, queue: seq<Path>, tail: nat, h: nat, i: nat)
    requires Searching(l, t, queue, tail, h) && tail < |queue| < MAX_QUEUE && i < l.k
    requires |queue[tail].slots| < MAX_DEPTH && Step(l, t, queue[tail].end, i) != queue[tail].end
    requires Full(t, Step(l, t, queue[tail].end, i)) && PartlyExplored(l, t, queue, queue[tail], i)
    ensures Searching(l, t, queue + [Child(l, t, queue[tail], i)], tail, h)
    ensures PartlyExplored(l, t, queue + [Child(l, t, queue[tail], i)], queue[tail], i)
    ensures Explored(l, t, queue + [Child(l, t, queue[tail], i)], queue[tail], i)
  {
    hide QueueOk, Processed, PartlyExplored, Explored, Full, Step, Shape;
    QueueGrows(l, t, queue, tail, i);
    ProcessedMore(l, t, queue, Child(l, t, queue[tail], i), tail);
    PartlyMore(l, t, queue, Child(l, t, queue[tail], i), queue[tail], i);
  }

  lemma SearchAdvances(l: Layout, t: Table, queue: seq<Path>, tail: nat, tail': nat, h: nat)
    requires Searching(l, t, queue, tail, h) && tail < |queue| && tail' == tail + 1
    requires PartlyExplored(l, t, queue, queue[tail], l.k)
    ensures Searching(l, t, queue, tail', h)
  {
    hide Explored, PathOk, StraightOrLate, Rooted, Shape;
  }

  // ---- Which paths the search looks at ----

  ghost function Starts(l: Layout, h: nat): seq<Path>
    requires l.Ok()
  {
    [Path(B1(l, h), B1(l, h), [])] + if B1(l, h) == B2(l, h) then [] else [Path(B2(l, h), B2(l, h), [])]
  }

  /** The paths that go on from `u` by one of the first `n` slots, to another bucket. */
  ghost function Kids(l: Layout, t: Table, u: Path, n: nat): seq<Path>
    requires l.Ok()
  {
    if n == 0 || |u.slots| >= MAX_DEPTH then []
    else Kids(l, t, u, n - 1) + if Step(l, t, u.end, n - 1) == u.end then [] else [Child(l, t, u, n - 1)]
  }

  ghost function AllKids(l: Layout, t: Table, q: seq<Path>): seq<Path>
    requires l.Ok()
  {
    if q == [] then [] else AllKids(l, t, q[..|q| - 1]) + Kids(l, t, q[|q| - 1], l.k)
  }

  /** The paths of `d` slots, in order. */
  ghost function Level(l: Layout, t: Table, h: nat, d: nat): seq<Path>
    requires l.Ok()
  {
    if d == 0 then Starts(l, h) else AllKids(l, t, Level(l, t, h, d - 1))
  }

  /** The paths of up to `d` slots, shorter ones first. */
  ghost function Paths(l: Layout, t: Table, h: nat, d: nat): seq<Path>
    requires l.Ok()
  {
    if d == 0 then Starts(l, h) else Paths(l, t, h, d - 1) + Level(l, t, h, d)
  }

  /** A step from the end of the path leads to another bucket, with room in it. */
  ghost predicate Leads(l: Layout, t: Table, e: Path, i: nat)
    requires l.Ok()
  {
    Step(l, t, e.end, i) != e.end && !Full(t, Step(l, t, e.end, i))
  }

  /** One of the first MAX_QUEUE paths of up to MAX_DEPTH slots leads to an empty slot. */
  ghost predicate Opens(l: Layout, t: Table, h: nat)
    requires l.Ok()
  {
    exists e, i :: 0 <= e < |Paths(l, t, h, MAX_DEPTH)| && e < MAX_QUEUE && 0 <= i < l.k && Leads(l, t, Paths(l, t, h, MAX_DEPTH)[e], i)
  }

  lemma {:induction false} AllKidsConcat(l: Layout, t: Table, a: seq<Path>, b: seq<Path>)
    requires l.Ok()
    ensures AllKids(l, t, a + b) == AllKids(l, t, a) + AllKids(l, t, b)
    decreases |b|
  {
    if b == [] {
      assert a + b == a;
    } else {
      assert (a + b)[..|a + b| - 1] == a + b[..|b| - 1];
      AllKidsConcat(l, t, a, b[..|b| - 1]);
    }
  }

  lemma {:induction false} KidsDepth(l: Layout, t: Table, u: Path, n: nat)
    requires l.Ok()
    ensures forall e :: e in Kids(l, t, u, n) ==> |e.slots| == |u.slots| + 1 <= MAX_DEPTH
    ensures |Kids(l, t, u, n)| <= n
  {
    if n > 0 { KidsDepth(l, t, u, n - 1); }
  }

  lemma {:induction false} AllKidsDepth(l: Layout, t: Table, q: seq<Path>, d: nat)
    requires l.Ok() && forall e :: e in q ==> |e.slots| >= d
    ensures forall e :: e in AllKids(l, t, q) ==> d + 1 <= |e.slots| <= MAX_DEPTH
    ensures |AllKids(l, t, q)| <= |q| * l.k
    decreases |q|
  {
    if q != [] {
      AllKidsDepth(l, t, q[..|q| - 1], d);
      KidsDepth(l, t, q[|q| - 1], l.k);
      assert q[|q| - 1] in q;
      assert |q| * l.k == (|q| - 1) * l.k + l.k;
    }
  }

  lemma {:induction false} LevelDepth(l: Layout, t: Table, h: nat, d: nat)
    requires l.Ok()
    ensures forall e :: e in Level(l, t, h, d) ==> |e.slots| >= d
  {
    if d > 0 {
      LevelDepth(l, t, h, d - 1);
      AllKidsDepth(l, t, Level(l, t, h, d - 1), d - 1);
    }
  }

  lemma {:induction false} PathsStep(l: Layout, t: Table, h: nat, d: nat)
    requires l.Ok()
    ensures Starts(l, h) + AllKids(l, t, Paths(l, t, h, d)) == Paths(l, t, h, d + 1)
  {
    hide Starts, AllKids;
    assert Level(l, t, h, d + 1) == AllKids(l, t, Level(l, t, h, d)) && Paths(l, t, h, d + 1) == Paths(l, t, h, d) + Level(l, t, h, d + 1);
    if d == 0 {
      assert Level(l, t, h, 0) == Starts(l, h) == Paths(l, t, h, 0);
    } else {
      PathsStep(l, t, h, d - 1);
      AllKidsConcat(l, t, Paths(l, t, h, d - 1), Level(l, t, h, d));
      assert Starts(l, h) + (AllKids(l, t, Paths(l, t, h, d - 1)) + AllKids(l, t, Level(l, t, h, d)))
             == Paths(l, t, h, d) + AllKids(l, t, Level(l, t, h, d));
    }
  }

  /** All paths are starts or go on from one of them. */
  lemma PathsClosed(l: Layout, t: Table, h: nat)
    requires l.Ok()
    ensures Starts(l, h) + AllKids(l, t, Paths(l, t, h, MAX_DEPTH)) == Paths(l, t, h, MAX_DEPTH)
  {
    hide Paths, Starts, AllKids;
    PathsStep(l, t, h, MAX_DEPTH);
    LastLevel(l, t, h);
  }

  lemma LastLevel(l: Layout, t: Table, h: nat)
    requires l.Ok()
    ensures Paths(l, t, h, MAX_DEPTH + 1) == Paths(l, t, h, MAX_DEPTH)
  {
    hide AllKids;
    LevelDepth(l, t, h, MAX_DEPTH);
    AllKidsDepth(l, t, Level(l, t, h, MAX_DEPTH), MAX_DEPTH);
    var more := Level(l, t, h, MAX_DEPTH + 1);
    HasMember(more);
  }

  lemma HasMember(q: seq<Path>)
    ensures q == [] || q[0] in q
  {
  }

  lemma {:induction false} KidsPrefix(l: Layout, t: Table, u: Path, i: nat, n: nat)
    requires l.Ok() && i <= n
    ensures Kids(l, t, u, i) <= Kids(l, t, u, n)
    decreases n
  {
    if i < n { KidsPrefix(l, t, u, i, n - 1); }
  }

  /** What has been put into the queue while the entry at `tail` goes on by its first `i`
      slots, if there were no limit. */
  ghost function Put(l: Layout, t: Table, queue: seq<Path>, h: nat, tail: nat, i: nat): seq<Path>
    requires l.Ok() && tail < |queue|
  {
    Starts(l, h) + AllKids(l, t, queue[..tail]) + Kids(l, t, queue[tail], i)
  }

  ghost function Cut(q: seq<Path>): seq<Path> { if |q| <= MAX_QUEUE then q else q[..MAX_QUEUE] }

  /** The queue lists the paths in order, as far as it has got. */
  ghost predicate Lists(l: Layout, t: Table, queue: seq<Path>, h: nat, tail: nat, i: nat)
    requires l.Ok() && tail < |queue|
  {
    queue <= Paths(l, t, h, MAX_DEPTH) && queue == Cut(Put(l, t, queue, h, tail, i))
  }

  lemma PutIsPrefix(l: Layout, t: Table, queue: seq<Path>, h: nat, tail: nat, i: nat)
    requires l.Ok() && tail < |queue| && i <= l.k && queue <= Paths(l, t, h, MAX_DEPTH)
    ensures Put(l, t, queue, h, tail, i) <= Paths(l, t, h, MAX_DEPTH)
  {
    hide Paths, Starts, Kids, AllKids;
    var all, u := Paths(l, t, h, MAX_DEPTH), queue[tail];
    PathsClosed(l, t, h);
    KidsPrefix(l, t, u, i, l.k);
    assert all == all[..tail] + ([u] + all[tail + 1..]) && all[..tail] == queue[..tail];
    AllKidsConcat(l, t, all[..tail], [u] + all[tail + 1..]);
    AllKidsConcat(l, t, [u], all[tail + 1..]);
    OneKids(l, t, u);
    assert Starts(l, h) + (AllKids(l, t, queue[..tail]) + (Kids(l, t, u, l.k) + AllKids(l, t, all[tail + 1..])))
           == (Starts(l, h) + AllKids(l, t, queue[..tail])) + (Kids(l, t, u, l.k) + AllKids(l, t, all[tail + 1..]));
  }

  lemma OneKids(l: Layout, t: Table, u: Path)
    requires l.Ok()
    ensures AllKids(l, t, [u]) == Kids(l, t, u, l.k)
  {
    assert [u][..0] == [];
  }

  lemma ListsStart(l: Layout, t: Table, h: nat)
    requires l.Ok()
    ensures Lists(l, t, Starts(l, h), h, 0, 0)
  {
    hide AllKids;
    PathsClosed(l, t, h);
    assert AllKids(l, t, Starts(l, h)[..0]) == [] by { NoKids(l, t); }
  }

  lemma NoKids(l: Layout, t: Table)
    requires l.Ok()
    ensures AllKids(l, t, []) == []
  {
  }

  /** A slot that leads nowhere new, or beyond the limits, adds nothing. */
  lemma ListsSame(l: Layout, t: Table, queue: seq<Path>, h: nat, tail: nat, i: nat, i': nat)
    requires l.Ok() && tail < |queue| && i' == i + 1 && Lists(l, t, queue, h, tail, i)
    requires Step(l, t, queue[tail].end, i) == queue[tail].end || |queue[tail].slots| >= MAX_DEPTH || |queue| >= MAX_QUEUE
    ensures Lists(l, t, queue, h, tail, i')
  {
    hide Paths, Starts, AllKids, Step;
    var put := Put(l, t, queue, h, tail, i);
    assert Put(l, t, queue, h, tail, i') == put || (exists w :: Put(l, t, queue, h, tail, i') == put + [w]) by {
      if Step(l, t, queue[tail].end, i) != queue[tail].end && |queue[tail].slots| < MAX_DEPTH {
        assert Put(l, t, queue, h, tail, i') == put + [Child(l, t, queue[tail], i)];
      }
    }
  }

  lemma ListsMore(l: Layout, t: Table, queue: seq<Path>, h: nat, tail: nat, i: nat, i': nat)
    requires l.Ok() && tail < |queue| < MAX_QUEUE && i' == i + 1 <= l.k && Lists(l, t, queue, h, tail, i)
    requires Step(l, t, queue[tail].end, i) != queue[tail].end && |queue[tail].slots| < MAX_DEPTH
    ensures Lists(l, t, queue + [Child(l, t, queue[tail], i)], h, tail, i')
  {
    hide Paths, Starts, AllKids, Step;
    PutIsPrefix(l, t, queue, h, tail, i');
    var queue' := queue + [Child(l, t, queue[tail], i)];
    assert queue'[..tail] == queue[..tail] && queue'[tail] == queue[tail];
    assert Put(l, t, queue, h, tail, i') == Put(l, t, queue, h, tail, i) + [Child(l, t, queue[tail], i)];
  }

  lemma ListsNext(l: Layout, t: Table, queue: seq<Path>, h: nat, tail: nat, tail': nat)
    requires l.Ok() && tail' == tail + 1 < |queue| && Lists(l, t, queue, h, tail, l.k)
    ensures Lists(l, t, queue, h, tail', 0)
  {
    hide Paths, Starts;
    assert queue[..tail'][..tail] == queue[..tail];
  }

  /** When the queue has been gone through, it lists all paths, up to the limit. */
  lemma ListsAll(l: Layout, t: Table, queue: seq<Path>, h: nat)
    requires l.Ok() && queue != [] && Lists(l, t, queue, h, |queue| - 1, l.k)
    ensures queue == Cut(Paths(l, t, h, MAX_DEPTH))
  {
    hide Paths, Starts, AllKids, Kids;
    var all := Paths(l, t, h, MAX_DEPTH);
    var n := |queue| - 1;
    assert queue[..n] + [queue[n]] == queue;
    AllKidsConcat(l, t, queue[..n], [queue[n]]);
    OneKids(l, t, queue[n]);
    assert Put(l, t, queue, h, n, l.k) == Starts(l, h) + AllKids(l, t, queue);
    if |queue| < MAX_QUEUE {
      var rest := all[|queue|..];
      PathsClosed(l, t, h);
      assert all == queue + rest;
      AllKidsConcat(l, t, queue, rest);
      assert queue + rest == queue + AllKids(l, t, rest) by {
        assert Starts(l, h) + (AllKids(l, t, queue) + AllKids(l, t, rest)) == (Starts(l, h) + AllKids(l, t, queue)) + AllKids(l, t, rest);
      }
      assert rest == (queue + rest)[|queue|..] == (queue + AllKids(l, t, rest))[|queue|..] == AllKids(l, t, rest);
      NoOwnKids(l, t, rest);
    } else {
      assert queue == all[..MAX_QUEUE];
    }
  }

  /** Paths that all go on from one another do not exist: they would have no shortest. */
  lemma NoOwnKids(l: Layout, t: Table, rest: seq<Path>)
    requires l.Ok() && rest == AllKids(l, t, rest)
    ensures rest == []
  {
    hide AllKids;
    if rest != [] {
      Deeper(l, t, rest, MAX_DEPTH + 1);
      assert rest[0] in rest;
      AllKidsDepth(l, t, rest, 0);
    }
  }

  lemma {:induction false} Deeper(l: Layout, t: Table, rest: seq<Path>, d: nat)
    requires l.Ok() && rest == AllKids(l, t, rest)
    ensures forall e :: e in rest ==> |e.slots| >= d
  {
    hide AllKids;
    if d > 0 {
      Deeper(l, t, rest, d - 1);
      AllKidsDepth(l, t, rest, d - 1);
    }
  }

  // ---- Empty slots that are near are found ----

  /** The slots lead from bucket to bucket, each time to another one. */
  ghost predicate Moves(l: Layout, t: Table, start: nat, slots: seq<nat>)
    requires l.Ok()
  {
    var bs := Trail(l, t, start, slots);
    forall m :: 0 <= m < |slots| ==> slots[m] < l.k && bs[m + 1] != bs[m]
  }

  /** Every such way is among the paths of its length. */
  lemma {:induction false} WayIsListed(l: Layout, t: Table, h: nat, start: nat, slots: seq<nat>)
    requires l.Ok() && (start == B1(l, h) || start == B2(l, h)) && |slots| <= MAX_DEPTH && Moves(l, t, start, slots)
    ensures Path(start, Trail(l, t, start, slots)[|slots|], slots) in Level(l, t, h, |slots|)
    decreases |slots|
  {
    hide AllKids, Kids, Step;
    if slots != [] {
      var n := |slots| - 1;
      assert slots == slots[..n] + [slots[n]];
      TrailGrows(l, t, start, slots[..n], slots[n]);
      var bs := Trail(l, t, start, slots);
      assert forall m :: 0 <= m <= n ==> Trail(l, t, start, slots[..n])[m] == bs[m];
      assert bs[n + 1] != bs[n] && slots[n] < l.k;
      WayIsListed(l, t, h, start, slots[..n]);
      var u := Path(start, bs[n], slots[..n]);
      KidIsListed(l, t, u, slots[n], l.k);
      KidsAreListed(l, t, Level(l, t, h, n), u, Child(l, t, u, slots[n]));
    }
  }

  lemma {:induction false} KidIsListed(l: Layout, t: Table, u: Path, i: nat, n: nat)
    requires l.Ok() && i < n && |u.slots| < MAX_DEPTH && Step(l, t, u.end, i) != u.end
    ensures Child(l, t, u, i) in Kids(l, t, u, n)
    decreases n
  {
    hide Step;
    if i < n - 1 { KidIsListed(l, t, u, i, n - 1); }
  }

  lemma {:induction false} KidsAreListed(l: Layout, t: Table, q: seq<Path>, u: Path, w: Path)
    requires l.Ok() && u in q && w in Kids(l, t, u, l.k)
    ensures w in AllKids(l, t, q)
    decreases |q|
  {
    hide Kids;
    if q[|q| - 1] != u { KidsAreListed(l, t, q[..|q| - 1], u, w); }
  }

  /** How many paths of up to `d` slots there can be. */
  function Most(k: nat, d: nat): nat { 2 * Power(k, d) + if d == 0 then 0 else Most(k, d - 1) }

  function Power(k: nat, d: nat): nat { if d == 0 then 1 else k * Power(k, d - 1) }

  lemma {:induction false} FewPaths(l: Layout, t: Table, h: nat, d: nat)
    requires l.Ok()
    ensures |Level(l, t, h, d)| <= 2 * Power(l.k, d) && |Paths(l, t, h, d)| <= Most(l.k, d)
  {
    hide AllKids;
    if d > 0 {
      FewPaths(l, t, h, d - 1);
      AllKidsDepth(l, t, Level(l, t, h, d - 1), 0);
      TimesK(|Level(l, t, h, d - 1)|, 2 * Power(l.k, d - 1), l.k);
    }
  }

  lemma TimesK(a: nat, b: nat, k: nat)
    requires a <= b
    ensures a * k <= b * k
  {
  }

  lemma {:induction false} PathsGrow(l: Layout, t: Table, h: nat, d: nat, n: nat)
    requires l.Ok() && d <= n
    ensures Paths(l, t, h, d) <= Paths(l, t, h, n)
    decreases n
  {
    hide Level;
    if d < n { PathsGrow(l, t, h, d, n - 1); }
  }

  lemma LevelInPaths(l: Layout, t: Table, h: nat, d: nat, e: Path) returns (i: nat)
    requires l.Ok() && e in Level(l, t, h, d)
    ensures i < |Paths(l, t, h, d)| && Paths(l, t, h, d)[i] == e
  {
    hide Starts, AllKids;
    assert e in Paths(l, t, h, d);
    i :| 0 <= i < |Paths(l, t, h, d)| && Paths(l, t, h, d)[i] == e;
  }

  /** An empty slot that can be reached is found, unless it is too far away or there are too
      many paths to look at: with five slots in a bucket, every way of up to four steps. */
  lemma NearIsFound(l: Layout, t: Table, h: nat, start: nat, slots: seq<nat>, i: nat)
    requires l.Ok() && (start == B1(l, h) || start == B2(l, h)) && |slots| <= MAX_DEPTH && Moves(l, t, start, slots)
    requires i < l.k && Leads(l, t, Path(start, Trail(l, t, start, slots)[|slots|], slots), i)
    requires |Paths(l, t, h, |slots|)| <= MAX_QUEUE || Most(l.k, |slots|) <= MAX_QUEUE
    ensures Opens(l, t, h)
  {
    hide Paths, Level, Leads, Most, Moves;
    var d := |slots|;
    WayIsListed(l, t, h, start, slots);
    var e := LevelInPaths(l, t, h, d, Path(start, Trail(l, t, start, slots)[d], slots));
    FewPaths(l, t, h, d);
    PathsGrow(l, t, h, d, MAX_DEPTH);
    assert Paths(l, t, h, MAX_DEPTH)[e] == Path(start, Trail(l, t, start, slots)[d], slots);
  }

  lemma FourSteps()
    ensures Most(5, 3) <= MAX_QUEUE < Most(5, 4) && Most(7, 2) <= MAX_QUEUE < Most(7, 3)
  {
    assert Power(5, 0) == 1 && Power(5, 1) == 5 && Power(5, 2) == 25 && Power(5, 3) == 125 && Power(5, 4) == 625;
    assert Power(7, 0) == 1 && Power(7, 1) == 7 && Power(7, 2) == 49 && Power(7, 3) == 343;
    assert Most(5, 0) == 2 && Most(5, 1) == 12 && Most(5, 2) == 62 && Most(5, 3) == 312;
    assert Most(7, 0) == 2 && Most(7, 1) == 16 && Most(7, 2) == 114;
  }

  /** cmap_insert_bfs: succeeds exactly when one of the paths within the limits leads to an
      empty slot. */
  method InsertBfs(l: Layout, buckets: array<Bucket>, h: nat, chain: seq<Node>) returns (ok: bool)
    requires Inv(l, buckets[..], {}) && chain != [] && Absent(l, buckets[..], {}, h)
    requires Full(buckets[..], B1(l, h)) && Full(buckets[..], B2(l, h))
    modifies buckets
    ensures ok ==> Inserted(l, old(buckets[..]), h, chain, buckets[..])
    ensures !ok ==> buckets[..] == old(buckets[..])
    ensures ok <==> Opens(l, old(buckets[..]), h)
  {
    hide Inv, Absent, Full, Inserted, Searching, PartlyExplored, Explored, Opens, Lists, Cut, Paths, Route, Trail, B1, B2;
    ghost var t := buckets[..];
    ValidShape(l, t, {});
    ListsStart(l, t, h);
    var queue := [Path(B1(l, h), B1(l, h), [])];
    if B1(l, h) != B2(l, h) {
      queue := queue + [Path(B2(l, h), B2(l, h), [])];
    }
    SearchStarts(l, t, h);
    assert queue == Starts(l, h);
    var tail := 0;
    while tail < |queue|
      invariant buckets[..] == t && tail <= |queue| <= MAX_QUEUE && Searching(l, t, queue, tail, h)
      invariant queue != [] && if tail < |queue| then Lists(l, t, queue, h, tail, 0) else queue == Cut(Paths(l, t, h, MAX_DEPTH))
      decreases MAX_QUEUE - tail
    {
      var path := queue[tail];
      NothingExplored(l, t, queue, path);
      var i := 0;
      while i < l.k
        invariant i <= l.k && buckets[..] == t && tail < |queue| <= MAX_QUEUE && queue[tail] == path
        invariant Searching(l, t, queue, tail, h) && PartlyExplored(l, t, queue, path, i) && Lists(l, t, queue, h, tail, i)
      {
        PathInTable(l, t, queue, tail, h);
        var next := OtherBucket(l, path.end, buckets[path.end][i].hash);
        assert next == Step(l, t, path.end, i);
        if next != path.end {
          var j := FindEmptySlot(buckets[next]);
          if j >= 0 {
            SearchSucceeds(l, t, queue, tail, h, i, j);
            ListedOpens(l, t, queue, h, tail, i, j);
            var bs := FollowPath(l, buckets, path.start, path.slots + [i]);
            ApplyRoute(l, buckets, bs, path.slots + [i, j], h, chain);
            return true;
          }
          assert Full(t, next) by { NoEmptyIsFull(t, next); }
          if |path.slots| < MAX_DEPTH && |queue| < MAX_QUEUE {
            SearchGrows(l, t, queue, tail, h, i);
            ListsMore(l, t, queue, h, tail, i, i + 1);
            queue := queue + [Path(path.start, next, path.slots + [i])];
          } else {
            ListsSame(l, t, queue, h, tail, i, i + 1);
          }
        } else {
          ListsSame(l, t, queue, h, tail, i, i + 1);
        }
        OneMoreExplored(l, t, queue, path, i, i + 1);
        i := i + 1;
      }
      SearchAdvances(l, t, queue, tail, tail + 1, h);
      if tail + 1 < |queue| { ListsNext(l, t, queue, h, tail, tail + 1); } else { ListsAll(l, t, queue, h); }
      tail := tail + 1;
    }
    NothingOpens(l, t, queue, h);
    ok := false;
  }

  lemma ListedOpens(l: Layout, t: Table, queue: seq<Path>, h: nat, tail: nat, i: nat, j: nat)
    requires l.Ok() && tail < |queue| <= MAX_QUEUE && Lists(l, t, queue, h, tail, i) && i < l.k
    requires var next := Step(l, t, queue[tail].end, i);
             next != queue[tail].end && next < |t| && j < |t[next]| && t[next][j].chain == []
    ensures Opens(l, t, h)
  {
    hide Paths, Step, Put;
    assert Paths(l, t, h, MAX_DEPTH)[tail] == queue[tail];
    assert Leads(l, t, queue[tail], i);
  }

  lemma NothingOpens(l: Layout, t: Table, queue: seq<Path>, h: nat)
    requires Searching(l, t, queue, |queue|, h) && queue == Cut(Paths(l, t, h, MAX_DEPTH))
    ensures !Opens(l, t, h)
  {
    hide Paths, Step, QueueOk, Reaches, Full, StartsAt;
    forall e, i | 0 <= e < |Paths(l, t, h, MAX_DEPTH)| && e < MAX_QUEUE && 0 <= i < l.k
      ensures !Leads(l, t, Paths(l, t, h, MAX_DEPTH)[e], i)
    {
      assert queue[e] == Paths(l, t, h, MAX_DEPTH)[e];
      assert Explored(l, t, queue, queue[e], i);
    }
  }

  lemma NoEmptyIsFull(t: Table, b: int)
    requires 0 <= b < |t| && forall i :: 0 <= i < |t[b]| ==> t[b][i].chain != []
    ensures Full(t, b)
  {
  }

  lemma NothingExplored(l: Layout, t: Table, queue: seq<Path>, e: Path)
    requires l.Ok()
    ensures PartlyExplored(l, t, queue, e, 0)
  {
  }

  lemma OneMoreExplored(l: Layout, t: Table, queue: seq<Path>, e: Path, i: nat, i': nat)
    requires l.Ok() && PartlyExplored(l, t, queue, e, i) && i' == i + 1
    requires Explored(l, t, queue, e, i) || Step(l, t, e.end, i) == e.end
             || (Full(t, Step(l, t, e.end, i)) && (|e.slots| >= MAX_DEPTH || |queue| >= MAX_QUEUE))
    ensures PartlyExplored(l, t, queue, e, i')
  {
  }

  lemma PathInTable(l: Layout, t: Table, queue: seq<Path>, tail: nat, h: nat)
    requires Searching(l, t, queue, tail, h) && tail < |queue|
    ensures queue[tail].end < |t| && queue[tail].start < |t|
    ensures forall m :: 0 <= m < |queue[tail].slots| ==> queue[tail].slots[m] < l.k
  {
    hide StraightOrLate, Rooted;
    EntryOk(l, t, queue, tail);
    var bs := Trail(l, t, queue[tail].start, queue[tail].slots);
    assert Full(t, bs[0]) && Full(t, bs[|queue[tail].slots|]);
  }

  lemma SearchSucceeds(l: Layout, t: Table, queue: seq<Path>, tail: nat, h: nat, i: nat, j: nat)
    requires Searching(l, t, queue, tail, h) && tail < |queue| && i < l.k
    requires var next := Step(l, t, queue[tail].end, i);
             next < |t| && next != queue[tail].end && j < |t[next]| && t[next][j].chain == []
             && forall m :: 0 <= m < j ==> t[next][m].chain != []
    ensures var path := queue[tail];
            var bs := Trail(l, t, path.start, path.slots + [i]);
            Route(l, t, bs, path.slots + [i, j]) && (bs[0] == B1(l, h) || bs[0] == B2(l, h))
  {
    hide StraightOrLate, Rooted, PathOk, Step, Route, Distinct;
    EntryOk(l, t, queue, tail);
    FirstHere(l, t, queue, tail, i);
    PathIsRoute(l, t, queue[tail], i, j);
  }

  /** There is room for a chain of hash `h`: a slot bears it, or is empty in one of its
      buckets, or can be emptied. */
  ghost predicate Takes(l: Layout, t: Table, h: nat)
    requires l.Ok()
  {
    !Absent(l, t, {}, h) || !Full(t, B1(l, h)) || !Full(t, B2(l, h)) || Opens(l, t, h)
  }

  /** cmap_try_insert: succeeds exactly when there is room. */
  method TryInsert(l: Layout, buckets: array<Bucket>, h: nat, chain: seq<Node>) returns (ok: bool)
    requires Inv(l, buckets[..], {}) && chain != []
    modifies buckets
    ensures l.Ok() && (ok <==> Takes(l, old(buckets[..]), h))
    ensures ok ==> Inserted(l, old(buckets[..]), h, chain, buckets[..])
    ensures !ok ==> buckets[..] == old(buckets[..])
  {
    hide Inv, Full, Inserted, NoneBears, Opens, B1, B2;
    ghost var t := buckets[..];
    ValidShape(l, t, {});
    ok := InsertDup(l, buckets, B1(l, h), h, chain);
    if ok { return; }
    ok := InsertDup(l, buckets, B2(l, h), h, chain);
    if ok { return; }
    ok := InsertBucket(l, buckets, B1(l, h), h, chain);
    if ok { return; }
    ok := InsertBucket(l, buckets, B2(l, h), h, chain);
    if ok { return; }
    ok := InsertBfs(l, buckets, h, chain);
  }
}
