/** Searches of the concurrent map come to an end: what a writer has inserted is
    there, and as long as no bucket is in the middle of a change a search ends with
    exactly the chain of its hash. */
module ConcurrentProgress {
  import opened CuckooTable
  import opened CuckooInsert
  import opened ConcurrentTable
  import opened ConcurrentReader
  import W = ConcurrentWriter
  import I = ConcurrentInsert

  // ---- Insertion ----

  /** A run that only sets buckets takes no node out of the map. */
  lemma {:induction false} SetsKeepPresent(l: Layout, states: seq<State>, steps: seq<W.Step>, n: nat, g: nat, z: nat)
    requires I.WriterRun(l, states, steps) && I.OnlySets(steps) && n <= |steps| && Present(states[0], g, z)
    ensures Present(states[n], g, z)
  {
    hide W.SysInv, W.Guard, W.Apply, Present;
    if n > 0 {
      SetsKeepPresent(l, states, steps, n - 1, g, z);
      PresentNotNull(states[n - 1], g, z);
      assert I.SetsBucket(steps[n - 1]);
      StepKeepsPresent(l, states[n - 1], steps[n - 1], g, z);
    }
  }

  lemma PresentNotNull(s: State, g: nat, z: nat)
    requires Present(s, g, z)
    ensures z != NULL
  {
    var b, i :| Counts(s, b, i) && s.t[b].slots[i].hash == g && Reach(s.next, s.t[b].slots[i].ptr, z);
    var path :| IsPath(s.next, path) && path[0] == s.t[b].slots[i].ptr && path[|path| - 1] == z;
    PathNotNull(s.next, path);
  }

  lemma {:induction false} PathNotNull(next: Next, path: seq<nat>)
    requires IsPath(next, path)
    ensures path[|path| - 1] != NULL
    decreases |path|
  {
    if |path| > 1 { PathNotNull(next, path[1..]); }
  }

  /** The displacement of cmap_insert_bfs puts the node into the map and loses none. */
  lemma DisplacementPublishes(l: Layout, s: State, bs: seq<nat>, slots: seq<nat>, h: nat, y: nat)
    returns (states: seq<State>, steps: seq<W.Step>)
    requires W.SysInv(l, s) && s.w.Idle? && Route(l, TableOf(s.t), bs, slots) && Absent(l, TableOf(s.t), {}, h) && W.Fresh(s, y)
    requires bs[0] == B1(l, h) || bs[0] == B2(l, h)
    ensures I.WriterRun(l, states, steps) && I.OnlySets(steps) && states[0] == s && |bs| == |slots| && steps == I.RouteSteps(bs, slots, h, y)
    ensures W.SysInv(l, states[|steps|]) && states[|steps|].w.Idle? && Present(states[|steps|], h, y)
    ensures forall g: nat, z: nat :: Present(s, g, z) ==> Present(states[|steps|], g, z)
  {
    hide W.SysInv, Route, Absent, Present, TableOf, I.WriterRun, I.OnlySets;
    states, steps := I.DisplacementRuns(l, s, bs, slots, h, y);
    I.RunLength(l, states, steps);
    forall g: nat, z: nat | Present(s, g, z) ensures Present(states[|steps|], g, z) {
      SetsKeepPresent(l, states, steps, |steps|, g, z);
    }
  }

  // ---- A search while buckets are set ----

  /** The stores among the events. */
  function Writes(events: seq<Event>): seq<W.Step>
  {
    if events == [] then []
    else Writes(events[..|events| - 1]) + if events[|events| - 1].Write? then [events[|events| - 1].step] else []
  }

  lemma {:induction false} WriteIsIn(events: seq<Event>, k: nat)
    requires k < |events| && events[k].Write?
    ensures events[k].step in Writes(events)
    decreases |events|
  {
    if k < |events| - 1 { WriteIsIn(events[..|events| - 1], k); }
  }

  /** Reads in between do not change what the stores come to. */
  lemma {:induction false} WritesDecide(l: Layout, g: nat, states: seq<State>, readers: seq<Reader>, events: seq<Event>,
                                        ws: seq<State>, steps: seq<W.Step>, n: nat)
    requires Run(l, g, states, readers, events) && I.WriterRun(l, ws, steps) && states[0] == ws[0] && n <= |events|
    requires Writes(events[..n]) <= steps
    ensures |Writes(events[..n])| <= |steps| && states[n] == ws[|Writes(events[..n])|]
    decreases n
  {
    hide W.Valid, W.Apply, Read;
    if n > 0 {
      assert events[..n][..n - 1] == events[..n - 1] && events[..n][n - 1] == events[n - 1];
      WritesDecide(l, g, states, readers, events, ws, steps, n - 1);
      assert Follows(l, g, states[n - 1], readers[n - 1], events[n - 1], states[n], readers[n]);
      if events[n - 1].Write? {
        var i := |Writes(events[..n - 1])|;
        assert Writes(events[..n])[i] == events[n - 1].step == steps[i];
      }
    }
  }

  /** A search that begins in state `s`, with reads anywhere between the first of these
      stores. */
  ghost predicate Interleaves(l: Layout, g: nat, s: State, steps: seq<W.Step>, states: seq<State>, readers: seq<Reader>, events: seq<Event>)
  {
    Run(l, g, states, readers, events) && states[0] == s && readers[0] == ReadCounter(false, 0) && Writes(events) <= steps
  }

  /** The search, if it has ended, found every node of the hash that was in the map when
      it began, and the stores that were done came to what they come to alone. */
  ghost predicate FoundAll(l: Layout, g: nat, s: State, ws: seq<State>, steps: seq<W.Step>, states: seq<State>, readers: seq<Reader>, events: seq<Event>)
    requires |ws| == |steps| + 1 && Interleaves(l, g, s, steps, states, readers, events)
  {
    && states[|events|] == ws[|Writes(events)|]
    && (readers[|events|].Done? ==> forall z: nat :: Present(s, g, z) ==> Reach(states[|events|].next, readers[|events|].r, z))
  }

  lemma SearchDuringSets(l: Layout, g: nat, ws: seq<State>, steps: seq<W.Step>, states: seq<State>, readers: seq<Reader>, events: seq<Event>)
    requires I.WriterRun(l, ws, steps) && I.OnlySets(steps) && Interleaves(l, g, ws[0], steps, states, readers, events)
    ensures FoundAll(l, g, ws[0], ws, steps, states, readers, events)
  {
    hide I.WriterRun, I.OnlySets, Run, Reach, Writes, Present;
    I.RunLength(l, ws, steps);
    RunLength(l, g, states, readers, events);
    assert events[..|events|] == events;
    WritesDecide(l, g, states, readers, events, ws, steps, |events|);
    if readers[|events|].Done? {
      forall z: nat | Present(ws[0], g, z) ensures Reach(states[|events|].next, readers[|events|].r, z) {
        SetsStay(l, g, states, readers, events, steps, z);
        SearchFinds(l, g, states, readers, events, z);
      }
    }
  }

  /** The displacement of cmap_insert_bfs is a run of the writer that puts the node into
      the map and loses none; and every search with reads anywhere in between, for any
      hash, finds every node that was there when it began. */
  lemma SearchDuringDisplacement(l: Layout, s: State, bs: seq<nat>, slots: seq<nat>, h: nat, y: nat) returns (ws: seq<State>, steps: seq<W.Step>)
    requires W.SysInv(l, s) && s.w.Idle? && Route(l, TableOf(s.t), bs, slots) && Absent(l, TableOf(s.t), {}, h) && W.Fresh(s, y)
    requires bs[0] == B1(l, h) || bs[0] == B2(l, h)
    ensures I.WriterRun(l, ws, steps) && |bs| == |slots| && steps == I.RouteSteps(bs, slots, h, y)
    ensures ws[0] == s && ws[|steps|].w.Idle? && Present(ws[|steps|], h, y)
    ensures forall g: nat, z: nat :: Present(s, g, z) ==> Present(ws[|steps|], g, z)
    ensures forall g: nat, states, readers, events :: Interleaves(l, g, s, steps, states, readers, events) ==>
              FoundAll(l, g, s, ws, steps, states, readers, events)
  {
    hide W.SysInv, Route, Absent, Present, TableOf, I.WriterRun, I.OnlySets, Interleaves, FoundAll;
    ws, steps := DisplacementPublishes(l, s, bs, slots, h, y);
    I.RunLength(l, ws, steps);
    forall g: nat, states, readers, events | Interleaves(l, g, s, steps, states, readers, events)
      ensures FoundAll(l, g, s, ws, steps, states, readers, events)
    {
      SearchDuringSets(l, g, ws, steps, states, readers, events);
    }
  }

  lemma SetsStay(l: Layout, g: nat, states: seq<State>, readers: seq<Reader>, events: seq<Event>, steps: seq<W.Step>, z: nat)
    requires Run(l, g, states, readers, events) && Present(states[0], g, z) && I.OnlySets(steps) && Writes(events) <= steps
    ensures Stays(l, g, states, readers, events, z)
  {
    hide W.Valid, Present, Run, Writes;
    RunLength(l, g, states, readers, events);
    PresentNotNull(states[0], g, z);
    forall k | 0 <= k < |events| && events[k].Write? ensures NotRemoved(l, states[k], events[k].step, z) {
      WriteIsIn(events, k);
      var i :| 0 <= i < |Writes(events)| && Writes(events)[i] == events[k].step;
      assert steps[i] == Writes(events)[i];
      assert I.SetsBucket(steps[i]);
    }
  }

  /** After the stores that put a new node into a bucket the node is in the map. */
  lemma InsertPublishes(l: Layout, s: State, p: Place, h: nat, y: nat) returns (s': State)
    requires W.Valid(l, s, W.StartNew(p, h, y))
    ensures W.SysInv(l, s') && s'.w.Idle? && Present(s', h, y)
    ensures forall g: nat, z: nat :: Present(s, g, z) ==> Present(s', g, z)
  {
    hide W.SysInv, Fits, Present, TableOf, I.WriterRun, I.OnlySets;
    var states, steps := I.SetBucketSteps(l, s, W.StartNew(p, h, y), CSlot(h, y), Idle);
    I.RunLength(l, states, steps);
    s' := states[|steps|];
    I.SetIsPresent(s.t, s', p, h, y);
    forall g: nat, z: nat | Present(s, g, z) ensures Present(s', g, z) { SetsKeepPresent(l, states, steps, |steps|, g, z); }
  }

  /** A new table takes a first node of any hash. */
  lemma EmptyTakesNode(l: Layout, h: nat, y: nat)
    requires l.Ok() && y != NULL
    ensures W.Valid(l, Empty(l), W.StartNew(Place(B1(l, h), 0), h, y))
  {
    var s, p := Empty(l), Place(B1(l, h), 0);
    EmptyIsValid(l);
    W.InTableOf(s.t, p);
    forall b, i ensures !Live(TableOf(s.t), {p}, b, i) { CountsIsLive(s, b, i); }
  }

  // ---- Searching ----

  /** Places a search can be at. */
  predicate Placed(l: Layout, rd: Reader) { rd.ReadPtr? ==> rd.i < l.k }

  /** The first counter that the search goes by is out of date. */
  predicate StaleFirst(l: Layout, t: Buckets, g: nat, rd: Reader)
    requires l.Ok()
  {
    match rd
    case ReadCounter(second, c1) => second && c1 != Counter(t, B1(l, g))
    case Done(_) => false
    case _ => rd.c1 != Counter(t, B1(l, g))
  }

  /** The counter of the bucket that is being read is out of date. */
  predicate StaleHere(l: Layout, t: Buckets, g: nat, rd: Reader)
    requires l.Ok()
  {
    (rd.Scan? || rd.ReadPtr? || rd.Check?) && rd.c != Counter(t, BucketOf(l, g, rd.second))
  }

  /** How many reads are left when no counter is out of date. */
  function ReadsLeft(l: Layout, rd: Reader): nat
  {
    match rd
    case ReadCounter(second, _) => Later(l, second) + 5 + l.k
    case Scan(second, _, _, i) => Later(l, second) + 4 + if i < l.k then l.k - i else 0
    case ReadPtr(second, _, _, _) => Later(l, second) + 3
    case Check(second, _, _, _) => Later(l, second) + 2
    case Last(_) => 1
    case Done(_) => 0
  }

  function Later(l: Layout, second: bool): nat { if second then 0 else 4 + l.k }

  /** A read in a quiet table brings the search closer to its end. */
  lemma ReadGoesOn(l: Layout, s: State, g: nat, rd: Reader)
    requires W.SysInv(l, s) && !s.w.Setting? && Placed(l, rd) && !rd.Done?
    ensures l.Ok() && Shape(l, TableOf(s.t)) && Placed(l, Read(l, s.t, g, rd))
    ensures var rd' := Read(l, s.t, g, rd);
            var a, a', b, b' := StaleFirst(l, s.t, g, rd), StaleFirst(l, s.t, g, rd'), StaleHere(l, s.t, g, rd), StaleHere(l, s.t, g, rd');
            (a && !a') || (a == a' && ((b && !b') || (b == b' && ReadsLeft(l, rd') < ReadsLeft(l, rd))))
  {
    hide Inv, W.SysInv, TableOf;
    InTables(l, s, g);
    EvenNow(l, s, B1(l, g));
    EvenNow(l, s, B2(l, g));
  }

  lemma EvenNow(l: Layout, s: State, b: nat)
    requires W.SysInv(l, s) && !s.w.Setting? && b < |s.t|
    ensures s.t[b].counter % 2 == 0
  {
    hide Inv;
  }

  /** From wherever a search is, reads alone bring it to its end. */
  lemma {:induction false} ReadsEnd(l: Layout, s: State, g: nat, rd: Reader) returns (readers: seq<Reader>)
    requires W.SysInv(l, s) && !s.w.Setting? && Placed(l, rd) && l.Ok()
    ensures Shape(l, TableOf(s.t)) && readers != [] && readers[0] == rd && readers[|readers| - 1].Done?
    ensures forall k :: 0 <= k < |readers| - 1 ==> readers[k + 1] == Read(l, s.t, g, readers[k])
    decreases StaleFirst(l, s.t, g, rd), StaleHere(l, s.t, g, rd), ReadsLeft(l, rd)
  {
    hide W.SysInv, Read, TableOf, StaleFirst, StaleHere, ReadsLeft;
    InTables(l, s, g);
    if rd.Done? {
      readers := [rd];
    } else {
      ReadGoesOn(l, s, g, rd);
      var rest := ReadsEnd(l, s, g, Read(l, s.t, g, rd));
      readers := [rd] + rest;
    }
  }

  /** A search of a quiet table ends, with a chain that has every node of the hash
      that is in the map, and no node of another hash. */
  lemma QuietSearchEnds(l: Layout, s: State, g: nat) returns (states: seq<State>, readers: seq<Reader>, events: seq<Event>)
    requires W.SysInv(l, s) && !s.w.Setting?
    ensures Run(l, g, states, readers, events) && states[0] == states[|events|] == s
    ensures readers[0] == ReadCounter(false, 0) && readers[|events|].Done?
    ensures forall z: nat :: Present(s, g, z) ==> Reach(s.next, readers[|events|].r, z)
    ensures forall v: nat :: Reach(s.next, readers[|events|].r, v) ==> v in s.hashOf && s.hashOf[v] == g
  {
    hide W.SysInv, Read, TableOf, Present, Reach;
    InTables(l, s, g);
    readers := ReadsEnd(l, s, g, ReadCounter(false, 0));
    var n := |readers| - 1;
    states, events := seq(n + 1, _ => s), seq(n, _ => ReadOne);
    assert forall k :: 0 <= k < n ==> Follows(l, g, states[k], readers[k], events[k], states[k + 1], readers[k + 1]);
    forall z: nat | Present(s, g, z) ensures Reach(s.next, readers[n].r, z) { SearchFinds(l, g, states, readers, events, z); }
    forall v: nat | Reach(s.next, readers[n].r, v) ensures v in s.hashOf && s.hashOf[v] == g {
      SearchHash(l, g, states, readers, events, v);
    }
  }

  /** A first insertion and the search after it. */
  lemma InsertThenFind(l: Layout, h: nat, y: nat) returns (s: State, states: seq<State>, readers: seq<Reader>, events: seq<Event>)
    requires l.Ok() && y != NULL
    ensures Run(l, h, states, readers, events) && states[|events|] == s && readers[|events|].Done?
    ensures Present(s, h, y) && Reach(s.next, readers[|events|].r, y)
  {
    hide W.Valid, W.SysInv, Run, Present, Reach;
    EmptyTakesNode(l, h, y);
    s := InsertPublishes(l, Empty(l), Place(B1(l, h), 0), h, y);
    states, readers, events := QuietSearchEnds(l, s, h);
    RunLength(l, h, states, readers, events);
  }
}
