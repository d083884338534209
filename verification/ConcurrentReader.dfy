/** A reader of the concurrent map in the middle of the writer's stores: a node
    that stays in the map is on the chain the search returns, and that chain has
    exactly the hash that was asked for. */
module ConcurrentReader {
  import opened CuckooTable
  import opened CuckooInsert
  import opened ConcurrentTable
  import opened ConcurrentWriter

  // ---- What a step of the writer does to what a reader has seen ----

  /** The node that a step brings in, if any. */
  function NewNode(step: Step): nat
  {
    match step
    case Dup(_, y) => y
    case ReplaceFirst(_, y) => y
    case ReplaceAfter(_, y) => y
    case StartNew(_, _, y) => y
    case _ => NULL
  }

  lemma StepPointers(l: Layout, s: State, step: Step)
    requires Valid(l, s, step)
    ensures NewNode(step) !in s.hashOf
    ensures forall v :: v != NewNode(step) ==> Kept(s.next, Apply(l, s, step).next, v, Removed(l, s, step), NewNode(step))
    ensures forall x :: x in s.hashOf ==> x in Apply(l, s, step).hashOf && Apply(l, s, step).hashOf[x] == s.hashOf[x]
  {
    hide Inv, Fits, CanMove, NoneBears, TableOf, Parity, SlotsSorted;
  }

  lemma SortedNow(l: Layout, s: State)
    requires SysInv(l, s)
    ensures Sorted(s.next, s.hashOf)
  {
  }

  /** A node stays on every chain it is on, while it stays in the map. */
  lemma StepKeepsReach(l: Layout, s: State, step: Step, r: nat, z: nat)
    requires Valid(l, s, step) && r in s.hashOf && Reach(s.next, r, z) && z != Removed(l, s, step)
    ensures r in Apply(l, s, step).hashOf && Reach(Apply(l, s, step).next, r, z)
  {
    hide SysInv, Guard, Apply, Removed, Reach, Kept, Sorted;
    StepPointers(l, s, step);
    SortedNow(l, s);
    ReachKept(s.next, Apply(l, s, step).next, s.hashOf, r, z, Removed(l, s, step), NewNode(step));
  }

  lemma CountedNode(l: Layout, s: State, b: int, i: int)
    requires SysInv(l, s) && Counts(s, b, i)
    ensures s.t[b].slots[i].ptr in s.hashOf && s.hashOf[s.t[b].slots[i].ptr] == s.t[b].slots[i].hash
  {
    hide Inv, TableOf;
  }

  /** Where hash `g` is found after a step: the place that counts for it, with a
      pointer from which the node can be reached. */
  lemma PlaceAfter(l: Layout, s: State, step: Step, b: int, i: int, z: nat) returns (b': int, i': int)
    requires Valid(l, s, step) && Counts(s, b, i) && Reach(s.next, s.t[b].slots[i].ptr, z) && z != Removed(l, s, step)
    ensures var s' := Apply(l, s, step);
            Counts(s', b', i') && s'.t[b'].slots[i'].hash == s.t[b].slots[i].hash && Reach(s'.next, s'.t[b'].slots[i'].ptr, z)
  {
    hide Inv, Fits, CanMove, NoneBears, TableOf, Parity, Sorted, Reach, SlotsSorted;
    var s' := Apply(l, s, step);
    var ptr := s.t[b].slots[i].ptr;
    CountedNode(l, s, b, i);
    StepKeepsReach(l, s, step, ptr, z);
    b', i' := b, i;
    match step
    case Dup(p, y) =>
      if p == Place(b, i) { ReachOn(s'.next, y, z); }
    case UnlinkFirst(p) =>
      if p == Place(b, i) { ReachRest(s.next, ptr, z); }
    case ReplaceFirst(p, y) =>
      if p == Place(b, i) { ReplacedFirst(l, s, step, p, y, z); }
    case Finish =>
      if s.w.after == Hole(Place(b, i)) { b', i' := s.w.p.b, s.w.p.i; }
    case _ =>
  }

  lemma ReplacedFirst(l: Layout, s: State, step: Step, p: Place, y: nat, z: nat)
    requires Valid(l, s, step) && step == ReplaceFirst(p, y) && Reach(s.next, At(s.t, p).ptr, z) && z != At(s.t, p).ptr
    ensures Reach(Apply(l, s, step).next, y, z)
  {
    hide Inv, TableOf, Parity, Reach;
    var x := At(s.t, p).ptr;
    ReachRest(s.next, x, z);
    assert x in s.hashOf && PointsWell(s.next, s.hashOf, x);
    StepKeepsReach(l, s, step, NextOf(s.next, x), z);
    ReachOn(Apply(l, s, step).next, y, z);
  }

  /** A node in the map stays there unless the step removes it. */
  lemma StepKeepsPresent(l: Layout, s: State, step: Step, g: nat, z: nat)
    requires Valid(l, s, step) && Present(s, g, z) && z != Removed(l, s, step)
    ensures Present(Apply(l, s, step), g, z)
  {
    hide SysInv, Guard, Apply, Removed, Reach, Holes;
    var b: int, i: int :| Counts(s, b, i) && s.t[b].slots[i].hash == g && Reach(s.next, s.t[b].slots[i].ptr, z);
    var b', i' := PlaceAfter(l, s, step, b, i, z);
  }

  /** Counters only grow, and a bucket whose counter is even and does not change
      keeps its hashes. */
  lemma QuietBucket(l: Layout, s: State, step: Step, b: nat)
    requires Valid(l, s, step) && b < |s.t|
    ensures var t' := Apply(l, s, step).t;
            && |t'| == |s.t| && Counter(t', b) >= Counter(s.t, b) && |t'[b].slots| == |s.t[b].slots|
            && (Counter(t', b) == Counter(s.t, b) && Counter(t', b) % 2 == 0 ==>
                  forall i :: 0 <= i < |s.t[b].slots| ==> t'[b].slots[i].hash == s.t[b].slots[i].hash)
  {
    hide Inv, Fits, CanMove, NoneBears, TableOf, Sorted, SlotsSorted;
  }

  /** A place that comes to count in a quiet bucket bore its hash before, and then
      that hash was not in use. */
  lemma NewlyCounts(l: Layout, s: State, step: Step, b: nat, i: int)
    requires Valid(l, s, step) && b < |s.t|
    requires var s' := Apply(l, s, step);
             Counter(s'.t, b) == Counter(s.t, b) && Counter(s.t, b) % 2 == 0 && Counts(s', b, i) && !Counts(s, b, i)
    ensures step.Dup? && step.p == Place(b, i) && At(s.t, step.p).ptr == NULL
  {
    hide Inv, Fits, CanMove, NoneBears, TableOf, Sorted, SlotsSorted;
  }

  lemma RevivedWasUnused(l: Layout, s: State, step: Step, b: int, i: int)
    requires Valid(l, s, step) && step.Dup? && At(s.t, step.p).ptr == NULL && Counts(s, b, i)
    ensures s.t[b].slots[i].hash != At(s.t, step.p).hash
  {
    hide Inv, Fits, TableOf, Sorted, SlotsSorted, Parity, NoneBears;
    var p, h := step.p, At(s.t, step.p).hash;
    InTableOf(s.t, p);
    BearerFits(l, TableOf(s.t), p, h);
    CountsIsLive(s, b, i);
    ValidShape(l, TableOf(s.t), {});
    UnusedElsewhere(l, s.t, p, h, b, i);
  }

  lemma UnusedElsewhere(l: Layout, t: Buckets, p: Place, h: nat, b: int, i: int)
    requires l.Ok() && Fits(l, TableOf(t), {p}, p, h) && Live(TableOf(t), {}, b, i) && In(t, p) && At(t, p).ptr == NULL
    ensures HashAt(TableOf(t), b, i) != h
  {
    InTableOf(t, p);
    assert Live(TableOf(t), {p}, b, i);
  }

  /** A hash in use does not come into a quiet bucket. */
  lemma StepKeepsOut(l: Layout, s: State, step: Step, g: nat, z: nat, b: nat)
    requires Valid(l, s, step) && Present(s, g, z) && b < |s.t| && !InBucket(s, g, b)
    requires Counter(Apply(l, s, step).t, b) == Counter(s.t, b) && Counter(s.t, b) % 2 == 0
    ensures !InBucket(Apply(l, s, step), g, b)
  {
    hide SysInv, Guard, Apply, Reach, Holes;
    var s' := Apply(l, s, step);
    QuietBucket(l, s, step, b);
    forall i | Counts(s', b, i) ensures s'.t[b].slots[i].hash != g {
      if Counts(s, b, i) {
        assert s.t[b].slots[i].hash != g;
      } else {
        NewlyCounts(l, s, step, b, i);
        var b2: int, i2: int :| Counts(s, b2, i2) && s.t[b2].slots[i2].hash == g;
        RevivedWasUnused(l, s, step, b2, i2);
      }
    }
  }

  // ---- The reader ----

  /** Where cmap_find__ is: about to read the counter of its first or second
      bucket, at slot `i` of the bucket, about to read the pointer of that slot,
      about to check the counter again, about to check the first counter at last,
      or done. */
  datatype Reader =
    | ReadCounter(second: bool, c1: nat)
    | Scan(second: bool, c1: nat, c: nat, i: nat)
    | ReadPtr(second: bool, c1: nat, c: nat, i: nat)
    | Check(second: bool, c1: nat, c: nat, r: nat)
    | Last(c1: nat)
    | Done(r: nat)

  function BucketOf(l: Layout, g: nat, second: bool): nat
    requires l.Ok()
  {
    if second then B2(l, g) else B1(l, g)
  }

  /** The next step of a search for hash `g`: one read of shared state. */
  function Read(l: Layout, t: Buckets, g: nat, rd: Reader): Reader
    requires Shape(l, TableOf(t))
  {
    match rd
    case ReadCounter(second, c1) =>
      var c := t[BucketOf(l, g, second)].counter;
      if c % 2 == 1 then rd else Scan(second, if second then c1 else c, c, 0)
    case Scan(second, c1, c, i) =>
      if i >= l.k then Check(second, c1, c, NULL)
      else if t[BucketOf(l, g, second)].slots[i].hash == g then ReadPtr(second, c1, c, i)
      else Scan(second, c1, c, i + 1)
    case ReadPtr(second, c1, c, i) =>
      if i >= l.k then rd else Check(second, c1, c, t[BucketOf(l, g, second)].slots[i].ptr)
    case Check(second, c1, c, r) =>
      if t[BucketOf(l, g, second)].counter != c then ReadCounter(second, c1)
      else if r != NULL then Done(r)
      else if second then Last(c1)
      else ReadCounter(true, c1)
    case Last(c1) => if t[B1(l, g)].counter != c1 then ReadCounter(false, 0) else Done(NULL)
    case Done(_) => rd
  }

  /** The counter read is even and still in the future of no store. */
  ghost predicate Seen(t: Buckets, b: int, c: nat)
  {
    c % 2 == 0 && c <= Counter(t, b)
  }

  ghost predicate NoneBefore(t: Buckets, b: int, n: nat, g: nat)
  {
    forall j :: 0 <= j < n ==> Other(t, b, j, g)
  }

  ghost predicate Other(t: Buckets, b: int, j: int, g: nat)
  {
    0 <= b < |t| && 0 <= j < |t[b].slots| && t[b].slots[j].hash != g
  }

  /** While the first bucket has counter `c1` it does not have the hash. */
  ghost predicate FirstDone(l: Layout, s: State, g: nat, c1: nat)
    requires l.Ok()
  {
    Seen(s.t, B1(l, g), c1) && (Counter(s.t, B1(l, g)) == c1 ==> !InBucket(s, g, B1(l, g)))
  }

  /** The pointer leads to node `z`; a null pointer means the hash is not in the
      bucket. */
  ghost predicate Leads(s: State, g: nat, z: nat, b: int, r: nat)
  {
    if r == NULL then !InBucket(s, g, b) else r in s.hashOf && Reach(s.next, r, z)
  }

  /** What the reader can rely on, for a node `z` that stays in the map. */
  ghost predicate ReaderInv(l: Layout, s: State, g: nat, z: nat, rd: Reader)
    requires l.Ok()
  {
    match rd
    case ReadCounter(second, c1) => second ==> FirstDone(l, s, g, c1)
    case Scan(second, c1, c, i) =>
      var b := BucketOf(l, g, second);
      (second ==> FirstDone(l, s, g, c1)) && (!second ==> c1 == c) && Seen(s.t, b, c) && (Counter(s.t, b) == c ==> NoneBefore(s.t, b, i, g))
    case ReadPtr(second, c1, c, i) =>
      var b := BucketOf(l, g, second);
      (second ==> FirstDone(l, s, g, c1)) && (!second ==> c1 == c) && Seen(s.t, b, c) && i < l.k
      && (Counter(s.t, b) == c ==> NoneBefore(s.t, b, i, g) && HashIs(s.t, b, i, g))
    case Check(second, c1, c, r) =>
      var b := BucketOf(l, g, second);
      (second ==> FirstDone(l, s, g, c1)) && (!second ==> c1 == c) && Seen(s.t, b, c) && (Counter(s.t, b) == c ==> Leads(s, g, z, b, r))
    case Last(c1) => Counter(s.t, B1(l, g)) > c1
    case Done(r) => r in s.hashOf && Reach(s.next, r, z)
  }

  ghost predicate HashIs(t: Buckets, b: int, i: nat, g: nat)
  {
    0 <= b < |t| && i < |t[b].slots| && t[b].slots[i].hash == g
  }

  // ---- Steps of the writer ----

  lemma StepKeepsFirstDone(l: Layout, s: State, step: Step, g: nat, z: nat, c1: nat)
    requires Valid(l, s, step) && Present(s, g, z) && l.Ok() && FirstDone(l, s, g, c1) && B1(l, g) < |s.t|
    ensures FirstDone(l, Apply(l, s, step), g, c1)
  {
    hide SysInv, Guard, Apply, Present, InBucket;
    var b := B1(l, g);
    QuietBucket(l, s, step, b);
    if Counter(Apply(l, s, step).t, b) == c1 { StepKeepsOut(l, s, step, g, z, b); }
  }

  lemma StepKeepsScan(l: Layout, s: State, step: Step, b: nat, c: nat, n: nat, g: nat)
    requires Valid(l, s, step) && b < |s.t| && Seen(s.t, b, c) && (Counter(s.t, b) == c ==> NoneBefore(s.t, b, n, g))
    ensures var t' := Apply(l, s, step).t; Seen(t', b, c) && (Counter(t', b) == c ==> NoneBefore(t', b, n, g))
    ensures var t' := Apply(l, s, step).t;
            forall i :: 0 <= i && Counter(t', b) == c && Counter(s.t, b) == c && HashIs(s.t, b, i, g) ==> HashIs(t', b, i, g)
  {
    hide SysInv, Guard, Apply;
    QuietBucket(l, s, step, b);
    var t' := Apply(l, s, step).t;
    if Counter(t', b) == c {
      forall j | 0 <= j < n ensures Other(t', b, j, g) { assert Other(s.t, b, j, g); }
    }
  }

  lemma StepKeepsLeads(l: Layout, s: State, step: Step, g: nat, z: nat, b: nat, c: nat, r: nat)
    requires Valid(l, s, step) && Present(s, g, z) && z != Removed(l, s, step) && b < |s.t| && Seen(s.t, b, c)
    requires Counter(s.t, b) == c ==> Leads(s, g, z, b, r)
    ensures var s' := Apply(l, s, step); Seen(s'.t, b, c) && (Counter(s'.t, b) == c ==> Leads(s', g, z, b, r))
  {
    hide SysInv, Guard, Apply, Removed, Present, InBucket, Reach;
    QuietBucket(l, s, step, b);
    if Counter(Apply(l, s, step).t, b) == c {
      if r == NULL {
        StepKeepsOut(l, s, step, g, z, b);
      } else {
        StepKeepsReach(l, s, step, r, z);
      }
    }
  }

  lemma InTables(l: Layout, s: State, g: nat)
    requires SysInv(l, s)
    ensures l.Ok() && Shape(l, TableOf(s.t)) && B1(l, g) < |s.t| && B2(l, g) < |s.t|
    ensures forall b :: 0 <= b < |s.t| ==> |s.t[b].slots| == l.k
  {
    ValidShape(l, TableOf(s.t), Holes(s.w));
    forall b | 0 <= b < |s.t| ensures |s.t[b].slots| == l.k { assert |TableOf(s.t)[b]| == l.k; }
  }

  lemma WriterKeepsReader(l: Layout, s: State, step: Step, g: nat, z: nat, rd: Reader)
    requires Valid(l, s, step) && Present(s, g, z) && z != Removed(l, s, step) && l.Ok() && ReaderInv(l, s, g, z, rd)
    ensures ReaderInv(l, Apply(l, s, step), g, z, rd)
  {
    hide SysInv, Guard, Apply, Removed, Present, FirstDone, Leads, Reach, Seen, NoneBefore, HashIs;
    InTables(l, s, g);
    match rd
    case ReadCounter(second, c1) =>
      if second { StepKeepsFirstDone(l, s, step, g, z, c1); }
    case Scan(second, c1, c, i) =>
      if second { StepKeepsFirstDone(l, s, step, g, z, c1); }
      StepKeepsScan(l, s, step, BucketOf(l, g, second), c, i, g);
    case ReadPtr(second, c1, c, i) =>
      if second { StepKeepsFirstDone(l, s, step, g, z, c1); }
      StepKeepsScan(l, s, step, BucketOf(l, g, second), c, i, g);
      CounterNotBack(l, s, step, BucketOf(l, g, second), c);
    case Check(second, c1, c, r) =>
      if second { StepKeepsFirstDone(l, s, step, g, z, c1); }
      StepKeepsLeads(l, s, step, g, z, BucketOf(l, g, second), c, r);
    case Last(c1) => QuietBucket(l, s, step, B1(l, g));
    case Done(r) => StepKeepsReach(l, s, step, r, z);
  }

  lemma CounterNotBack(l: Layout, s: State, step: Step, b: nat, c: nat)
    requires Valid(l, s, step) && b < |s.t| && Seen(s.t, b, c)
    ensures Counter(Apply(l, s, step).t, b) == c ==> Counter(s.t, b) == c
  {
    QuietBucket(l, s, step, b);
  }

  // ---- Steps of the reader ----

  /** A quiet bucket is not being set. */
  lemma QuietNow(l: Layout, s: State, b: nat)
    requires SysInv(l, s) && b < |s.t| && Counter(s.t, b) % 2 == 0
    ensures !(s.w.Setting? && s.w.p.b == b)
  {
  }

  /** The first slot of a quiet bucket that bears the hash has the pointer of the
      hash's own place, or a null pointer when that is elsewhere. */
  lemma FirstBearer(l: Layout, s: State, g: nat, z: nat, b: nat, i: nat)
    requires SysInv(l, s) && Present(s, g, z) && b < |s.t| && Counter(s.t, b) % 2 == 0
    requires NoneBefore(s.t, b, i, g) && HashIs(s.t, b, i, g)
    ensures Leads(s, g, z, b, s.t[b].slots[i].ptr)
  {
    hide Inv, TableOf, Sorted, Reach, Fits;
    QuietNow(l, s, b);
    var r := s.t[b].slots[i].ptr;
    if r == NULL {
      forall j | Counts(s, b, j) ensures s.t[b].slots[j].hash != g { NoLaterPlace(l, s, g, b, i, j); }
    } else {
      var b2: int, i2: int :| Counts(s, b2, i2) && s.t[b2].slots[i2].hash == g && Reach(s.next, s.t[b2].slots[i2].ptr, z);
      if Counts(s, b, i) {
        OnePlace(l, s, b, i, b2, i2);
      } else {
        var q: Place :| q != s.w.p && In(s.t, q) && At(s.t, q) == At(s.t, s.w.p);
        assert Counts(s, q.b, q.i);
        OnePlace(l, s, q.b, q.i, b2, i2);
      }
    }
  }

  lemma OnePlace(l: Layout, s: State, b: int, i: int, b': int, i': int)
    requires SysInv(l, s) && Counts(s, b, i) && Counts(s, b', i') && s.t[b].slots[i].hash == s.t[b'].slots[i'].hash
    ensures b == b' && i == i'
  {
    CountsIsLive(s, b, i);
    CountsIsLive(s, b', i');
  }

  /** A place that counts is the first that bears its hash. */
  lemma NoLaterPlace(l: Layout, s: State, g: nat, b: nat, i: nat, j: int)
    requires SysInv(l, s) && b < |s.t| && NoneBefore(s.t, b, i, g) && HashIs(s.t, b, i, g) && s.t[b].slots[i].ptr == NULL
    requires Counts(s, b, j) && !(s.w.Setting? && s.w.p.b == b)
    ensures s.t[b].slots[j].hash != g
  {
    CountsIsLive(s, b, j);
    if j < i {
      assert Other(s.t, b, j, g);
    } else if j > i {
      assert Bears(TableOf(s.t), Holes(s.w), b, i, g);
    }
  }

  lemma NoBearer(s: State, g: nat, b: nat)
    requires b < |s.t| && NoneBefore(s.t, b, |s.t[b].slots|, g)
    ensures !InBucket(s, g, b)
  {
    forall i | Counts(s, b, i) ensures s.t[b].slots[i].hash != g { assert Other(s.t, b, i, g); }
  }

  /** The hash of a node in the map is in one of its two buckets. */
  lemma SomeBucket(l: Layout, s: State, g: nat, z: nat)
    requires SysInv(l, s) && Present(s, g, z) && l.Ok()
    ensures InBucket(s, g, B1(l, g)) || InBucket(s, g, B2(l, g))
  {
    var b: int, i: int :| Counts(s, b, i) && s.t[b].slots[i].hash == g && Reach(s.next, s.t[b].slots[i].ptr, z);
    CountsIsLive(s, b, i);
  }

  lemma ReadKeepsReader(l: Layout, s: State, g: nat, z: nat, rd: Reader)
    requires SysInv(l, s) && Present(s, g, z) && l.Ok() && Shape(l, TableOf(s.t)) && ReaderInv(l, s, g, z, rd)
    ensures ReaderInv(l, s, g, z, Read(l, s.t, g, rd))
  {
    hide SysInv, Present, InBucket, Reach, TableOf;
    InTables(l, s, g);
    match rd
    case ReadCounter(second, c1) =>
    case Scan(second, c1, c, i) =>
      var b := BucketOf(l, g, second);
      if i >= l.k && Counter(s.t, b) == c { NoBearer(s, g, b); }
    case ReadPtr(second, c1, c, i) =>
      var b := BucketOf(l, g, second);
      if Counter(s.t, b) == c { FirstBearer(l, s, g, z, b, i); }
    case Check(second, c1, c, r) =>
      SomeBucket(l, s, g, z);
    case Last(c1) =>
    case Done(r) =>
  }

  // ---- Whole searches ----

  /** A store of the writer, or a read of the reader. */
  datatype Event = Write(step: Step) | ReadOne

  /** Every state follows from the one before it by the event between them. */
  ghost predicate Run(l: Layout, g: nat, states: seq<State>, readers: seq<Reader>, events: seq<Event>)
  {
    && |states| == |events| + 1 && |readers| == |events| + 1 && SysInv(l, states[0])
    && forall k :: 0 <= k < |events| ==> Follows(l, g, states[k], readers[k], events[k], states[k + 1], readers[k + 1])
  }

  ghost predicate Follows(l: Layout, g: nat, s: State, rd: Reader, e: Event, s': State, rd': Reader)
  {
    match e
    case Write(step) => Valid(l, s, step) && s' == Apply(l, s, step) && rd' == rd
    case ReadOne => s' == s && Shape(l, TableOf(s.t)) && rd' == Read(l, s.t, g, rd)
  }

  /** No event of the run takes node `z` out of the map. */
  ghost predicate Stays(l: Layout, g: nat, states: seq<State>, readers: seq<Reader>, events: seq<Event>, z: nat)
    requires Run(l, g, states, readers, events)
  {
    forall k :: 0 <= k < |events| && events[k].Write? ==> NotRemoved(l, states[k], events[k].step, z)
  }

  ghost predicate NotRemoved(l: Layout, s: State, step: Step, z: nat)
  {
    Valid(l, s, step) ==> z != Removed(l, s, step)
  }

  /** The invariants hold all along the run. */
  lemma {:induction false} RunKeeps(l: Layout, g: nat, states: seq<State>, readers: seq<Reader>, events: seq<Event>, z: nat, n: nat)
    requires Run(l, g, states, readers, events) && Stays(l, g, states, readers, events, z) && n <= |events|
    requires Present(states[0], g, z) && readers[0] == ReadCounter(false, 0)
    ensures SysInv(l, states[n]) && l.Ok() && Present(states[n], g, z) && ReaderInv(l, states[n], g, z, readers[n])
  {
    hide SysInv, Present, Read, Apply, Guard, Removed;
    InTables(l, states[0], g);
    if n > 0 {
      var k := n - 1;
      RunKeeps(l, g, states, readers, events, z, k);
      assert Follows(l, g, states[k], readers[k], events[k], states[k + 1], readers[k + 1]);
      match events[k]
      case Write(step) =>
        assert NotRemoved(l, states[k], step, z);
        StepKeepsInv(l, states[k], step);
        StepKeepsPresent(l, states[k], step, g, z);
        WriterKeepsReader(l, states[k], step, g, z, readers[k]);
      case ReadOne =>
        ReadKeepsReader(l, states[k], g, z, readers[k]);
    }
  }

  /** Over every interleaving: a search that ends returns a chain with every node
      of the hash that was in the map all the time. */
  lemma SearchFinds(l: Layout, g: nat, states: seq<State>, readers: seq<Reader>, events: seq<Event>, z: nat)
    requires Run(l, g, states, readers, events) && Stays(l, g, states, readers, events, z)
    requires Present(states[0], g, z) && readers[0] == ReadCounter(false, 0) && readers[|events|].Done?
    ensures readers[|events|].r != NULL && Reach(states[|events|].next, readers[|events|].r, z)
  {
    hide Run, Stays, SysInv, Present, Reach;
    RunLength(l, g, states, readers, events);
    RunKeeps(l, g, states, readers, events, z, |events|);
    ReachNotNull(states[|events|].next, readers[|events|].r, z);
  }

  lemma RunLength(l: Layout, g: nat, states: seq<State>, readers: seq<Reader>, events: seq<Event>)
    requires Run(l, g, states, readers, events)
    ensures |states| == |events| + 1 && |readers| == |events| + 1 && SysInv(l, states[0])
  {
  }

  // ---- The hash of the chain returned ----

  ghost predicate HasHash(s: State, r: nat, g: nat)
  {
    r != NULL ==> r in s.hashOf && s.hashOf[r] == g
  }

  ghost predicate HashInv(l: Layout, s: State, g: nat, rd: Reader)
    requires l.Ok()
  {
    match rd
    case ReadCounter(_, _) => true
    case Scan(second, _, c, _) => Seen(s.t, BucketOf(l, g, second), c)
    case ReadPtr(second, _, c, i) =>
      var b := BucketOf(l, g, second);
      Seen(s.t, b, c) && (Counter(s.t, b) == c ==> HashIs(s.t, b, i, g))
    case Check(second, _, c, r) =>
      var b := BucketOf(l, g, second);
      Seen(s.t, b, c) && (Counter(s.t, b) == c ==> HasHash(s, r, g))
    case Last(_) => true
    case Done(r) => HasHash(s, r, g)
  }

  lemma WriterKeepsHash(l: Layout, s: State, step: Step, g: nat, rd: Reader)
    requires Valid(l, s, step) && l.Ok() && HashInv(l, s, g, rd)
    ensures HashInv(l, Apply(l, s, step), g, rd)
  {
    hide SysInv, Guard, Apply, Removed, Kept;
    InTables(l, s, g);
    StepPointers(l, s, step);
    QuietBucket(l, s, step, B1(l, g));
    QuietBucket(l, s, step, B2(l, g));
  }

  lemma SlotHash(l: Layout, s: State, g: nat, b: nat, i: nat)
    requires SysInv(l, s) && b < |s.t| && Counter(s.t, b) % 2 == 0 && HashIs(s.t, b, i, g)
    ensures HasHash(s, s.t[b].slots[i].ptr, g)
  {
    hide Inv, TableOf, Fits;
    QuietNow(l, s, b);
  }

  lemma ReadKeepsHash(l: Layout, s: State, g: nat, rd: Reader)
    requires SysInv(l, s) && l.Ok() && Shape(l, TableOf(s.t)) && HashInv(l, s, g, rd)
    ensures HashInv(l, s, g, Read(l, s.t, g, rd))
  {
    hide SysInv, TableOf, HasHash;
    InTables(l, s, g);
    NullHasHash(s, g);
    if rd.ReadPtr? && Counter(s.t, BucketOf(l, g, rd.second)) == rd.c {
      SlotHash(l, s, g, BucketOf(l, g, rd.second), rd.i);
    }
  }

  lemma NullHasHash(s: State, g: nat)
    ensures HasHash(s, NULL, g)
  {
  }

  lemma {:induction false} RunKeepsHash(l: Layout, g: nat, states: seq<State>, readers: seq<Reader>, events: seq<Event>, n: nat)
    requires Run(l, g, states, readers, events) && n <= |events| && readers[0] == ReadCounter(false, 0)
    ensures SysInv(l, states[n]) && l.Ok() && HashInv(l, states[n], g, readers[n])
  {
    hide SysInv, Read, Apply, Guard;
    InTables(l, states[0], g);
    if n > 0 {
      var k := n - 1;
      RunKeepsHash(l, g, states, readers, events, k);
      assert Follows(l, g, states[k], readers[k], events[k], states[k + 1], readers[k + 1]);
      match events[k]
      case Write(step) =>
        StepKeepsInv(l, states[k], step);
        WriterKeepsHash(l, states[k], step, g, readers[k]);
      case ReadOne =>
        ReadKeepsHash(l, states[k], g, readers[k]);
    }
  }

  /** Every node of the chain a search returns has exactly the requested hash. */
  lemma SearchHash(l: Layout, g: nat, states: seq<State>, readers: seq<Reader>, events: seq<Event>, v: nat)
    requires Run(l, g, states, readers, events) && readers[0] == ReadCounter(false, 0) && readers[|events|].Done?
    requires Reach(states[|events|].next, readers[|events|].r, v)
    ensures v in states[|events|].hashOf && states[|events|].hashOf[v] == g
  {
    hide Run, SysInv, Reach;
    RunLength(l, g, states, readers, events);
    RunKeepsHash(l, g, states, readers, events, |events|);
    var s, r := states[|events|], readers[|events|].r;
    ReachNotNull(s.next, r, v);
    SortedNow(l, s);
    ReachHash(s.next, s.hashOf, r, v);
  }

  // ---- Where runs start ----

  /** A new, zeroed table. */
  function Empty(l: Layout): State
  {
    State(seq(l.nBuckets, _ => CBucket(0, seq(l.k, _ => CSlot(0, NULL)))), map[], map[], Idle)
  }

  lemma EmptyIsValid(l: Layout)
    requires l.Ok()
    ensures SysInv(l, Empty(l))
  {
    var s := Empty(l);
    var t := TableOf(s.t);
    forall b, i ensures !Live(t, {}, b, i) { CountsIsLive(s, b, i); }
    assert Inv(l, t, {});
  }
}
