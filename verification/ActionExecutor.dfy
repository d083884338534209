/** Execution of action lists: outputs are delayed by one action to save a clone,
    recirculated and sampled packets wait in a bounded queue, and re-entry through
    ports that lead back into the datapath is limited. */
module ActionExecutor {
  import opened Basics
  type Pkt = seq<bv8>
  type Buf = nat

  const DEFERRED_ACTION_FIFO_SIZE := 10
  const EXEC_ACTIONS_LEVEL_LIMIT := 4

  /** `Modify` stands for header pushes and pops, sets and hashes; `Ct` for
      connection tracking. */
  datatype Action =
    | Output(port: nat)
    | Userspace
    | Modify(op: nat)
    | Ct(ct: nat)
    | Recirc(id: nat)
    | Sample(actions: seq<Action>)

  /** A packet change that succeeded, failed, or took the packet away. */
  datatype Outcome = Go(p: Pkt) | Fail | Gone

  /** Action number `index` of the list that is run as number `run`. */
  datatype Turn = Turn(run: nat, index: nat)

  /** What the executor asks of the rest of the datapath.  Chance and memory shortage
      may make each turn come out differently.  `runs` is the list that is run for a
      deferred sample. */
  datatype Env = Env(
    change: (Turn, nat, Pkt) -> Outcome,
    track: (Turn, nat, Pkt) -> Outcome,
    sampled: Turn -> bool,
    runs: seq<Action> -> seq<Action>,
    upcallOk: Turn -> bool,
    flowFor: (Pkt, nat) -> Option<seq<Action>>,
    hasPort: nat -> bool,
    leadsBack: nat -> bool)

  /** What a packet waits for: a lookup with its recirculation id, or the actions of a
      sample. */
  datatype Job = Job(pkt: Pkt, recirc: nat, actions: Option<seq<Action>>)

  datatype Deferred = Deferred(buf: Buf, job: Job)

  /** What a list does: it hands a packet to a port or to userspace, or asks for a job to
      be done later. */
  datatype Deed = Out(pkt: Pkt, port: nat) | Up(pkt: Pkt) | Ask(job: Job)

  /** What happens.  Lists at some nesting level begin and do things; packets that enter
      are copied to userspace and looked up; jobs are taken from the queue; and buffers
      are sent, freed or taken away. */
  datatype Event =
    | Began(level: nat, pkt: Pkt, acts: seq<Action>)
    | Did(level: nat, deed: Deed)
    | Copied(pkt: Pkt)
    | Looked(level: nat, pkt: Pkt, recirc: nat)
    | Took(job: Job)
    | Sent(buf: Buf, pkt: Pkt, port: nat)
    | Freed(buf: Buf)
    | Stolen(buf: Buf)
  {
    predicate Ends() { Sent? || Freed? || Stolen? }

    predicate Asks() { Did? && deed.Ask? }
  }

  /** What lists at a nesting level did. */
  function DeedsAt(log: seq<Event>, l: nat): seq<Deed>
  {
    if log == [] then []
    else DeedsAt(log[..|log| - 1], l) + if log[|log| - 1].Did? && log[|log| - 1].level == l then [log[|log| - 1].deed] else []
  }

  /** Nothing was done at levels below `l`. */
  ghost predicate QuietBelow(log: seq<Event>, log': seq<Event>, l: nat)
  {
    forall k: nat :: k < l ==> DeedsAt(log', k) == DeedsAt(log, k)
  }

  lemma DeedsMore(log: seq<Event>, e: Event, l: nat)
    ensures DeedsAt(log + [e], l) == if e.Did? && e.level == l then DeedsAt(log, l) + [e.deed] else DeedsAt(log, l)
  {
    assert (log + [e])[..|log|] == log;
  }

  lemma QuietMore(log: seq<Event>, log': seq<Event>, e: Event, l: nat)
    requires QuietBelow(log, log', l) && (e.Did? ==> e.level >= l)
    ensures QuietBelow(log, log' + [e], l)
  {
    forall k: nat | k < l ensures DeedsAt(log' + [e], k) == DeedsAt(log, k) { DeedsMore(log', e, k); }
  }

  // ---- Jobs that were asked for, and the queue ----

  function AsksIn(log: seq<Event>): seq<Job>
  {
    if log == [] then [] else AsksIn(log[..|log| - 1]) + if log[|log| - 1].Asks() then [log[|log| - 1].deed.job] else []
  }

  /** The queue takes no more than nine jobs. */
  function FirstNine(jobs: seq<Job>): seq<Job>
  {
    if |jobs| < DEFERRED_ACTION_FIFO_SIZE then jobs else jobs[..DEFERRED_ACTION_FIFO_SIZE - 1]
  }

  function Jobs(q: seq<Deferred>): (r: seq<Job>)
    ensures |r| == |q|
  {
    if q == [] then [] else Jobs(q[..|q| - 1]) + [q[|q| - 1].job]
  }

  lemma JobsMore(q: seq<Deferred>, d: Deferred)
    ensures Jobs(q + [d]) == Jobs(q) + [d.job]
  {
    assert (q + [d])[..|q|] == q;
  }

  /** The queue holds the first nine jobs asked for since the mark. */
  ghost predicate QueueOk(log: seq<Event>, mark: nat, q: seq<Deferred>)
  {
    mark <= |log| && Jobs(q) == FirstNine(AsksIn(log[mark..]))
  }

  lemma AsksMore(log: seq<Event>, mark: nat, e: Event)
    requires mark <= |log|
    ensures AsksIn((log + [e])[mark..]) == AsksIn(log[mark..]) + if e.Asks() then [e.deed.job] else []
  {
    assert (log + [e])[mark..] == log[mark..] + [e];
    assert (log[mark..] + [e])[..|log[mark..]|] == log[mark..];
  }

  lemma QueueOkMore(log: seq<Event>, mark: nat, q: seq<Deferred>, e: Event)
    requires QueueOk(log, mark, q) && !e.Asks()
    ensures QueueOk(log + [e], mark, q)
  {
    AsksMore(log, mark, e);
  }

  lemma QueueOkAsk(log: seq<Event>, mark: nat, q: seq<Deferred>, e: Event, d: Deferred)
    requires QueueOk(log, mark, q) && e.Asks() && e.deed.job == d.job
    ensures if |q| < DEFERRED_ACTION_FIFO_SIZE - 1 then QueueOk(log + [e], mark, q + [d]) else QueueOk(log + [e], mark, q)
  {
    AsksMore(log, mark, e);
    JobsMore(q, d);
  }

  lemma {:induction false} AsksConcat(a: seq<Event>, b: seq<Event>)
    ensures AsksIn(a + b) == AsksIn(a) + AsksIn(b)
    decreases |b|
  {
    if b == [] {
      assert a + b == a;
    } else {
      assert (a + b)[..|a + b| - 1] == a + b[..|b| - 1];
      AsksConcat(a, b[..|b| - 1]);
    }
  }

  // ---- Buffers ----

  function Releases(log: seq<Event>, b: Buf): nat
  {
    if log == [] then 0
    else Releases(log[..|log| - 1], b) + if log[|log| - 1].Ends() && log[|log| - 1].buf == b then 1 else 0
  }

  function Waiting(q: seq<Deferred>, b: Buf): nat
  {
    if q == [] then 0 else Waiting(q[..|q| - 1], b) + if q[|q| - 1].buf == b then 1 else 0
  }

  /** How often the buffer has been let go of: sent, freed, stolen, or queued. */
  function Held(log: seq<Event>, q: seq<Deferred>, b: Buf): nat
  {
    Releases(log, b) + Waiting(q, b)
  }

  /** Since then, buffer `buf` and every new buffer was let go of exactly once. */
  ghost predicate Settled(log: seq<Event>, q: seq<Deferred>, next: nat, buf: Buf, log': seq<Event>, q': seq<Deferred>, next': nat)
  {
    && next <= next'
    && forall b: Buf :: Held(log', q', b) == Held(log, q, b) + if b == buf || next <= b < next' then 1 else 0
  }

  /** Since then, every new buffer was let go of exactly once. */
  ghost predicate NewSettled(log: seq<Event>, q: seq<Deferred>, next: nat, log': seq<Event>, q': seq<Deferred>, next': nat)
  {
    && next <= next'
    && forall b: Buf :: Held(log', q', b) == Held(log, q, b) + if next <= b < next' then 1 else 0
  }

  lemma LogMore(log: seq<Event>, e: Event, b: Buf)
    ensures Releases(log + [e], b) == Releases(log, b) + if e.Ends() && e.buf == b then 1 else 0
  {
    assert (log + [e])[..|log|] == log;
  }

  lemma QueueMore(q: seq<Deferred>, d: Deferred, b: Buf)
    ensures Waiting(q + [d], b) == Waiting(q, b) + if d.buf == b then 1 else 0
  {
    assert (q + [d])[..|q|] == q;
  }

  lemma {:induction false} QueueLess(q: seq<Deferred>, b: Buf)
    requires q != []
    ensures Waiting(q[1..], b) == Waiting(q, b) - if q[0].buf == b then 1 else 0
    decreases |q|
  {
    if |q| > 1 {
      QueueLess(q[..|q| - 1], b);
      assert q[..|q| - 1][1..] == q[1..][..|q| - 2];
    }
  }

  /** One release settles a buffer. */
  lemma LogSettles(log: seq<Event>, q: seq<Deferred>, next: nat, e: Event)
    requires e.Ends()
    ensures Settled(log, q, next, e.buf, log + [e], q, next)
  {
    forall b: Buf ensures Held(log + [e], q, b) == Held(log, q, b) + if b == e.buf then 1 else 0 { LogMore(log, e, b); }
  }

  lemma QueueSettles(log: seq<Event>, q: seq<Deferred>, next: nat, d: Deferred)
    ensures Settled(log, q, next, d.buf, log, q + [d], next)
  {
    forall b: Buf ensures Held(log, q + [d], b) == Held(log, q, b) + if b == d.buf then 1 else 0 { QueueMore(q, d, b); }
  }

  lemma NoteSettles(log: seq<Event>, q: seq<Deferred>, next: nat, e: Event)
    requires !e.Ends()
    ensures NewSettled(log, q, next, log + [e], q, next)
  {
    forall b: Buf ensures Held(log + [e], q, b) == Held(log, q, b) { LogMore(log, e, b); }
  }

  /** New buffers first, then the buffer itself. */
  lemma ThenSettled(log: seq<Event>, q: seq<Deferred>, next: nat, log1: seq<Event>, q1: seq<Deferred>, next1: nat, buf: Buf,
                    log2: seq<Event>, q2: seq<Deferred>, next2: nat)
    requires NewSettled(log, q, next, log1, q1, next1) && Settled(log1, q1, next1, buf, log2, q2, next2) && buf < next
    ensures Settled(log, q, next, buf, log2, q2, next2)
  {
    hide Held;
    forall b: Buf ensures Held(log2, q2, b) == Held(log, q, b) + if b == buf || next <= b < next2 then 1 else 0 {
      assert Held(log1, q1, b) == Held(log, q, b) + if next <= b < next1 then 1 else 0;
    }
  }

  /** A clone is a new buffer that gets settled. */
  lemma CloneSettled(log: seq<Event>, q: seq<Deferred>, next: nat, log1: seq<Event>, q1: seq<Deferred>, next1: nat,
                     log2: seq<Event>, q2: seq<Deferred>, next2: nat)
    requires NewSettled(log, q, next, log1, q1, next1) && Settled(log1, q1, next1 + 1, next1, log2, q2, next2)
    ensures NewSettled(log, q, next, log2, q2, next2)
  {
    hide Held;
    forall b: Buf ensures Held(log2, q2, b) == Held(log, q, b) + if next <= b < next2 then 1 else 0 {
      assert Held(log1, q1, b) == Held(log, q, b) + if next <= b < next1 then 1 else 0;
    }
  }

  lemma NewThenNew(log: seq<Event>, q: seq<Deferred>, next: nat, log1: seq<Event>, q1: seq<Deferred>, next1: nat,
                   log2: seq<Event>, q2: seq<Deferred>, next2: nat)
    requires NewSettled(log, q, next, log1, q1, next1) && NewSettled(log1, q1, next1, log2, q2, next2)
    ensures NewSettled(log, q, next, log2, q2, next2)
  {
    hide Held;
    forall b: Buf ensures Held(log2, q2, b) == Held(log, q, b) + if next <= b < next2 then 1 else 0 {
      assert Held(log1, q1, b) == Held(log, q, b) + if next <= b < next1 then 1 else 0;
    }
  }

  /** Taking an entry off the queue and settling its buffer. */
  lemma TakeSettled(log: seq<Event>, q: seq<Deferred>, next: nat, log1: seq<Event>, q1: seq<Deferred>, next1: nat,
                    log2: seq<Event>, q2: seq<Deferred>, next2: nat)
    requires NewSettled(log, q, next, log1, q1, next1) && q1 != [] && q1[0].buf < next1
    requires Settled(log1, q1[1..], next1, q1[0].buf, log2, q2, next2)
    ensures NewSettled(log, q, next, log2, q2, next2)
  {
    forall b: Buf ensures Held(log2, q2, b) == Held(log, q, b) + if next <= b < next2 then 1 else 0 {
      QueueLess(q1, b);
      assert Held(log1, q1, b) == Held(log, q, b) + if next <= b < next1 then 1 else 0;
    }
  }

  // ---- The reference: a clone for each output ----

  /** A sample of nothing but a userspace action is run on the spot. */
  predicate OnTheSpot(nested: seq<Action>) { nested == [Userspace] }

  /** What one action comes to: the list goes on, perhaps with an output to do, or
      it stops. */
  datatype Step = On(p: Pkt, port: Option<nat>) | Stop

  function StepOf(env: Env, turn: Turn, a: Action, last: bool, p: Pkt): Step
  {
    match a
    case Output(port) => On(p, Some(port))
    case Userspace => On(p, None)
    case Modify(op) => (match env.change(turn, op, p) case Go(p') => On(p', None) case _ => Stop)
    case Ct(op) => (match env.track(turn, op, p) case Go(p') => On(p', None) case _ => Stop)
    case Recirc(_) => if last then Stop else On(p, None)
    case Sample(nested) => if SampleFails(env, turn, nested) then Stop else On(p, None)
  }

  predicate SampleFails(env: Env, turn: Turn, nested: seq<Action>)
  {
    env.sampled(turn) && OnTheSpot(nested) && !env.upcallOk(turn)
  }

  /** What an action other than an output does. */
  function OwnDeeds(env: Env, turn: Turn, a: Action, p: Pkt): seq<Deed>
  {
    match a
    case Userspace => [Up(p)]
    case Recirc(id) => [Ask(Job(p, id, None))]
    case Sample(nested) =>
      if !env.sampled(turn) || nested == [] then [] else if OnTheSpot(nested) then [Up(p)] else [Ask(Job(p, 0, Some(nested)))]
    case _ => []
  }

  /** What the list does, from that turn on, when every output sends a clone at once. */
  function Does(env: Env, turn: Turn, acts: seq<Action>, p: Pkt): seq<Deed>
    decreases |acts|
  {
    if acts == [] then []
    else
      var next := turn.(index := turn.index + 1);
      match acts[0]
      case Output(port) => [Out(p, port)] + Does(env, next, acts[1..], p)
      case Userspace => [Up(p)] + Does(env, next, acts[1..], p)
      case Modify(op) => (match env.change(turn, op, p) case Go(p') => Does(env, next, acts[1..], p') case _ => [])
      case Ct(op) => (match env.track(turn, op, p) case Go(p') => Does(env, next, acts[1..], p') case _ => [])
      case Recirc(id) => [Ask(Job(p, id, None))] + if |acts| == 1 then [] else Does(env, next, acts[1..], p)
      case Sample(nested) =>
        OwnDeeds(env, turn, acts[0], p) + if SampleFails(env, turn, nested) then [] else Does(env, next, acts[1..], p)
  }

  /** The packet as action number `i` of the list finds it, if the list gets there. */
  function PacketAt(env: Env, run: nat, acts: seq<Action>, p: Pkt, i: nat): Option<Pkt>
    requires i <= |acts|
  {
    if i == 0 then Some(p)
    else
      var was := PacketAt(env, run, acts, p, i - 1);
      if was.None? then None
      else match StepOf(env, Turn(run, i - 1), acts[i - 1], i == |acts|, was.value)
           case On(p', _) => Some(p')
           case Stop => None
  }

  /** The deed is that of an action which the list gets to, with the packet as it then is:
      an output to its port, a copy for userspace, a recirculation with its id, or a
      sample that is taken, with its actions. */
  ghost predicate DoneAt(env: Env, run: nat, acts: seq<Action>, p: Pkt, i: nat, d: Deed)
    requires i < |acts|
  {
    PacketAt(env, run, acts, p, i).Some? &&
    var q := PacketAt(env, run, acts, p, i).value;
    || (acts[i].Output? && d == Out(q, acts[i].port))
    || (acts[i].Userspace? && d == Up(q))
    || (acts[i].Recirc? && d == Ask(Job(q, acts[i].id, None)))
    || (acts[i].Sample? && env.sampled(Turn(run, i)) && acts[i].actions == [Userspace] && d == Up(q))
    || (acts[i].Sample? && env.sampled(Turn(run, i)) && acts[i].actions != [Userspace] && acts[i].actions != []
        && d == Ask(Job(q, 0, Some(acts[i].actions))))
  }

  ghost predicate DoesSomething(env: Env, run: nat, acts: seq<Action>, p: Pkt, i: nat)
    requires i < |acts|
  {
    exists d :: DoneAt(env, run, acts, p, i, d)
  }

  /** What the first `i` actions do. */
  ghost function DoneBefore(env: Env, run: nat, acts: seq<Action>, p: Pkt, i: nat): seq<Deed>
    requires i <= |acts|
  {
    if i == 0 then []
    else if DoesSomething(env, run, acts, p, i - 1) then
      var d :| DoneAt(env, run, acts, p, i - 1, d);
      DoneBefore(env, run, acts, p, i - 1) + [d]
    else DoneBefore(env, run, acts, p, i - 1)
  }

  lemma {:induction false} DoneFrom(env: Env, run: nat, acts: seq<Action>, p: Pkt, i: nat)
    requires i <= |acts|
    ensures DoneBefore(env, run, acts, p, |acts|) == DoneBefore(env, run, acts, p, i)
            + match PacketAt(env, run, acts, p, i) case None => [] case Some(q) => Does(env, Turn(run, i), acts[i..], q)
    decreases |acts| - i
  {
    if i < |acts| {
      DoneFrom(env, run, acts, p, i + 1);
      OneDone(env, run, acts, p, i);
    }
  }

  lemma OneDone(env: Env, run: nat, acts: seq<Action>, p: Pkt, i: nat)
    requires i < |acts|
    ensures DoneBefore(env, run, acts, p, i + 1) + (match PacketAt(env, run, acts, p, i + 1) case None => [] case Some(q) => Does(env, Turn(run, i + 1), acts[i + 1..], q))
            == DoneBefore(env, run, acts, p, i) + match PacketAt(env, run, acts, p, i) case None => [] case Some(q) => Does(env, Turn(run, i), acts[i..], q)
  {
    hide DoneBefore, Does, StepOf, ActionDeeds, PacketAt;
    var was := PacketAt(env, run, acts, p, i);
    DeedOf(env, run, acts, p, i);
    PacketNext(env, run, acts, p, i);
    if was.Some? {
      DoesStep(env, Turn(run, i), acts[i..], was.value);
      assert acts[i..][0] == acts[i] && acts[i..][1..] == acts[i + 1..];
    }
  }

  lemma PacketNext(env: Env, run: nat, acts: seq<Action>, p: Pkt, i: nat)
    requires i < |acts|
    ensures PacketAt(env, run, acts, p, i + 1) ==
            match PacketAt(env, run, acts, p, i)
            case None => None
            case Some(q) => (match StepOf(env, Turn(run, i), acts[i], i == |acts| - 1, q) case On(p', _) => Some(p') case Stop => None)
  {
    hide StepOf;
  }

  /** What an action does, with its output. */
  function ActionDeeds(env: Env, turn: Turn, a: Action, p: Pkt): seq<Deed>
  {
    if a.Output? then [Out(p, a.port)] else OwnDeeds(env, turn, a, p)
  }

  lemma DeedOf(env: Env, run: nat, acts: seq<Action>, p: Pkt, i: nat)
    requires i < |acts|
    ensures DoneBefore(env, run, acts, p, i + 1) == DoneBefore(env, run, acts, p, i)
            + match PacketAt(env, run, acts, p, i) case None => [] case Some(q) => ActionDeeds(env, Turn(run, i), acts[i], q)
  {
    var was := PacketAt(env, run, acts, p, i);
    if was.Some? {
      var deeds := ActionDeeds(env, Turn(run, i), acts[i], was.value);
      if deeds != [] { assert DoneAt(env, run, acts, p, i, deeds[0]); }
    }
  }

  lemma DoesStep(env: Env, turn: Turn, acts: seq<Action>, p: Pkt)
    requires acts != []
    ensures Does(env, turn, acts, p) == ActionDeeds(env, turn, acts[0], p)
            + match StepOf(env, turn, acts[0], |acts| == 1, p)
              case On(p', _) => Does(env, turn.(index := turn.index + 1), acts[1..], p')
              case Stop => []
  {
  }

  /** Every action that the list gets to does what it says, in order, and nothing else is
      done. */
  lemma DoesExactly(env: Env, run: nat, acts: seq<Action>, p: Pkt)
    ensures Does(env, Turn(run, 0), acts, p) == DoneBefore(env, run, acts, p, |acts|)
  {
    hide Does, DoneBefore;
    DoneFrom(env, run, acts, p, 0);
    assert acts[0..] == acts;
    NoneBefore(env, run, acts, p);
  }

  lemma NoneBefore(env: Env, run: nat, acts: seq<Action>, p: Pkt)
    ensures DoneBefore(env, run, acts, p, 0) == [] && PacketAt(env, run, acts, p, 0) == Some(p)
  {
  }

  // ---- What handing over, entering and running lead to ----

  /** A list of actions was run, or the packet freed at the deepest level. */
  ghost predicate Executed(log: seq<Event>, log': seq<Event>, level: nat, buf: Buf, p: Pkt, acts: seq<Action>)
  {
    if level >= EXEC_ACTIONS_LEVEL_LIMIT then log' == log + [Freed(buf)] else log + [Began(level + 1, p, acts)] <= log'
  }

  /** A packet entered: it was copied to userspace and looked up; then the actions of its
      flow were run, or it was copied once more and freed. */
  ghost predicate Entered(env: Env, log: seq<Event>, log': seq<Event>, level: nat, buf: Buf, p: Pkt, recirc: nat)
  {
    var start := log + [Copied(p), Looked(level, p, recirc)];
    match env.flowFor(p, recirc)
    case None => log' == start + [Copied(p), Freed(buf)]
    case Some(acts) => Executed(start, log', level, buf, p, acts)
  }

  /** A packet was handed to a port: it was sent, or freed if there is no such port, or it
      entered again. */
  ghost predicate HandedOver(env: Env, log: seq<Event>, log': seq<Event>, level: nat, buf: Buf, p: Pkt, port: nat)
  {
    var start := log + [Did(level, Out(p, port))];
    if !env.hasPort(port) then log' == start + [Freed(buf)]
    else if !env.leadsBack(port) then log' == start + [Sent(buf, p, port)]
    else Entered(env, start, log', level, buf, p, 0)
  }

  /** A job was done: its list was run, or its packet entered with the recirculation id. */
  ghost predicate JobDone(env: Env, log: seq<Event>, log': seq<Event>, d: Deferred)
  {
    var start := log + [Took(d.job)];
    match d.job.actions
    case Some(acts) => start + [Began(1, d.job.pkt, env.runs(acts))] <= log'
    case None => Entered(env, start, log', 1, d.buf, d.job.pkt, d.job.recirc)
  }

  /** At place `n` of the log the job is taken, and what it names comes next. */
  ghost predicate DoneIn(env: Env, log: seq<Event>, n: nat, job: Job)
  {
    && n + 1 < |log| && log[n] == Took(job)
    && (job.actions.Some? ==> log[n + 1] == Began(1, job.pkt, env.runs(job.actions.value)))
    && (job.actions.None? ==> n + 2 < |log| && log[n + 1] == Copied(job.pkt) && log[n + 2] == Looked(1, job.pkt, job.recirc))
  }

  ghost predicate DoneAfter(env: Env, log: seq<Event>, from: nat, job: Job)
  {
    exists n: nat :: from <= n && DoneIn(env, log, n, job)
  }

  ghost predicate AllDone(env: Env, log: seq<Event>, from: nat, jobs: seq<Job>)
  {
    forall k :: 0 <= k < |jobs| ==> DoneAfter(env, log, from, jobs[k])
  }

  lemma JobIsDone(env: Env, log: seq<Event>, log': seq<Event>, d: Deferred)
    requires JobDone(env, log, log', d)
    ensures DoneIn(env, log', |log|, d.job) && log <= log'
  {
  }

  lemma AllDoneMore(env: Env, log: seq<Event>, from: nat, jobs: seq<Job>, log': seq<Event>, d: Deferred)
    requires AllDone(env, log, from, jobs) && JobDone(env, log, log', d) && from <= |log|
    ensures AllDone(env, log', from, jobs + [d.job])
  {
    hide JobDone;
    JobIsDone(env, log, log', d);
    forall k | 0 <= k < |jobs + [d.job]| ensures DoneAfter(env, log', from, (jobs + [d.job])[k]) {
      if k < |jobs| {
        assert DoneAfter(env, log, from, jobs[k]);
        var n: nat :| from <= n && DoneIn(env, log, n, jobs[k]);
        assert DoneIn(env, log', n, jobs[k]);
      }
    }
  }

  // ---- The executor ----

  class Executor {
    const env: Env
    const fifo: array<Deferred>
    var head: nat
    var tail: nat
    var level: nat                    // exec_actions_level
    var next: Buf                     // the next buffer to be allocated
    var log: seq<Event>
    var lists: nat                    // how many lists have been run
    ghost var queued: seq<Deferred>   // everything put into the queue since it was last reset
    ghost var mark: nat               // how long the log was then
    ghost var put: seq<Deferred>      // every entry that was ever put into the queue
    ghost var ran: seq<Deferred>      // every entry that was taken from the queue and run

    ghost predicate Valid()
      reads this, fifo
    {
      && fifo.Length == DEFERRED_ACTION_FIFO_SIZE && tail <= head < DEFERRED_ACTION_FIFO_SIZE
      && fifo[..head] == queued && put == ran + queued[tail..] && (forall i :: 0 <= i < |queued| ==> queued[i].buf < next)
      && level <= EXEC_ACTIONS_LEVEL_LIMIT && (level == 0 ==> head == 0) && QueueOk(log, mark, queued)
    }

    /** The entries that wait. */
    ghost function Queue(): seq<Deferred>
      reads this, fifo
      requires Valid()
    {
      queued[tail..]
    }

    constructor (env: Env)
      ensures Valid() && level == 0 && log == [] && ran == [] && this.env == env
    {
      this.env := env;
      fifo := new Deferred[DEFERRED_ACTION_FIFO_SIZE](_ => Deferred(0, Job([], 0, None)));
      head, tail, level, next, log, lists := 0, 0, 0, 0, [], 0;
      queued, put, ran, mark := [], [], [], 0;
    }

    /** The nesting level is as before; buffers may have been allocated and entries
        may have joined the queue, but none has left it or run. */
    twostate predicate Kept()
      reads this
    {
      level == old(level) && tail == old(tail) && old(queued) <= queued && next >= old(next)
      && ran == old(ran) && old(put) <= put && old(log) <= log && mark == old(mark)
    }

    /** The first nine jobs asked for since then, and no others, were put into the queue and
        done, in that order. */
    twostate predicate Drained()
      reads this
    {
      && queued == [] && put == ran && old(put) <= put && old(ran) <= ran && old(log) <= log
      && Jobs(ran[|old(ran)|..]) == FirstNine(AsksIn(log[|old(log)|..])) && AllDone(env, log, |old(log)|, Jobs(ran[|old(ran)|..]))
    }

    /** Puts an event other than an Ask on the log. */
    method Note(e: Event)
      requires Valid() && !e.Asks()
      modifies this`log
      ensures Valid() && log == old(log) + [e] && Queue() == old(Queue())
    {
      hide QueueOk;
      QueueOkMore(log, mark, queued, e);
      log := log + [e];
    }

    /** add_deferred_actions, freeing the packet when the queue is full. */
    method Defer(d: Deferred)
      requires Valid() && level >= 1 && d.buf < next
      modifies this`head, this`queued, this`put, this`log, fifo
      ensures Valid() && Kept() && log == old(log) + Deferring(level, d, old(head))
      ensures queued == if old(head) < DEFERRED_ACTION_FIFO_SIZE - 1 then old(queued) + [d] else old(queued)
      ensures put == if old(head) < DEFERRED_ACTION_FIFO_SIZE - 1 then old(put) + [d] else old(put)
      ensures Settled(old(log), old(Queue()), old(next), d.buf, log, Queue(), next)
    {
      hide Held, Settled, NewSettled, QueueOk;
      var e := Did(level, Ask(d.job));
      ghost var log0, q0 := log, Queue();
      QueueOkAsk(log, mark, queued, e, d);
      NoteSettles(log, q0, next, e);
      if head >= DEFERRED_ACTION_FIFO_SIZE - 1 {
        log := log + [e];
        ghost var log1 := log;
        LogSettles(log, q0, next, Freed(d.buf));
        Note(Freed(d.buf));
        ThenSettled(log0, q0, next, log1, q0, next, d.buf, log, q0, next);
      } else {
        assert (queued + [d])[tail..] == queued[tail..] + [d];
        QueueSettles(log + [e], q0, next, d);
        ThenSettled(log0, q0, next, log0 + [e], q0, next, d.buf, log0 + [e], q0 + [d], next);
        fifo[head] := d;
        head, queued, put, log := head + 1, queued + [d], put + [d], log + [e];
        assert fifo[..head] == queued;
      }
    }

    /** do_output. */
    method Send(buf: Buf, p: Pkt, port: nat)
      requires Valid() && level >= 1 && buf < next
      modifies this`head, this`tail, this`queued, this`put, this`ran, this`log, this`next, this`level, this`lists, this`mark, fifo
      ensures Valid() && Kept() && Settled(old(log), old(Queue()), old(next), buf, log, Queue(), next)
      ensures HandedOver(env, old(log), log, level, buf, p, port)
      ensures QuietBelow(old(log), log, level) && DeedsAt(log, level) == DeedsAt(old(log), level) + [Out(p, port)]
      decreases EXEC_ACTIONS_LEVEL_LIMIT - level, 2
    {
      hide Held, Settled, NewSettled, DeedsAt, QueueOk, Entered;
      ghost var log0, q0, next0 := log, Queue(), next;
      var e := Did(level, Out(p, port));
      NoteSettles(log, Queue(), next, e);
      DeedsMore(log, e, level);
      QuietMore(log, log, e, level);
      Note(e);
      ghost var log1 := log;
      if !env.hasPort(port) {
        End(Freed(buf));
      } else if env.leadsBack(port) {
        ProcessPacket(buf, p, 0);
      } else {
        End(Sent(buf, p, port));
      }
      ThenSettled(log0, q0, next0, log1, q0, next0, buf, log, Queue(), next);
    }

    /** The packet is let go of. */
    method End(e: Event)
      requires Valid() && e.Ends()
      modifies this`log
      ensures Valid() && log == old(log) + [e] && Queue() == old(Queue())
      ensures forall l: nat :: QuietBelow(old(log), log, l) && DeedsAt(log, l) == DeedsAt(old(log), l)
      ensures Settled(old(log), old(Queue()), old(next), e.buf, log, Queue(), next)
    {
      hide Held, Settled, DeedsAt;
      LogSettles(log, Queue(), next, e);
      forall l: nat ensures DeedsAt(log + [e], l) == DeedsAt(log, l) { DeedsMore(log, e, l); }
      Note(e);
    }

    /** ovs_dp_process_packet.  Every packet is first copied to userspace. */
    method ProcessPacket(buf: Buf, p: Pkt, recirc: nat)
      requires Valid() && buf < next
      modifies this`head, this`tail, this`queued, this`put, this`ran, this`log, this`next, this`level, this`lists, this`mark, fifo
      ensures Valid() && level == old(level) && next >= old(next) && old(log) <= log
      ensures Settled(old(log), old(Queue()), old(next), buf, log, Queue(), next)
      ensures QuietBelow(old(log), log, level + 1) && Entered(env, old(log), log, level, buf, p, recirc)
      ensures level > 0 ==> Kept()
      ensures level == 0 ==> Drained()
      decreases EXEC_ACTIONS_LEVEL_LIMIT - level, 1
    {
      hide Held, Settled, NewSettled, DeedsAt, QueueOk, AsksIn, Jobs, FirstNine, AllDone;
      ghost var log0, q0, next0 := log, Queue(), next;
      NothingNew(log0, q0, next0);
      NoteQuietly(Copied(p), log0, q0, next0);
      NoteQuietly(Looked(level, p, recirc), log0, q0, next0);
      var found := env.flowFor(p, recirc);
      if found.None? {
        NoteQuietly(Copied(p), log0, q0, next0);
        Release(Freed(buf), log0, q0, next0);
        if level == 0 { NothingAsked(env, log0, log, ran); }
      } else {
        ghost var log1 := log;
        ExecuteActions(buf, p, found.value);
        ThenSettled(log0, q0, next0, log1, q0, next0, buf, log, Queue(), next);
        if level == 0 { DrainedSince(env, log0, log1, log, ran[|old(ran)|..]); }
      }
    }

    /** ovs_execute_actions: runs the list, and at the outermost level everything
        that was deferred. */
    method ExecuteActions(buf: Buf, p: Pkt, acts: seq<Action>)
      requires Valid() && buf < next
      modifies this`head, this`tail, this`queued, this`put, this`ran, this`log, this`next, this`level, this`lists, this`mark, fifo
      ensures Valid() && level == old(level) && next >= old(next) && old(log) <= log
      ensures Settled(old(log), old(Queue()), old(next), buf, log, Queue(), next)
      ensures QuietBelow(old(log), log, level + 1) && Executed(old(log), log, level, buf, p, acts)
      ensures level < EXEC_ACTIONS_LEVEL_LIMIT ==>
                var does := DeedsAt(old(log), level + 1) + Does(env, Turn(old(lists), 0), acts, p);
                if level > 0 then DeedsAt(log, level + 1) == does else does <= DeedsAt(log, level + 1)
      ensures level > 0 ==> Kept()
      ensures level == 0 ==> Drained()
      decreases EXEC_ACTIONS_LEVEL_LIMIT - level, 0
    {
      hide Held, Settled, NewSettled, Does, DeedsAt, QueueOk, AsksIn, Jobs, FirstNine, AllDone;
      if level >= EXEC_ACTIONS_LEVEL_LIMIT {
        End(Freed(buf));
        return;
      }
      ghost var log0, q0, next0 := log, Queue(), next;
      var outermost := level == 0;
      level := level + 1;
      DoExecuteActions(buf, p, acts);
      if outermost {
        ghost var log1, q1, next1 := log, Queue(), next;
        ghost var order := ProcessDeferred();
        SettledThenNew(log0, q0, next0, buf, log1, q1, next1, log, Queue(), next);
        SinceMark(env, log0, old(mark), log1, log, order);
        assert ran[|old(ran)|..] == order;
      }
      level := level - 1;
    }

    /** process_deferred_actions: takes entries in the order in which they were put,
        at most nine of them, until none waits. */
    method ProcessDeferred() returns (ghost order: seq<Deferred>)
      requires Valid() && level == 1 && tail == 0
      modifies this`head, this`tail, this`queued, this`put, this`ran, this`log, this`next, this`level, this`lists, this`mark, fifo
      ensures Valid() && level == 1 && head == 0 && tail == 0 && next >= old(next) && old(log) <= log
      ensures queued == [] && put == ran == old(ran) + order && old(put) <= put
      ensures Jobs(order) == FirstNine(AsksIn(log[old(mark)..])) && AllDone(env, log, |old(log)|, Jobs(order))
      ensures NewSettled(old(log), old(Queue()), old(next), log, Queue(), next) && QuietBelow(old(log), log, 1)
      ensures DeedsAt(old(log), 1) <= DeedsAt(log, 1)
      decreases EXEC_ACTIONS_LEVEL_LIMIT - level, 7
    {
      hide Held, Settled, NewSettled, DeedsAt, Executor.Valid, Executor.Queue, AllDone, JobDone, Jobs, AsksIn, FirstNine;
      ghost var log0, q0, next0 := log, Queue(), next;
      NothingNew(log0, q0, next0);
      NoneDone(env, log0);
      order := [];
      while tail < head
        invariant Valid() && level == 1 && |order| == tail && next >= next0 && log0 <= log && mark == old(mark)
        invariant ran == old(ran) + order && old(put) <= put && AllDone(env, log, |log0|, Jobs(order)) && order == Taken()
        invariant NewSettled(log0, q0, next0, log, Queue(), next) && QuietBelow(log0, log, 1) && DeedsAt(log0, 1) <= DeedsAt(log, 1)
        decreases DEFERRED_ACTION_FIFO_SIZE - tail
      {
        ghost var log1 := log;
        ProcessOne(log0, q0, next0);
        ghost var d := ran[|ran| - 1];
        AllDoneMore(env, log1, |log0|, Jobs(order), log, d);
        JobsMore(order, d);
        order := order + [d];
      }
      Reset(order);
    }

    /** The entries taken since the queue was last reset. */
    ghost function Taken(): seq<Deferred>
      reads this, fifo
      requires Valid()
    {
      queued[..tail]
    }

    /** action_fifo_init, once no entry waits. */
    method Reset(ghost order: seq<Deferred>)
      requires Valid() && level == 1 && tail >= head && order == Taken()
      modifies this`head, this`tail, this`queued, this`mark
      ensures Valid() && head == 0 && tail == 0 && queued == [] && put == ran && Queue() == old(Queue())
      ensures Jobs(order) == FirstNine(AsksIn(log[old(mark)..]))
    {
      assert Queue() == [] && order == queued;
      head, tail, queued, mark := 0, 0, [], |log|;
      assert Queue() == [] && log[mark..] == [];
    }

    /** Takes the entry at the tail and runs it. */
    method ProcessOne(ghost log0: seq<Event>, ghost q0: seq<Deferred>, ghost next0: nat)
      requires Valid() && level == 1 && tail < head && next >= next0 && log0 <= log
      requires NewSettled(log0, q0, next0, log, Queue(), next) && QuietBelow(log0, log, 1) && DeedsAt(log0, 1) <= DeedsAt(log, 1)
      modifies this`head, this`tail, this`queued, this`put, this`ran, this`log, this`next, this`level, this`lists, this`mark, fifo
      ensures Valid() && level == 1 && tail == old(tail) + 1 < DEFERRED_ACTION_FIFO_SIZE && next >= next0 && log0 <= log && mark == old(mark)
      ensures ran == old(ran) + [old(queued[tail])] && old(put) <= put && Taken() == old(Taken()) + [old(queued[tail])]
      ensures JobDone(env, old(log), log, old(queued[tail]))
      ensures old(queued[tail]).job.actions.Some? ==>
                DeedsAt(log, 1) == DeedsAt(old(log), 1) + Does(env, Turn(old(lists), 0), env.runs(old(queued[tail]).job.actions.value), old(queued[tail]).job.pkt)
      ensures NewSettled(log0, q0, next0, log, Queue(), next) && QuietBelow(log0, log, 1) && DeedsAt(log0, 1) <= DeedsAt(log, 1)
      decreases EXEC_ACTIONS_LEVEL_LIMIT - level, 6
    {
      hide Held, Settled, NewSettled, DeedsAt, Does, QueueOk, Entered, AsksIn, Jobs, FirstNine, AllDone;
      ghost var q1, next1 := Queue(), next;
      var d := TakeEntry(log0, q0, next0);
      ghost var log2 := log;
      if d.job.actions.Some? {
        DoExecuteActions(d.buf, d.job.pkt, env.runs(d.job.actions.value));
      } else {
        ProcessPacket(d.buf, d.job.pkt, d.job.recirc);
      }
      TakeSettled(log0, q0, next0, log2, q1, next1, log, Queue(), next);
    }

    /** action_fifo_get. */
    method TakeEntry(ghost log0: seq<Event>, ghost q0: seq<Deferred>, ghost next0: nat) returns (d: Deferred)
      requires Valid() && level == 1 && tail < head && NewSettled(log0, q0, next0, log, Queue(), next)
      modifies this`tail, this`ran, this`log
      ensures Valid() && tail == old(tail) + 1 && d == old(queued[tail]) == old(Queue())[0] && d.buf < next && Queue() == old(Queue())[1..]
      ensures log == old(log) + [Took(d.job)] && ran == old(ran) + [d] && Taken() == old(Taken()) + [d]
      ensures NewSettled(log0, q0, next0, log, old(Queue()), next)
      ensures forall l: nat :: DeedsAt(log, l) == DeedsAt(old(log), l)
    {
      hide Held, NewSettled, DeedsAt, QueueOk;
      d := fifo[tail];
      assert d == queued[tail] == Queue()[0];
      NoteQuietly(Took(d.job), log0, q0, next0);
      tail, ran := tail + 1, ran + [d];
    }

    /** Gives the list that is about to be run its number. */
    method BeginList(p: Pkt, acts: seq<Action>, ghost log0: seq<Event>, ghost q0: seq<Deferred>, ghost next0: nat) returns (run: nat)
      requires Valid() && NewSettled(log0, q0, next0, log, Queue(), next)
      modifies this`lists, this`log
      ensures Valid() && run == old(lists) && log == old(log) + [Began(level, p, acts)] && NewSettled(log0, q0, next0, log, Queue(), next)
      ensures forall l: nat :: DeedsAt(log, l) == DeedsAt(old(log), l)
    {
      hide Held, NewSettled, DeedsAt, QueueOk;
      run := lists;
      lists := lists + 1;
      NoteQuietly(Began(level, p, acts), log0, q0, next0);
    }

    /** do_execute_actions: an output waits for the next action, so that the last
        one needs no clone; what is done is what a clone for each output would do. */
    method DoExecuteActions(buf: Buf, p: Pkt, acts: seq<Action>)
      requires Valid() && level >= 1 && buf < next
      modifies this`head, this`tail, this`queued, this`put, this`ran, this`log, this`next, this`level, this`lists, this`mark, fifo
      ensures Valid() && Kept() && Settled(old(log), old(Queue()), old(next), buf, log, Queue(), next)
      ensures old(log) + [Began(level, p, acts)] <= log
      ensures QuietBelow(old(log), log, level) && DeedsAt(log, level) == DeedsAt(old(log), level) + Does(env, Turn(old(lists), 0), acts, p)
      decreases EXEC_ACTIONS_LEVEL_LIMIT - level, 5
    {
      hide Held, Settled, NewSettled, Does, StepOf, OwnDeeds, OnTrack, DeedsAt, Executor.Valid, Executor.Queue, HandedOver, DidOne;
      ghost var log0, q0, next0 := log, Queue(), next;
      NothingNew(log0, q0, next0);
      var run := BeginList(p, acts, log0, q0, next0);
      NoneDoneYet(env, run, acts, p);
      var pkt := p;
      var prevPort: Option<nat> := None;
      ghost var done := [];
      var i := 0;
      while i < |acts|
        invariant i <= |acts| && Valid() && Kept() && buf < next0 <= next && log0 + [Began(level, p, acts)] <= log
        invariant NewSettled(log0, q0, next0, log, Queue(), next)
        invariant QuietBelow(log0, log, level) && DeedsAt(log, level) == DeedsAt(log0, level) + done
        invariant OnTrack(env, run, acts, p, done, pkt, prevPort, i)
      {
        var step;
        step, done := SendAndExecute(buf, p, acts, run, pkt, prevPort, i, done, log0, q0, next0);
        if step.Stop? { return; }
        pkt, prevPort := step.p, step.port;
        i := i + 1;
      }
      NothingLeft(env, run, acts, p, done, pkt, prevPort, i);
      if prevPort.Some? {
        ghost var log1, q1, next1 := log, Queue(), next;
        Send(buf, pkt, prevPort.value);
        ThenSettled(log0, q0, next0, log1, q1, next1, buf, log, Queue(), next);
      } else {
        Release(Freed(buf), log0, q0, next0);
      }
    }

    /** A turn of the loop: the pending output, then the next action. */
    method SendAndExecute(buf: Buf, ghost p: Pkt, acts: seq<Action>, run: nat, pkt: Pkt, prevPort: Option<nat>, i: nat, ghost done: seq<Deed>,
                          ghost log0: seq<Event>, ghost q0: seq<Deferred>, ghost next0: nat)
      returns (step: Step, ghost done': seq<Deed>)
      requires Valid() && level >= 1 && i < |acts| && buf < next0 <= next && NewSettled(log0, q0, next0, log, Queue(), next)
      requires QuietBelow(log0, log, level) && DeedsAt(log, level) == DeedsAt(log0, level) + done
      requires OnTrack(env, run, acts, p, done, pkt, prevPort, i)
      modifies this`head, this`tail, this`queued, this`put, this`ran, this`log, this`next, this`level, this`lists, this`mark, fifo
      ensures Valid() && Kept() && QuietBelow(log0, log, level) && DeedsAt(log, level) == DeedsAt(log0, level) + done'
      ensures step.On? ==> NewSettled(log0, q0, next0, log, Queue(), next) && OnTrack(env, run, acts, p, done', step.p, step.port, i + 1)
      ensures step.Stop? ==> Settled(log0, q0, next0, buf, log, Queue(), next) && Does(env, Turn(run, 0), acts, p) == done'
      decreases EXEC_ACTIONS_LEVEL_LIMIT - level, 4
    {
      hide Held, Settled, NewSettled, Does, StepOf, OwnDeeds, OnTrack, DeedsAt, Executor.Valid, Executor.Queue, HandedOver, DidOne;
      SendPending(env, run, acts, p, done, pkt, prevPort, i);
      done' := done;
      if prevPort.Some? {
        CloneAndSend(pkt, prevPort.value, log0, q0, next0);
        done' := done + [Out(pkt, prevPort.value)];
      }
      TurnStep(env, run, acts, p, done', pkt, i);
      step := ExecuteOne(buf, pkt, Turn(run, i), acts[i], i == |acts| - 1, log0, q0, next0);
      done' := done' + OwnDeeds(env, Turn(run, i), acts[i], pkt);
    }

    /** One action of the list. */
    method ExecuteOne(buf: Buf, p: Pkt, turn: Turn, a: Action, last: bool, ghost log0: seq<Event>, ghost q0: seq<Deferred>, ghost next0: nat)
      returns (step: Step)
      requires Valid() && level >= 1 && buf < next0 <= next && NewSettled(log0, q0, next0, log, Queue(), next)
      modifies this`head, this`queued, this`put, this`log, this`next, fifo
      ensures Valid() && Kept() && step == StepOf(env, turn, a, last, p) && next0 <= next
      ensures DidOne(env, old(log), log, level, old(head), old(next), turn, a, last, buf, p)
      ensures QuietBelow(old(log), log, level) && DeedsAt(log, level) == DeedsAt(old(log), level) + OwnDeeds(env, turn, a, p)
      ensures step.On? ==> NewSettled(log0, q0, next0, log, Queue(), next)
      ensures step.Stop? ==> Settled(log0, q0, next0, buf, log, Queue(), next)
    {
      hide Held, Settled, NewSettled, DeedsAt, Executor.Valid, Executor.Queue, DidOne, Deferring;
      DidOneDeeds(env, log, level, head, next, turn, a, last, buf, p);
      step := TakeTurn(buf, p, turn, a, last, log0, q0, next0);
    }

    method TakeTurn(buf: Buf, p: Pkt, turn: Turn, a: Action, last: bool, ghost log0: seq<Event>, ghost q0: seq<Deferred>, ghost next0: nat)
      returns (step: Step)
      requires Valid() && level >= 1 && buf < next0 <= next && NewSettled(log0, q0, next0, log, Queue(), next)
      modifies this`head, this`queued, this`put, this`log, this`next, fifo
      ensures Valid() && Kept() && step == StepOf(env, turn, a, last, p) && next0 <= next
      ensures DidOne(env, old(log), log, level, old(head), old(next), turn, a, last, buf, p)
      ensures step.On? ==> NewSettled(log0, q0, next0, log, Queue(), next)
      ensures step.Stop? ==> Settled(log0, q0, next0, buf, log, Queue(), next)
    {
      hide Held, Settled, NewSettled, DeedsAt, QueueOk;
      match a {
        case Output(port) => return On(p, Some(port));
        case Userspace => NoteDeed(Up(p), log0, q0, next0);
        case Modify(op) =>
          var r := env.change(turn, op, p);
          if r.Go? { return On(r.p, None); }
          Release(Freed(buf), log0, q0, next0);
          return Stop;
        case Ct(op) =>
          var r := env.track(turn, op, p);
          if r.Go? { return On(r.p, None); }
          Release(Stolen(buf), log0, q0, next0);
          return Stop;
        case Recirc(id) =>
          if last {
            ghost var log1, q1, next1 := log, Queue(), next;
            Defer(Deferred(buf, Job(p, id, None)));
            ThenSettled(log0, q0, next0, log1, q1, next1, buf, log, Queue(), next);
            return Stop;
          }
          CloneAndDefer(Job(p, id, None), log0, q0, next0);
        case Sample(nested) =>
          if env.sampled(turn) && nested != [] {
            if OnTheSpot(nested) {
              NoteDeed(Up(p), log0, q0, next0);
              if !env.upcallOk(turn) {
                Release(Freed(buf), log0, q0, next0);
                return Stop;
              }
            } else {
              CloneAndDefer(Job(p, 0, Some(nested)), log0, q0, next0);
            }
          }
      }
      step := On(p, None);
    }

    method NoteDeed(d: Deed, ghost log0: seq<Event>, ghost q0: seq<Deferred>, ghost next0: nat)
      requires Valid() && !d.Ask? && NewSettled(log0, q0, next0, log, Queue(), next)
      modifies this`log
      ensures Valid() && log == old(log) + [Did(level, d)] && NewSettled(log0, q0, next0, log, Queue(), next)
    {
      hide Held, NewSettled, QueueOk;
      ghost var log1 := log;
      NoteSettles(log, Queue(), next, Did(level, d));
      Note(Did(level, d));
      NewThenNew(log0, q0, next0, log1, Queue(), next, log, Queue(), next);
    }

    method NoteQuietly(e: Event, ghost log0: seq<Event>, ghost q0: seq<Deferred>, ghost next0: nat)
      requires Valid() && !e.Did? && !e.Ends() && NewSettled(log0, q0, next0, log, Queue(), next)
      modifies this`log
      ensures Valid() && log == old(log) + [e] && NewSettled(log0, q0, next0, log, Queue(), next) && Queue() == old(Queue())
      ensures forall l: nat :: DeedsAt(log, l) == DeedsAt(old(log), l)
    {
      hide Held, NewSettled, DeedsAt, QueueOk;
      ghost var log1 := log;
      NoteSettles(log, Queue(), next, e);
      forall l: nat ensures DeedsAt(log + [e], l) == DeedsAt(log, l) { DeedsMore(log, e, l); }
      Note(e);
      NewThenNew(log0, q0, next0, log1, Queue(), next, log, Queue(), next);
    }

    method Release(e: Event, ghost log0: seq<Event>, ghost q0: seq<Deferred>, ghost next0: nat)
      requires Valid() && e.Ends() && e.buf < next0 && NewSettled(log0, q0, next0, log, Queue(), next)
      modifies this`log
      ensures Valid() && log == old(log) + [e] && Settled(log0, q0, next0, e.buf, log, Queue(), next) && Queue() == old(Queue())
      ensures forall l: nat :: QuietBelow(old(log), log, l) && DeedsAt(log, l) == DeedsAt(old(log), l)
    {
      hide Held, NewSettled, Settled, DeedsAt, QueueOk;
      ghost var log1 := log;
      End(e);
      ThenSettled(log0, q0, next0, log1, Queue(), next, e.buf, log, Queue(), next);
    }

    method CloneAndSend(p: Pkt, port: nat, ghost log0: seq<Event>, ghost q0: seq<Deferred>, ghost next0: nat)
      requires Valid() && level >= 1 && NewSettled(log0, q0, next0, log, Queue(), next)
      modifies this`head, this`tail, this`queued, this`put, this`ran, this`log, this`next, this`level, this`lists, this`mark, fifo
      ensures Valid() && Kept() && NewSettled(log0, q0, next0, log, Queue(), next) && HandedOver(env, old(log), log, level, old(next), p, port)
      ensures QuietBelow(old(log), log, level) && DeedsAt(log, level) == DeedsAt(old(log), level) + [Out(p, port)]
      decreases EXEC_ACTIONS_LEVEL_LIMIT - level, 3
    {
      hide Held, NewSettled, Settled, DeedsAt, HandedOver, QueueOk;
      ghost var log1, q1, next1 := log, Queue(), next;
      var clone := next;
      next := next + 1;
      Send(clone, p, port);
      CloneSettled(log0, q0, next0, log1, q1, next1, log, Queue(), next);
    }

    method CloneAndDefer(job: Job, ghost log0: seq<Event>, ghost q0: seq<Deferred>, ghost next0: nat)
      requires Valid() && level >= 1 && NewSettled(log0, q0, next0, log, Queue(), next)
      modifies this`head, this`queued, this`put, this`log, this`next, fifo
      ensures Valid() && Kept() && NewSettled(log0, q0, next0, log, Queue(), next)
      ensures log == old(log) + Deferring(level, Deferred(old(next), job), old(head))
    {
      hide Held, NewSettled, Settled, DeedsAt, QueueOk;
      ghost var log1, q1, next1 := log, Queue(), next;
      var clone := next;
      next := next + 1;
      Defer(Deferred(clone, job));
      CloneSettled(log0, q0, next0, log1, q1, next1, log, Queue(), next);
    }
  }

  /** What asking for a job comes to, with `head` entries in the queue. */
  function Deferring(level: nat, d: Deferred, head: nat): seq<Event>
  {
    [Did(level, Ask(d.job))] + if head < DEFERRED_ACTION_FIFO_SIZE - 1 then [] else [Freed(d.buf)]
  }

  /** What happens when an action is run: a job asked for goes into the queue if there is
      room, and otherwise its buffer is freed; a packet that cannot be changed is freed, and
      one that connection tracking keeps is gone. */
  ghost predicate DidOne(env: Env, log: seq<Event>, log': seq<Event>, level: nat, head: nat, clone: Buf, turn: Turn, a: Action, last: bool, buf: Buf, p: Pkt)
  {
    match a
    case Output(_) => log' == log
    case Userspace => log' == log + [Did(level, Up(p))]
    case Modify(op) => log' == log + if env.change(turn, op, p).Go? then [] else [Freed(buf)]
    case Ct(op) => log' == log + if env.track(turn, op, p).Go? then [] else [Stolen(buf)]
    case Recirc(id) => log' == log + Deferring(level, Deferred(if last then buf else clone, Job(p, id, None)), head)
    case Sample(nested) =>
      if !env.sampled(turn) || nested == [] then log' == log
      else if nested == [Userspace] then log' == log + [Did(level, Up(p))] + if env.upcallOk(turn) then [] else [Freed(buf)]
      else log' == log + Deferring(level, Deferred(clone, Job(p, 0, Some(nested))), head)
  }

  lemma DidOneDeeds(env: Env, log: seq<Event>, level: nat, head: nat, clone: Buf, turn: Turn, a: Action, last: bool, buf: Buf, p: Pkt)
    ensures forall log' :: DidOne(env, log, log', level, head, clone, turn, a, last, buf, p) ==>
              QuietBelow(log, log', level) && DeedsAt(log', level) == DeedsAt(log, level) + OwnDeeds(env, turn, a, p)
  {
    hide DeedsAt;
    forall log' | DidOne(env, log, log', level, head, clone, turn, a, last, buf, p)
      ensures QuietBelow(log, log', level) && DeedsAt(log', level) == DeedsAt(log, level) + OwnDeeds(env, turn, a, p)
    {
      var deeds := OwnDeeds(env, turn, a, p);
      if log' != log {
        var e := log'[|log|];
        OneOrTwo(log, log', e, level);
      }
    }
  }

  lemma OneOrTwo(log: seq<Event>, log': seq<Event>, e: Event, level: nat)
    requires log' == log + [e] || exists e' :: log' == log + [e] + [e'] && !e'.Did?
    requires e.Did? ==> e.level == level
    ensures QuietBelow(log, log', level) && DeedsAt(log', level) == DeedsAt(log, level) + if e.Did? then [e.deed] else []
  {
    hide DeedsAt;
    DeedsMore(log, e, level);
    QuietMore(log, log, e, level);
    if log' != log + [e] {
      var e' :| log' == log + [e] + [e'] && !e'.Did?;
      DeedsMore(log + [e], e', level);
      QuietMore(log, log + [e], e', level);
    }
  }

  /** What was done, what is pending and what is left make up the whole. */
  ghost predicate OnTrack(env: Env, run: nat, acts: seq<Action>, p: Pkt, done: seq<Deed>, pkt: Pkt, port: Option<nat>, i: nat)
  {
    i <= |acts| && Does(env, Turn(run, 0), acts, p) == done + Pending(pkt, port) + Does(env, Turn(run, i), acts[i..], pkt)
  }

  lemma NoneDoneYet(env: Env, run: nat, acts: seq<Action>, p: Pkt)
    ensures OnTrack(env, run, acts, p, [], p, None, 0)
  {
    assert acts[0..] == acts;
  }

  lemma SendPending(env: Env, run: nat, acts: seq<Action>, p: Pkt, done: seq<Deed>, pkt: Pkt, port: Option<nat>, i: nat)
    requires OnTrack(env, run, acts, p, done, pkt, port, i)
    ensures OnTrack(env, run, acts, p, done + Pending(pkt, port), pkt, None, i)
  {
  }

  lemma TurnStep(env: Env, run: nat, acts: seq<Action>, p: Pkt, done: seq<Deed>, pkt: Pkt, i: nat)
    requires i < |acts| && OnTrack(env, run, acts, p, done, pkt, None, i)
    ensures var done' := done + OwnDeeds(env, Turn(run, i), acts[i], pkt);
            match StepOf(env, Turn(run, i), acts[i], i == |acts| - 1, pkt)
            case On(p', port) => OnTrack(env, run, acts, p, done', p', port, i + 1)
            case Stop => Does(env, Turn(run, 0), acts, p) == done'
  {
    hide Does;
    assert acts[i..][0] == acts[i] && acts[i..][1..] == acts[i + 1..];
    DoesStep(env, Turn(run, i), acts[i..], pkt);
  }

  lemma NothingLeft(env: Env, run: nat, acts: seq<Action>, p: Pkt, done: seq<Deed>, pkt: Pkt, port: Option<nat>, i: nat)
    requires OnTrack(env, run, acts, p, done, pkt, port, i) && i == |acts|
    ensures Does(env, Turn(run, 0), acts, p) == done + Pending(pkt, port)
  {
  }

  /** The output that is still to be sent. */
  function Pending(p: Pkt, port: Option<nat>): seq<Deed>
  {
    if port.Some? then [Out(p, port.value)] else []
  }

  lemma NothingNew(log: seq<Event>, q: seq<Deferred>, next: nat)
    ensures NewSettled(log, q, next, log, q, next)
  {
  }

  lemma NoneDone(env: Env, log: seq<Event>)
    ensures AllDone(env, log, |log|, Jobs([]))
  {
  }

  /** A packet without a flow asks for nothing. */
  lemma NothingAsked(env: Env, log: seq<Event>, log': seq<Event>, ran: seq<Deferred>)
    requires log <= log' && forall i :: |log| <= i < |log'| ==> !log'[i].Asks()
    ensures Jobs(ran[|ran|..]) == FirstNine(AsksIn(log'[|log|..])) && AllDone(env, log', |log|, Jobs(ran[|ran|..]))
  {
    NoAsks(log'[|log|..]);
  }

  lemma {:induction false} NoAsks(log: seq<Event>)
    requires forall i :: 0 <= i < |log| ==> !log[i].Asks()
    ensures AsksIn(log) == []
  {
    if log != [] { NoAsks(log[..|log| - 1]); }
  }

  /** Events before the list began ask for nothing. */
  lemma DrainedSince(env: Env, log0: seq<Event>, log1: seq<Event>, log: seq<Event>, order: seq<Deferred>)
    requires log0 <= log1 <= log && (forall i :: |log0| <= i < |log1| ==> !log1[i].Asks())
    requires Jobs(order) == FirstNine(AsksIn(log[|log1|..])) && AllDone(env, log, |log1|, Jobs(order))
    ensures Jobs(order) == FirstNine(AsksIn(log[|log0|..])) && AllDone(env, log, |log0|, Jobs(order))
  {
    hide DoneIn, Jobs, AllDone;
    AllDoneSince(env, log, |log1|, |log0|, Jobs(order));
    var part := log[|log0|..|log1|];
    assert log[|log0|..] == part + log[|log1|..];
    AsksConcat(part, log[|log1|..]);
    assert forall i :: 0 <= i < |part| ==> part[i] == log1[|log0| + i];
    NoAsks(part);
  }

  lemma AllDoneSince(env: Env, log: seq<Event>, from: nat, from': nat, jobs: seq<Job>)
    requires AllDone(env, log, from, jobs) && from' <= from
    ensures AllDone(env, log, from', jobs)
  {
    hide DoneIn;
    forall k | 0 <= k < |jobs| ensures DoneAfter(env, log, from', jobs[k]) {
      assert DoneAfter(env, log, from, jobs[k]);
    }
  }

  /** With nothing in the queue, what was asked for since the mark was asked for from now
      on. */
  lemma SinceMark(env: Env, log0: seq<Event>, mark: nat, log1: seq<Event>, log: seq<Event>, order: seq<Deferred>)
    requires QueueOk(log0, mark, []) && log0 <= log1 <= log
    requires Jobs(order) == FirstNine(AsksIn(log[mark..])) && AllDone(env, log, |log1|, Jobs(order))
    ensures Jobs(order) == FirstNine(AsksIn(log[|log0|..])) && AllDone(env, log, |log0|, Jobs(order))
  {
    hide AllDone, AsksIn;
    AllDoneSince(env, log, |log1|, |log0|, Jobs(order));
    assert log[mark..] == log0[mark..] + log[|log0|..];
    AsksConcat(log0[mark..], log[|log0|..]);
    assert AsksIn(log0[mark..]) == [];
    assert [] + AsksIn(log[|log0|..]) == AsksIn(log[|log0|..]);
  }

  lemma SettledThenNew(log: seq<Event>, q: seq<Deferred>, next: nat, buf: Buf, log1: seq<Event>, q1: seq<Deferred>, next1: nat,
                       log2: seq<Event>, q2: seq<Deferred>, next2: nat)
    requires Settled(log, q, next, buf, log1, q1, next1) && NewSettled(log1, q1, next1, log2, q2, next2) && buf < next
    ensures Settled(log, q, next, buf, log2, q2, next2)
  {
    hide Held;
    forall b: Buf ensures Held(log2, q2, b) == Held(log, q, b) + if b == buf || next <= b < next2 then 1 else 0 {
      assert Held(log1, q1, b) == Held(log, q, b) + if b == buf || next <= b < next1 then 1 else 0;
    }
  }
}
