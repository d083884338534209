/** A BFD session as the object its operations update field by field, each proved
    against the session functions; and two such sessions that exchange packets
    over a channel that loses, delays, repeats and reorders them. */
module Bfd {
  import opened BfdSession

  class BfdObject {
    const disc: nat
    const mult: nat
    var cpathDown: bool
    var state: SessionState
    var diag: Diag
    var poll: bool
    var final: bool
    var rmt: Remote
    var timers: Timers
    var decay: Decay

    ghost function Value(): Session
      reads this
    {
      Session(disc, mult, cpathDown, state, diag, poll, final, rmt, timers, decay)
    }

    constructor (disc: nat)
      ensures Value() == NewSession(disc) && FlagsOk(Value())
    {
      this.disc, mult, cpathDown := disc, 3, false;
      state, diag, poll, final := Down, NoDiag, false, false;
      rmt := Remote(Down, NoDiag, 0, 1, 0);
      timers := Timers(0, 0, 0, 0, 1000, 0, 0, 0, 0);
      decay := Decay(false, 0, 0, 0, 0);
    }

    method UpdateDecay(now: int, rx: int)
      modifies this
      ensures Value() == DecayUpdate(old(Value()), now, rx)
      ensures Alike(old(Value()), Value()) && state == old(state)
    {
      decay := decay.(rxPackets := rx, rxCtl := 0);
      decay := decay.(detectTime := Max(decay.minRx, 2000) + now);
    }

    method ForgetPeer()
      modifies this
      ensures Value() == Forget(old(Value()))
      ensures rmt.disc == 0 && !decay.on && state == old(state) && poll == old(poll) && final == old(final)
    {
      rmt := Remote(Down, NoDiag, 0, 1, 0);
      if decay.on {
        timers := timers.(minRx := timers.cfgMinRx);
        decay := decay.(on := false);
      }
    }

    /** bfd_set_state: a session that changes to a state not above Down forgets its peer
        and stops decaying; one that comes up starts to measure its traffic. */
    method ChangeState(newState: SessionState, newDiag: Diag, now: int, rx: int)
      modifies this
      ensures Value() == SetState(old(Value()), newState, newDiag, now, rx)
      ensures StateEffect(old(Value()), newState, newDiag, now, rx, Value())
    {
      hide DecayUpdate, Forget, StateEffect;
      StateChanges(Value(), newState, newDiag, now, rx);
      var d := if cpathDown then ConcatenatedDown else newDiag;
      if state != newState || diag != d {
        state := newState;
        diag := d;
        if !state.Above() {
          ForgetFacts(Value());
          ForgetPeer();
        }
        if state.Up? && decay.minRx != 0 {
          UpdateDecay(now, rx);
        }
      }
    }

    /** bfd_poll: a Poll is on afterwards if one was, or if the session is above Down and
        no Final is due.  No interval in use changes before the peer has answered. */
    method Poll()
      modifies this
      ensures Value() == StartPoll(old(Value()))
      ensures PollEffect(old(Value()), Value())
    {
      hide PollEffect;
      PollStarts(Value());
      if state.Above() && !poll && !final {
        timers := timers.(pollMinTx := timers.cfgMinTx);
        timers := timers.(pollMinRx := if decay.on then decay.minRx else timers.cfgMinRx);
        poll := true;
        timers := timers.(nextTx := 0);
      }
    }

    method ConfigureMinTx(tx: int) returns (changed: bool)
      modifies this`timers
      ensures changed == (old(timers).cfgMinTx != tx) && Value() == if changed then SetMinTx(old(Value()), tx) else old(Value())
      ensures timers.cfgMinTx == tx && (state.Up? ==> timers.minTx <= old(timers).minTx)
    {
      changed := timers.cfgMinTx != tx;
      if changed {
        timers := timers.(cfgMinTx := tx);
        if !state.Up? || (!poll && tx < timers.minTx) {
          timers := timers.(minTx := tx);
        }
      }
    }

    method ConfigureMinRx(rx: int) returns (changed: bool)
      modifies this`timers
      ensures changed == (old(timers).cfgMinRx != rx) && Value() == if changed then SetMinRx(old(Value()), rx) else old(Value())
      ensures timers.cfgMinRx == rx && (state.Up? ==> timers.minRx >= old(timers).minRx)
    {
      changed := timers.cfgMinRx != rx;
      if changed {
        timers := timers.(cfgMinRx := rx);
        if !state.Up? || (!poll && rx > timers.minRx) {
          timers := timers.(minRx := rx);
        }
      }
    }

    method ConfigureDecay(minRx: int, force: bool, now: int, rx: int) returns (changed: bool)
      modifies this
      ensures changed == (old(decay).minRx != minRx || force)
      ensures Value() == if changed then SetDecay(old(Value()), minRx, now, rx) else old(Value())
    {
      hide DecayUpdate;
      changed := decay.minRx != minRx || force;
      if changed {
        decay := decay.(minRx := if 0 < minRx < timers.cfgMinRx then 0 else minRx);
        decay := decay.(on := false);
        UpdateDecay(now, rx);
      }
    }

    /** The timer part of bfd_configure: the configured intervals are on record; while the
        session is up it neither sends more slowly nor promises to receive faster.  What
        does neither is in use at once, and the rest is polled for. */
    method Configure(cfg: Config, now: int, rx: int)
      modifies this
      ensures Value() == Configured(old(Value()), cfg, now, rx)
      ensures ConfigEffect(old(Value()), cfg, Value())
    {
      hide SetState, SetMinTx, SetMinRx, SetDecay, StartPoll, ConfigEffect, StateEffect, PollEffect;
      ConfigureRecords(Value(), cfg, now, rx);
      KeepsCfg(Value(), Max(cfg.minTx, 1));
      var txChanged := ConfigureMinTx(Max(cfg.minTx, 1));
      var rxChanged := ConfigureMinRx(Max(cfg.minRx, 1));
      var decayChanged := ConfigureDecay(cfg.decayMinRx, rxChanged, now, rx);
      var pathChanged := cpathDown != cfg.cpathDown;
      if pathChanged {
        cpathDown := cfg.cpathDown;
        ChangeState(state, NoDiag, now, rx);
      }
      if txChanged || rxChanged || decayChanged || pathChanged {
        Poll();
      }
    }

    /** bfd_run: a session whose detection time is over goes down; otherwise its state and
        its intervals in use stay, decay is switched by the traffic measured, and a Poll
        is started if the intervals in use are not those asked for. */
    method Run(now: int, rx: int)
      modifies this
      ensures Value() == Ran(old(Value()), now, rx)
      ensures RunEffect(old(Value()), now, rx, Value())
      ensures state.Above() ==> now < old(timers).detectTime
    {
      hide SetState, DecayUpdate, StartPoll, StateEffect, PollEffect, RunEffect;
      RunDoes(Value(), now, rx);
      var wasOn := decay.on;
      if state.Above() && now >= timers.detectTime {
        SetStateFacts(Value(), Down, Expired, now, rx);
        ChangeState(Down, Expired, now, rx);
      }
      if state.Up? && decay.minRx > 0 && now >= decay.detectTime {
        decay := decay.(on := rx - decay.rxPackets <= 2 * Max(decay.rxCtl, 1));
        DecayAlike(Value(), now, rx);
        UpdateDecay(now, rx);
      }
      if timers.minTx != timers.cfgMinTx || (timers.minRx != timers.cfgMinRx && timers.minRx != decay.minRx) || decay.on != wasOn {
        PollFacts(Value());
        Poll();
      }
    }

    method SetNextTx(jitter: nat)
      modifies this`timers
      ensures Value() == old(Value()).(timers := old(timers).(nextTx := NextTx(old(Value()), jitter)))
    {
      var interval := Max(if state.Up? then timers.minTx else Max(timers.minTx, 1000), rmt.minRx);
      timers := timers.(nextTx := timers.lastTx + interval - interval * jitter / 100);
    }

    /** bfd_put_packet; no packet has both Poll and Final set, and the next one is due
        within the interval. */
    method PutPacket(now: int, jitter: nat) returns (m: Msg)
      requires FlagsOk(Value())
      modifies this
      ensures m == Message(old(Value())) && !(m.poll && m.final)
      ensures Value() == AfterSend(old(Value()), now, jitter) && SendEffect(old(Value()), now, jitter, m, Value())
    {
      hide NextTx, SendEffect;
      SendDoes(Value(), now, jitter);
      var tx, rx := if state.Up? then timers.minTx else Max(timers.minTx, 1000), timers.minRx;
      if poll {
        tx, rx := timers.pollMinTx, timers.pollMinRx;
      }
      m := Msg(true, false, mult, state, diag, poll, final, disc, rmt.disc, 1000 * tx, 1000 * rx);
      final := false;
      timers := timers.(lastTx := now);
      SetNextTx(jitter);
    }

    /** What bfd_process_packet takes from a packet that passed its checks. */
    method TakeIn(m: Msg, now: int, jitter: nat)
      modifies this
      ensures Value() == Learn(old(Value()), m, now, jitter)
      ensures state == old(state) && rmt.disc == m.myDisc && (FlagsOk(old(Value())) ==> FlagsOk(Value()))
      ensures m.poll ==> final && !poll
    {
      hide NextTx;
      rmt := rmt.(disc := m.myDisc, state := m.state, diag := m.diag);
      if m.final && poll {
        timers := timers.(minTx := timers.pollMinTx, minRx := timers.pollMinRx);
        poll := false;
      }
      if m.poll {
        poll := false;
        final := true;
      }
      var theirMinRx := Max(m.minRx / 1000, 1);
      if rmt.minRx != theirMinRx {
        rmt := rmt.(minRx := theirMinRx);
        if timers.nextTx != 0 {
          SetNextTx(jitter);
        }
      }
      rmt := rmt.(minTx := Max(m.minTx / 1000, 1));
      timers := timers.(detectTime := Max(timers.minRx, rmt.minTx) * mult + now);
    }

    /** bfd_process_packet: a packet that does not pass the checks is only counted.  One
        that does moves the state machine, is remembered unless the session goes down,
        takes part in a Poll, and sets the time to wait for the next. */
    method ProcessPacket(ttl: nat, m: Msg, now: int, jitter: nat, rx: int)
      modifies this
      ensures Value() == Processed(old(Value()), ttl, m, now, jitter, rx)
      ensures PacketEffect(old(Value()), ttl, m, now, jitter, Value())
    {
      hide SetState, Learn, PacketEffect, StateEffect, FlagsOk;
      ProcessedFacts(Value(), ttl, m, now, jitter, rx);
      decay := decay.(rxCtl := decay.rxCtl + 1);
      if ttl != 255 || !m.wellFormed || m.mult == 0 || m.multipoint || m.myDisc == 0 { return; }
      if m.yourDisc != 0 {
        if m.yourDisc != disc { return; }
      } else if m.state.Above() {
        return;
      }
      TakeIn(m, now, jitter);
      if state.AdminDown? { return; }
      if m.state.AdminDown? {
        if !state.Down? {
          ChangeState(Down, RemoteDown, now, rx);
        }
      } else {
        match state {
          case Down =>
            if m.state.Down? {
              ChangeState(Init, diag, now, rx);
            } else if m.state.Init? {
              ChangeState(Up, diag, now, rx);
            }
          case Init =>
            if m.state.Above() {
              ChangeState(Up, diag, now, rx);
            }
          case Up =>
            if !m.state.Above() {
              ChangeState(Down, RemoteDown, now, rx);
            }
        }
      }
    }
  }

  lemma ForgetFacts(s: Session)
    ensures Forget(s).state == s.state && Forget(s).decay.minRx == s.decay.minRx
  {
  }

  lemma KeepsCfg(s: Session, v: int)
    ensures SetMinTx(s, v).timers.cfgMinRx == s.timers.cfgMinRx
  {
  }

  // ---- Two peers ----

  datatype Peer = A | B
  {
    function Other(): Peer { if A? then B else A }
  }

  datatype Event = Sent(who: Peer, m: Msg) | Accepted(who: Peer, m: Msg)

  /** Both sessions, and everything they have sent and accepted.  The channel can
      deliver any packet that was ever sent, at any time and any number of times. */
  datatype World = World(a: Session, b: Session, log: seq<Event>)
  {
    function Of(p: Peer): Session { if p.A? then a else b }

    function With(p: Peer, s: Session): World { if p.A? then this.(a := s) else this.(b := s) }
  }

  datatype Move = Move(who: Peer, step: Step)

  /** What a peer receives has been sent by the other. */
  ghost predicate Possible(w: World, mv: Move)
  {
    mv.step.Receive? ==> Sent(mv.who.Other(), mv.step.m) in w.log
  }

  function EventsOf(s: Session, mv: Move): seq<Event>
  {
    match mv.step
    case Send(_, _) => [Sent(mv.who, Message(s))]
    case Receive(ttl, m, _, _, _) => if Acceptable(s, ttl, m) then [Accepted(mv.who, m)] else []
    case _ => []
  }

  function After(w: World, mv: Move): World
  {
    var s := w.Of(mv.who);
    World(w.a, w.b, w.log + EventsOf(s, mv)).With(mv.who, Next(s, mv.step))
  }

  /** Before place `n` of the log the peer accepted a packet with this
      discriminator, and the other had sent that packet before. */
  ghost predicate HeardOf(log: seq<Event>, n: nat, who: Peer, disc: nat)
  {
    exists h, i :: 0 <= h < i < n && i < |log| && HeardAt(log, h, i, who, disc)
  }

  ghost predicate HeardAt(log: seq<Event>, h: nat, i: nat, who: Peer, disc: nat)
    requires h < i < |log|
  {
    log[i].Accepted? && log[i].who == who && log[i].m.myDisc == disc && log[h] == Sent(who.Other(), log[i].m)
  }

  /** A peer names a discriminator only after having heard of it. */
  ghost predicate WorldOk(w: World)
  {
    && (forall p: Peer :: w.Of(p).rmt.disc != 0 ==> HeardOf(w.log, |w.log|, p, w.Of(p).rmt.disc))
    && (forall j :: 0 <= j < |w.log| && w.log[j].Sent? && w.log[j].m.yourDisc != 0 ==>
          HeardOf(w.log, j, w.log[j].who, w.log[j].m.yourDisc))
  }

  lemma HeardStill(log: seq<Event>, n: nat, who: Peer, disc: nat, more: seq<Event>, n': nat)
    requires HeardOf(log, n, who, disc) && n <= n'
    ensures HeardOf(log + more, n', who, disc)
  {
    var h, i :| 0 <= h < i < n && i < |log| && HeardAt(log, h, i, who, disc);
    assert HeardAt(log + more, h, i, who, disc);
  }

  /** A step keeps the discriminator it has, or drops it, or takes that of the
      packet it accepts. */
  lemma DiscAfter(s: Session, step: Step)
    ensures var d := Next(s, step).rmt.disc;
            Next(s, step).disc == s.disc
            && (d == s.rmt.disc || d == 0 || (step.Receive? && Acceptable(s, step.ttl, step.m) && d == step.m.myDisc))
  {
    hide Configured, Ran, Learn, React, NextTx, Acceptable, FlagsOk;
    match step
    case Configure(cfg, now, rx) => ConfigureHarmless(s, cfg, now, rx);
    case Run(now, rx) => RunHarmless(s, now, rx);
    case Send(now, jitter) =>
    case Receive(ttl, m, now, jitter, rx) =>
      var t := Counted(s);
      LearnFacts(t, m, now, jitter);
      ReactFacts(Learn(t, m, now, jitter), m.state, now, rx);
  }

  lemma AcceptedIsHeard(w: World, mv: Move)
    requires Possible(w, mv) && mv.step.Receive? && Acceptable(w.Of(mv.who), mv.step.ttl, mv.step.m)
    ensures HeardOf(After(w, mv).log, |w.log| + 1, mv.who, mv.step.m.myDisc)
  {
    hide Next, Acceptable;
    var h :| 0 <= h < |w.log| && w.log[h] == Sent(mv.who.Other(), mv.step.m);
    assert HeardAt(After(w, mv).log, h, |w.log|, mv.who, mv.step.m.myDisc);
  }

  lemma LogAfter(w: World, mv: Move)
    ensures After(w, mv).log == w.log + EventsOf(w.Of(mv.who), mv) && |EventsOf(w.Of(mv.who), mv)| <= 1
    ensures forall p: Peer :: After(w, mv).Of(p) == if p == mv.who then Next(w.Of(p), mv.step) else w.Of(p)
  {
  }

  lemma MoveKeepsWorld(w: World, mv: Move)
    requires WorldOk(w) && Possible(w, mv)
    ensures WorldOk(After(w, mv))
  {
    hide Next, Acceptable, HeardOf, After, Message;
    var w', s := After(w, mv), w.Of(mv.who);
    var more := EventsOf(s, mv);
    LogAfter(w, mv);
    DiscAfter(s, mv.step);
    forall p: Peer | w'.Of(p).rmt.disc != 0 ensures HeardOf(w'.log, |w'.log|, p, w'.Of(p).rmt.disc) {
      if w'.Of(p).rmt.disc == w.Of(p).rmt.disc {
        HeardStill(w.log, |w.log|, p, w.Of(p).rmt.disc, more, |w'.log|);
      } else {
        AcceptedIsHeard(w, mv);
      }
    }
    forall j | 0 <= j < |w'.log| && w'.log[j].Sent? && w'.log[j].m.yourDisc != 0
      ensures HeardOf(w'.log, j, w'.log[j].who, w'.log[j].m.yourDisc)
    {
      if j < |w.log| {
        HeardStill(w.log, j, w.log[j].who, w.log[j].m.yourDisc, more, j);
      } else {
        NamesRemote(s);
        HeardStill(w.log, |w.log|, mv.who, s.rmt.disc, more, j);
      }
    }
  }

  lemma NamesRemote(s: Session)
    ensures Message(s).yourDisc == s.rmt.disc
  {
  }

  ghost predicate Run(worlds: seq<World>, moves: seq<Move>)
  {
    && |worlds| == |moves| + 1 && worlds[0].log == [] && worlds[0].a.rmt.disc == 0 && worlds[0].b.rmt.disc == 0
    && forall k :: 0 <= k < |moves| ==> Possible(worlds[k], moves[k]) && worlds[k + 1] == After(worlds[k], moves[k])
  }

  lemma {:induction false} RunKeepsWorld(worlds: seq<World>, moves: seq<Move>, n: nat)
    requires Run(worlds, moves) && n <= |moves|
    ensures WorldOk(worlds[n])
  {
    hide After, Possible;
    if n > 0 {
      RunKeepsWorld(worlds, moves, n - 1);
      MoveKeepsWorld(worlds[n - 1], moves[n - 1]);
    }
  }

  /** The handshake: a session goes up only after it sent a packet (at `h`), the
      peer accepted that packet (at `i`) and then sent (at `j`) a packet that names
      this session and says Init or Up, which the session now accepts. */
  ghost predicate Handshake(log: seq<Event>, who: Peer, disc: nat, m: Msg)
  {
    m.state.Above() && m.yourDisc == disc
    && exists h, i, j :: 0 <= h < i < j < |log| && log[j] == Sent(who.Other(), m)
                         && log[i].Accepted? && log[i].who == who.Other() && log[i].m.myDisc == disc && log[h] == Sent(who, log[i].m)
  }

  lemma UpMeansHandshake(worlds: seq<World>, moves: seq<Move>, n: nat, who: Peer)
    requires Run(worlds, moves) && n < |moves| && worlds[n].Of(who).disc != 0
    requires !worlds[n].Of(who).state.Up? && worlds[n + 1].Of(who).state.Up?
    ensures moves[n].who == who && moves[n].step.Receive?
    ensures Handshake(worlds[n].log, who, worlds[n].Of(who).disc, moves[n].step.m)
  {
    hide After, Next, Acceptable, WorldOk;
    var w, mv := worlds[n], moves[n];
    assert Possible(w, mv) && worlds[n + 1] == After(w, mv);
    LogAfter(w, mv);
    Transitions(w.Of(who), mv.step);
    RunKeepsWorld(worlds, moves, n);
    PeerHeardFirst(w, who, mv.step.m);
  }

  lemma PeerHeardFirst(w: World, who: Peer, m: Msg)
    requires WorldOk(w) && Sent(who.Other(), m) in w.log && m.yourDisc != 0
    ensures exists h, i, j :: 0 <= h < i < j < |w.log| && w.log[j] == Sent(who.Other(), m)
                              && w.log[i].Accepted? && w.log[i].who == who.Other() && w.log[i].m.myDisc == m.yourDisc
                              && w.log[h] == Sent(who, w.log[i].m)
  {
    var j :| 0 <= j < |w.log| && w.log[j] == Sent(who.Other(), m);
    assert HeardOf(w.log, j, who.Other(), m.yourDisc);
    var h, i :| 0 <= h < i < j && HeardAt(w.log, h, i, who.Other(), m.yourDisc);
    assert w.log[h] == Sent(who, w.log[i].m);
  }

  // ---- Coming up ----

  /** The peers have discriminators and send them; neither is administratively down; and
      each knows the other's discriminator or none. */
  ghost predicate PeersOk(w: World)
  {
    && (forall p: Peer :: SessionOk(w.Of(p), w.Of(p.Other())))
    && (forall j :: 0 <= j < |w.log| && w.log[j].Sent? ==> w.log[j].m.myDisc == w.Of(w.log[j].who).disc)
  }

  predicate SessionOk(s: Session, other: Session)
  {
    s.disc != 0 && s.mult != 0 && !s.state.AdminDown? && (s.rmt.disc == 0 || s.rmt.disc == other.disc)
  }

  /** No step changes what a session is known by, or shuts it down. */
  lemma StepKeepsSession(s: Session, step: Step)
    ensures Next(s, step).disc == s.disc && Next(s, step).mult == s.mult
    ensures !s.state.AdminDown? ==> !Next(s, step).state.AdminDown?
  {
    hide Configured, Ran, Processed, NextTx, Acceptable, FlagsOk, InUse, Told, CfgChanges, Measures;
    match step
    case Configure(cfg, now, rx) => ConfigureRecords(s, cfg, now, rx);
    case Run(now, rx) => RunDoes(s, now, rx);
    case Send(now, jitter) =>
    case Receive(ttl, m, now, jitter, rx) => ProcessedFacts(s, ttl, m, now, jitter, rx);
  }

  lemma MoveKeepsPeers(w: World, mv: Move)
    requires PeersOk(w) && Possible(w, mv)
    ensures PeersOk(After(w, mv))
  {
    hide Next, Acceptable, After, Message;
    LogAfter(w, mv);
    StepKeepsSession(w.Of(mv.who), mv.step);
    DiscAfter(w.Of(mv.who), mv.step);
    var w' := After(w, mv);
    forall p: Peer ensures SessionOk(w'.Of(p), w'.Of(p.Other())) {
      assert SessionOk(w.Of(p), w.Of(p.Other()));
      assert w'.Of(p.Other()).disc == w.Of(p.Other()).disc;
    }
    forall j | 0 <= j < |w'.log| && w'.log[j].Sent? ensures w'.log[j].m.myDisc == w'.Of(w'.log[j].who).disc {
      if j < |w.log| { assert w'.log[j] == w.log[j]; } else { GivesDisc(w.Of(mv.who)); }
    }
  }

  lemma GivesDisc(s: Session)
    ensures Message(s).myDisc == s.disc
  {
  }

  /** The peers of every run are so, from new sessions on. */
  lemma {:induction false} RunKeepsPeers(worlds: seq<World>, moves: seq<Move>, n: nat)
    requires Run(worlds, moves) && PeersOk(worlds[0]) && n <= |moves|
    ensures PeersOk(worlds[n])
  {
    hide After, Possible, PeersOk;
    if n > 0 {
      RunKeepsPeers(worlds, moves, n - 1);
      assert Possible(worlds[n - 1], moves[n - 1]) && worlds[n] == After(worlds[n - 1], moves[n - 1]);
      MoveKeepsPeers(worlds[n - 1], moves[n - 1]);
    }
  }

  lemma NewPeersOk(a: nat, b: nat)
    requires a != 0 && b != 0
    ensures PeersOk(World(NewSession(a), NewSession(b), []))
  {
  }

  /** A continuation of a run. */
  ghost predicate Continues(w: World, moves: seq<Move>, w': World)
    decreases |moves|
  {
    if moves == [] then w' == w else Possible(w, moves[0]) && Continues(After(w, moves[0]), moves[1..], w')
  }

  lemma {:induction false} ContinueOn(w: World, moves: seq<Move>, w': World, more: seq<Move>, w'': World)
    requires Continues(w, moves, w') && Continues(w', more, w'')
    ensures Continues(w, moves + more, w'')
    decreases |moves|
  {
    hide After, Possible;
    if moves == [] {
      assert moves + more == more;
    } else {
      assert (moves + more)[0] == moves[0] && (moves + more)[1..] == moves[1..] + more;
      ContinueOn(After(w, moves[0]), moves[1..], w', more, w'');
    }
  }

  lemma OneMove(w: World, mv: Move)
    requires Possible(w, mv)
    ensures Continues(w, [mv], After(w, mv))
  {
    hide After, Possible;
    assert Continues(After(w, mv), [], After(w, mv));
  }

  /** One peer sends and the other receives: the receiver goes where the state machine
      says, and knows the sender unless it goes down. */
  lemma Exchange(w: World, who: Peer) returns (moves: seq<Move>, w': World)
    requires PeersOk(w) && (w.Of(who).state.Above() ==> w.Of(who).rmt.disc == w.Of(who.Other()).disc)
    ensures Continues(w, moves, w') && PeersOk(w')
    ensures var s, r, s', r' := w.Of(who), w.Of(who.Other()), w'.Of(who), w'.Of(who.Other());
            && s'.disc == s.disc && s'.state == s.state && s'.rmt == s.rmt && r'.disc == r.disc && GoesTo(r.state, s.state, r'.state)
            && (r'.state.Above() ==> r'.rmt.disc == s.disc)
  {
    hide After, Message, Processed, PeersOk, GoesTo, NextTx, Continues, Acceptable;
    var send := Move(who, Send(0, 0));
    var w1 := After(w, send);
    var m := Message(w.Of(who));
    LogAfter(w, send);
    OneMove(w, send);
    MoveKeepsPeers(w, send);
    var receive := Move(who.Other(), Receive(255, m, 0, 0, 0));
    assert w1.log[|w.log|] == Sent(who, m);
    OneMove(w1, receive);
    MoveKeepsPeers(w1, receive);
    moves, w' := [send] + [receive], After(w1, receive);
    ContinueOn(w, [send], w1, [receive], w');
    LogAfter(w1, receive);
    StepKeepsSession(w1.Of(who.Other()), receive.step);
    Received(w, who);
  }

  lemma Received(w: World, who: Peer)
    requires PeersOk(w) && (w.Of(who).state.Above() ==> w.Of(who).rmt.disc == w.Of(who.Other()).disc)
    ensures var r := w.Of(who.Other());
            var r' := Processed(r, 255, Message(w.Of(who)), 0, 0, 0);
            Acceptable(r, 255, Message(w.Of(who))) && GoesTo(r.state, w.Of(who).state, r'.state) && (r'.state.Above() ==> r'.rmt.disc == w.Of(who).disc)
  {
    hide Processed, GoesTo, InUse;
    var s, r := w.Of(who), w.Of(who.Other());
    assert SessionOk(s, r) && SessionOk(r, w.Of(who.Other().Other()));
    ProcessedFacts(r, 255, Message(s), 0, 0, 0);
  }

  /** After a silence both sessions are down. */
  lemma Silence(w: World, who: Peer) returns (moves: seq<Move>, w': World)
    requires PeersOk(w)
    ensures Continues(w, moves, w') && PeersOk(w') && w'.Of(who).state.Down? && w'.Of(who.Other()) == w.Of(who.Other())
  {
    hide After, Ran, PeersOk, Continues, RunEffect;
    var mv := Move(who, BfdSession.Run(w.Of(who).timers.detectTime, 0));
    OneMove(w, mv);
    MoveKeepsPeers(w, mv);
    LogAfter(w, mv);
    moves, w' := [mv], After(w, mv);
    Expires(w, who);
  }

  lemma Expires(w: World, who: Peer)
    requires PeersOk(w)
    ensures Ran(w.Of(who), w.Of(who).timers.detectTime, 0).state.Down?
  {
    hide Ran;
    assert SessionOk(w.Of(who), w.Of(who.Other()));
    RunDoes(w.Of(who), w.Of(who).timers.detectTime, 0);
  }

  /** Whatever has happened between two peers, they can still both come up. */
  lemma PeersComeUp(w: World) returns (moves: seq<Move>, w': World)
    requires PeersOk(w)
    ensures Continues(w, moves, w') && w'.a.state.Up? && w'.b.state.Up?
  {
    hide Continues, PeersOk;
    var m1, w1 := Silence(w, A);
    var m2, w2 := Silence(w1, B);
    var m3, w3 := Exchange(w2, A);
    var m4, w4 := Exchange(w3, B);
    var m5, w5 := Exchange(w4, A);
    assert w2.Of(A).state.Down? && w2.Of(B).state.Down? && w3.Of(B).state.Init? && w4.Of(A).state.Up? && w5.Of(B).state.Up?;
    moves, w' := m1 + m2 + m3 + m4 + m5, w5;
    ContinueOn(w, m1, w1, m2, w2);
    ContinueOn(w, m1 + m2, w2, m3, w3);
    ContinueOn(w, m1 + m2 + m3, w3, m4, w4);
    ContinueOn(w, m1 + m2 + m3 + m4, w4, m5, w5);
  }
}
