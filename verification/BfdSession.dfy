/** One BFD session: timers, the Poll/Final exchange and the state machine of
    section 6.8.6 of RFC 5880.  Times are in milliseconds. */
module BfdSession {
  datatype SessionState = AdminDown | Down | Init | Up
  {
    predicate Above() { Init? || Up? }   // above Down
  }

  datatype Diag = NoDiag | Expired | EchoFailed | RemoteDown | ForwardingReset | PathDown | ConcatenatedDown | AdminIsDown | ReverseDown

  /** What the peer last said; intervals are in milliseconds. */
  datatype Remote = Remote(state: SessionState, diag: Diag, disc: nat, minRx: int, minTx: int)

  /** Configured, polled and current intervals, and points in time. */
  datatype Timers = Timers(cfgMinTx: int, cfgMinRx: int, pollMinTx: int, pollMinRx: int, minTx: int, minRx: int,
                           lastTx: int, nextTx: int, detectTime: int)

  /** Slower reception while little traffic comes in. */
  datatype Decay = Decay(on: bool, minRx: int, rxCtl: int, rxPackets: int, detectTime: int)

  datatype Session = Session(disc: nat, mult: nat, cpathDown: bool, state: SessionState, diag: Diag, poll: bool, final: bool,
                             rmt: Remote, timers: Timers, decay: Decay)

  /** A control packet.  `wellFormed` stands for version 1, no authentication and a
      length of at least 24; intervals are in microseconds. */
  datatype Msg = Msg(wellFormed: bool, multipoint: bool, mult: nat, state: SessionState, diag: Diag, poll: bool, final: bool,
                     myDisc: nat, yourDisc: nat, minTx: int, minRx: int)

  datatype Config = Config(minTx: int, minRx: int, decayMinRx: int, cpathDown: bool)

  function Max(a: int, b: int): int { if a >= b then a else b }

  // ---- Intervals ----

  /** bfd_min_tx: at least a second unless the session is up. */
  function MinTx(s: Session): int { if s.state.Up? then s.timers.minTx else Max(s.timers.minTx, 1000) }

  function TxInterval(s: Session): int { Max(MinTx(s), s.rmt.minRx) }

  function RxInterval(s: Session): int { Max(s.timers.minRx, s.rmt.minTx) }

  /** bfd_set_next_tx; `jitter` is a percentage below 26. */
  function NextTx(s: Session, jitter: nat): int
  {
    s.timers.lastTx + TxInterval(s) - TxInterval(s) * jitter / 100
  }

  /** Transmission is at 75 to 100 percent of the interval. */
  lemma JitterBounds(s: Session, jitter: nat)
    requires jitter < 26 && TxInterval(s) >= 0
    ensures 3 * TxInterval(s) <= 4 * (NextTx(s, jitter) - s.timers.lastTx) <= 4 * TxInterval(s)
  {
    var i := TxInterval(s);
    assert 0 <= i * jitter <= 25 * i;
  }

  // ---- State changes ----

  function DecayUpdate(s: Session, now: int, rx: int): Session
  {
    s.(decay := Decay(s.decay.on, s.decay.minRx, 0, rx, Max(s.decay.minRx, 2000) + now))
  }

  /** What a session forgets when it goes down. */
  function Forget(s: Session): Session
  {
    var t := s.(rmt := Remote(Down, NoDiag, 0, 1, 0));
    if s.decay.on then t.(timers := s.timers.(minRx := s.timers.cfgMinRx), decay := s.decay.(on := false)) else t
  }

  /** bfd_set_state; `rx` is the number of packets the device has received. */
  function SetState(s: Session, state: SessionState, diag: Diag, now: int, rx: int): Session
  {
    var d := if s.cpathDown then ConcatenatedDown else diag;
    if s.state == state && s.diag == d then s
    else
      var t := s.(state := state, diag := d);
      var u := if state.Above() then t else Forget(t);
      if state.Up? && u.decay.minRx != 0 then DecayUpdate(u, now, rx) else u
  }

  /** bfd_poll: starts a Poll unless one is on or a Final is due. */
  function StartPoll(s: Session): Session
  {
    if s.state.Above() && !s.poll && !s.final then
      s.(poll := true,
         timers := s.timers.(pollMinTx := s.timers.cfgMinTx, nextTx := 0,
                             pollMinRx := if s.decay.on then s.decay.minRx else s.timers.cfgMinRx))
    else s
  }

  // ---- The operations ----

  /** A new session, before it is configured. */
  function NewSession(disc: nat): Session
  {
    Session(disc, 3, false, Down, NoDiag, false, false, Remote(Down, NoDiag, 0, 1, 0),
            Timers(0, 0, 0, 0, 1000, 0, 0, 0, 0), Decay(false, 0, 0, 0, 0))
  }

  function SetMinTx(s: Session, minTx: int): Session
  {
    var t := s.timers.(cfgMinTx := minTx);
    s.(timers := if !s.state.Up? || (!s.poll && minTx < s.timers.minTx) then t.(minTx := minTx) else t)
  }

  function SetMinRx(s: Session, minRx: int): Session
  {
    var t := s.timers.(cfgMinRx := minRx);
    s.(timers := if !s.state.Up? || (!s.poll && minRx > s.timers.minRx) then t.(minRx := minRx) else t)
  }

  function SetDecay(s: Session, decayMinRx: int, now: int, rx: int): Session
  {
    var d := if 0 < decayMinRx < s.timers.cfgMinRx then 0 else decayMinRx;
    DecayUpdate(s.(decay := s.decay.(minRx := d, on := false)), now, rx)
  }

  /** The timer part of bfd_configure. */
  function Configured(s: Session, cfg: Config, now: int, rx: int): Session
  {
    var tx, rxMin := Max(cfg.minTx, 1), Max(cfg.minRx, 1);
    var newTx, newRx := s.timers.cfgMinTx != tx, s.timers.cfgMinRx != rxMin;
    var s1 := if newTx then SetMinTx(s, tx) else s;
    var s2 := if newRx then SetMinRx(s1, rxMin) else s1;
    var newDecay := s2.decay.minRx != cfg.decayMinRx || newRx;
    var s3 := if newDecay then SetDecay(s2, cfg.decayMinRx, now, rx) else s2;
    var newPath := s3.cpathDown != cfg.cpathDown;
    var s4 := if newPath then SetState(s3.(cpathDown := cfg.cpathDown), s3.state, NoDiag, now, rx) else s3;
    if newTx || newRx || newDecay || newPath then StartPoll(s4) else s4
  }

  /** bfd_run. */
  function Ran(s: Session, now: int, rx: int): Session
  {
    var s1 := if s.state.Above() && now >= s.timers.detectTime then SetState(s, Down, Expired, now, rx) else s;
    var s2 := if s1.state.Up? && s1.decay.minRx > 0 && now >= s1.decay.detectTime then
                DecayUpdate(s1.(decay := s1.decay.(on := rx - s1.decay.rxPackets <= 2 * Max(s1.decay.rxCtl, 1))), now, rx)
              else s1;
    if s2.timers.minTx != s2.timers.cfgMinTx || (s2.timers.minRx != s2.timers.cfgMinRx && s2.timers.minRx != s2.decay.minRx) || s2.decay.on != s.decay.on then StartPoll(s2)
    else s2
  }

  /** The packet bfd_put_packet composes. */
  function Message(s: Session): Msg
  {
    Msg(true, false, s.mult, s.state, s.diag, s.poll, s.final, s.disc, s.rmt.disc,
        1000 * (if s.poll then s.timers.pollMinTx else MinTx(s)), 1000 * (if s.poll then s.timers.pollMinRx else s.timers.minRx))
  }

  function AfterSend(s: Session, now: int, jitter: nat): Session
  {
    var t := s.(final := false, timers := s.timers.(lastTx := now));
    t.(timers := t.timers.(nextTx := NextTx(t, jitter)))
  }

  /** The checks of section 6.8.6, with the time to live of the carrying packet. */
  predicate Acceptable(s: Session, ttl: nat, m: Msg)
  {
    && ttl == 255 && m.wellFormed && m.mult != 0 && !m.multipoint && m.myDisc != 0
    && (if m.yourDisc != 0 then m.yourDisc == s.disc else !m.state.Above())
  }

  /** What an accepted packet says about the peer, and its part in a Poll. */
  function LearnPeer(s: Session, m: Msg): Session
  {
    var s1 := s.(rmt := s.rmt.(disc := m.myDisc, state := m.state, diag := m.diag));
    var s2 := if m.final && s1.poll then
                s1.(poll := false, timers := s1.timers.(minTx := s1.timers.pollMinTx, minRx := s1.timers.pollMinRx))
              else s1;
    if m.poll then s2.(poll := false, final := true) else s2
  }

  /** The intervals it asks for, and the detection time they give. */
  function LearnIntervals(s: Session, m: Msg, now: int, jitter: nat): Session
  {
    var minRx := Max(m.minRx / 1000, 1);
    var s1 := if s.rmt.minRx != minRx then
                (var t := s.(rmt := s.rmt.(minRx := minRx));
                 if t.timers.nextTx != 0 then t.(timers := t.timers.(nextTx := NextTx(t, jitter))) else t)
              else s;
    var s2 := s1.(rmt := s1.rmt.(minTx := Max(m.minTx / 1000, 1)));
    s2.(timers := s2.timers.(detectTime := RxInterval(s2) * s2.mult + now))
  }

  function Learn(s: Session, m: Msg, now: int, jitter: nat): Session
  {
    LearnIntervals(LearnPeer(s, m), m, now, jitter)
  }

  /** The state machine of section 6.8.6. */
  function React(s: Session, rmt: SessionState, now: int, rx: int): Session
  {
    if s.state.AdminDown? then s
    else if rmt.AdminDown? then (if s.state.Down? then s else SetState(s, Down, RemoteDown, now, rx))
    else
      match s.state
      case Down =>
        if rmt.Down? then SetState(s, Init, s.diag, now, rx) else if rmt.Init? then SetState(s, Up, s.diag, now, rx) else s
      case Init => if rmt.Above() then SetState(s, Up, s.diag, now, rx) else s
      case Up => if !rmt.Above() then SetState(s, Down, RemoteDown, now, rx) else s
      case AdminDown => s
  }

  function Counted(s: Session): Session { s.(decay := s.decay.(rxCtl := s.decay.rxCtl + 1)) }

  /** bfd_process_packet. */
  function Processed(s: Session, ttl: nat, m: Msg, now: int, jitter: nat, rx: int): Session
  {
    var t := Counted(s);
    if Acceptable(s, ttl, m) then React(Learn(t, m, now, jitter), m.state, now, rx) else t
  }

  // ---- Steps and runs of one session ----

  datatype Step =
    | Configure(cfg: Config, now: int, rx: int)
    | Run(now: int, rx: int)
    | Send(now: int, jitter: nat)
    | Receive(ttl: nat, m: Msg, now: int, jitter: nat, rx: int)

  function Next(s: Session, step: Step): Session
  {
    match step
    case Configure(cfg, now, rx) => Configured(s, cfg, now, rx)
    case Run(now, rx) => Ran(s, now, rx)
    case Send(now, jitter) => AfterSend(s, now, jitter)
    case Receive(ttl, m, now, jitter, rx) => Processed(s, ttl, m, now, jitter, rx)
  }

  /** Poll and Final are never both set. */
  predicate FlagsOk(s: Session) { !(s.poll && s.final) }

  // ---- What the parts of a step leave alone ----

  /** The variables that carry the properties below, other than the state. */
  predicate Alike(s: Session, t: Session)
  {
    && t.disc == s.disc && t.mult == s.mult && t.poll == s.poll && t.final == s.final
    && t.timers.minTx == s.timers.minTx && t.timers.minRx == s.timers.minRx && t.timers.detectTime == s.timers.detectTime && t.rmt.disc == s.rmt.disc
  }

  lemma DecayAlike(s: Session, now: int, rx: int)
    ensures Alike(s, DecayUpdate(s, now, rx)) && DecayUpdate(s, now, rx).state == s.state
  {
  }

  lemma SetStateFacts(s: Session, state: SessionState, diag: Diag, now: int, rx: int)
    ensures var t := SetState(s, state, diag, now, rx);
            && t.state == state && t.disc == s.disc && t.mult == s.mult && t.poll == s.poll && t.final == s.final
            && t.timers.minTx == s.timers.minTx && t.timers.detectTime == s.timers.detectTime && (t.rmt.disc == s.rmt.disc || t.rmt.disc == 0)
            && (state.Above() ==> Alike(s, t))
  {
  }

  /** What a state change comes to.  A session that changes to a state not above Down
      forgets its peer and stops decaying, with the configured receive interval back in
      use; one that comes up starts to measure its traffic.  Nothing else changes. */
  predicate StateEffect(s: Session, state: SessionState, diag: Diag, now: int, rx: int, t: Session)
  {
    var changes := state != s.state || t.diag != s.diag;
    && t.state == state && t.diag == (if s.cpathDown then ConcatenatedDown else diag) && SameFlags(s, t)
    && t.timers == s.timers.(minRx := t.timers.minRx)
    && t.timers.minRx == (if changes && !state.Above() && s.decay.on then s.timers.cfgMinRx else s.timers.minRx)
    && t.rmt == (if changes && !state.Above() then Remote(Down, NoDiag, 0, 1, 0) else s.rmt)
    && t.decay.on == (s.decay.on && (!changes || state.Above())) && t.decay.minRx == s.decay.minRx
    && if changes && state.Up? && s.decay.minRx != 0 then Measures(t.decay, now, rx) else SameMeasure(s.decay, t.decay)
  }

  predicate SameFlags(s: Session, t: Session)
  {
    t.disc == s.disc && t.mult == s.mult && t.cpathDown == s.cpathDown && t.poll == s.poll && t.final == s.final
  }

  /** Traffic is counted from now on, for the decay interval or two seconds. */
  predicate Measures(d: Decay, now: int, rx: int)
  {
    d.rxCtl == 0 && d.rxPackets == rx && d.detectTime >= now + 2000 && d.detectTime >= now + d.minRx
    && (d.detectTime == now + 2000 || d.detectTime == now + d.minRx)
  }

  predicate SameMeasure(d: Decay, d': Decay) { d'.rxCtl == d.rxCtl && d'.rxPackets == d.rxPackets && d'.detectTime == d.detectTime }

  lemma ForgetsPeer(s: Session)
    ensures var t := Forget(s);
            && SameFlags(s, t) && t.state == s.state && t.diag == s.diag && t.rmt == Remote(Down, NoDiag, 0, 1, 0)
            && t.timers == s.timers.(minRx := if s.decay.on then s.timers.cfgMinRx else s.timers.minRx)
            && !t.decay.on && t.decay.minRx == s.decay.minRx && SameMeasure(s.decay, t.decay)
  {
  }

  lemma DecayMeasures(s: Session, now: int, rx: int)
    ensures var t := DecayUpdate(s, now, rx); t == s.(decay := t.decay) && Measures(t.decay, now, rx) && t.decay.on == s.decay.on && t.decay.minRx == s.decay.minRx
  {
  }

  lemma StateChanges(s: Session, state: SessionState, diag: Diag, now: int, rx: int)
    ensures StateEffect(s, state, diag, now, rx, SetState(s, state, diag, now, rx))
  {
    hide Forget, DecayUpdate, Measures;
    var d := if s.cpathDown then ConcatenatedDown else diag;
    var t := s.(state := state, diag := d);
    ForgetsPeer(t);
    DecayMeasures(if state.Above() then t else Forget(t), now, rx);
  }

  /** What a Poll comes to: one is on if it was, or if the session is above Down and no
      Final is due.  A new one asks for the configured intervals, or the decayed one, at
      once; no interval in use changes before the peer has answered. */
  predicate PollEffect(s: Session, t: Session)
  {
    && t == s.(poll := t.poll, timers := t.timers)
    && t.poll == (s.poll || (s.state.Above() && !s.final)) && (FlagsOk(s) ==> FlagsOk(t))
    && if t.poll && !s.poll then
         t.timers == s.timers.(nextTx := 0, pollMinTx := s.timers.cfgMinTx, pollMinRx := if s.decay.on then s.decay.minRx else s.timers.cfgMinRx)
       else t.timers == s.timers
  }

  lemma PollStarts(s: Session)
    ensures PollEffect(s, StartPoll(s))
  {
  }

  lemma PollFacts(s: Session)
    ensures var t := StartPoll(s);
            && t.state == s.state && t.disc == s.disc && t.timers.minTx == s.timers.minTx && t.timers.minRx == s.timers.minRx
            && t.timers.detectTime == s.timers.detectTime && t.rmt.disc == s.rmt.disc && (FlagsOk(s) ==> FlagsOk(t))
  {
  }

  /** What configuring does: the state stays, flags stay right, and an Up session
      does not slow down its sender or speed up its receiver. */
  ghost predicate Harmless(s: Session, t: Session)
  {
    && t.disc == s.disc && (t.state == s.state || t.state.Down?) && t.timers.detectTime == s.timers.detectTime
    && (FlagsOk(s) ==> FlagsOk(t)) && (t.rmt.disc == s.rmt.disc || t.rmt.disc == 0)
    && (s.state.Up? && t.state.Up? ==> t.timers.minTx <= s.timers.minTx && t.timers.minRx >= s.timers.minRx)
  }

  lemma HarmlessTwice(s: Session, t: Session, u: Session)
    requires Harmless(s, t) && Harmless(t, u)
    ensures Harmless(s, u)
  {
  }

  lemma AlikeHarmless(s: Session, t: Session)
    requires Alike(s, t) && t.state == s.state
    ensures Harmless(s, t)
  {
  }

  lemma SetMinHarmless(s: Session, v: int)
    ensures Harmless(s, SetMinTx(s, v)) && Harmless(s, SetMinRx(s, v))
  {
  }

  lemma SetDecayHarmless(s: Session, d: int, now: int, rx: int)
    ensures Harmless(s, SetDecay(s, d, now, rx))
  {
    hide DecayUpdate;
    DecayAlike(s.(decay := s.decay.(minRx := if 0 < d < s.timers.cfgMinRx then 0 else d, on := false)), now, rx);
  }

  lemma SetStateHarmless(s: Session, state: SessionState, diag: Diag, now: int, rx: int)
    requires state == s.state || state.Down?
    ensures Harmless(s, SetState(s, state, diag, now, rx))
  {
    hide SetState;
    SetStateFacts(s, state, diag, now, rx);
  }

  lemma PollHarmless(s: Session)
    ensures Harmless(s, StartPoll(s))
  {
    hide StartPoll;
    PollFacts(s);
  }

  lemma ConfigureHarmless(s: Session, cfg: Config, now: int, rx: int)
    ensures Harmless(s, Configured(s, cfg, now, rx))
  {
    hide SetMinTx, SetMinRx, SetDecay, SetState, StartPoll, Harmless, FlagsOk;
    var tx, rxMin := Max(cfg.minTx, 1), Max(cfg.minRx, 1);
    var newTx, newRx := s.timers.cfgMinTx != tx, s.timers.cfgMinRx != rxMin;
    var s1 := if newTx then SetMinTx(s, tx) else s;
    SetMinHarmless(s, tx);
    AlikeHarmless(s, s);
    var s2 := if newRx then SetMinRx(s1, rxMin) else s1;
    SetMinHarmless(s1, rxMin);
    HarmlessIf(s, s1, s2, newRx);
    var newDecay := s2.decay.minRx != cfg.decayMinRx || newRx;
    var s3 := if newDecay then SetDecay(s2, cfg.decayMinRx, now, rx) else s2;
    SetDecayHarmless(s2, cfg.decayMinRx, now, rx);
    HarmlessIf(s, s2, s3, newDecay);
    var newPath := s3.cpathDown != cfg.cpathDown;
    var moved := s3.(cpathDown := cfg.cpathDown);
    var s4 := if newPath then SetState(moved, s3.state, NoDiag, now, rx) else s3;
    AlikeHarmless(s3, moved);
    SetStateHarmless(moved, s3.state, NoDiag, now, rx);
    HarmlessTwice(s3, moved, SetState(moved, s3.state, NoDiag, now, rx));
    HarmlessIf(s, s3, s4, newPath);
    PollHarmless(s4);
    HarmlessTwice(s, s4, StartPoll(s4));
  }

  /** Whether a new configuration changes anything. */
  predicate CfgChanges(s: Session, cfg: Config)
  {
    s.timers.cfgMinTx != Max(cfg.minTx, 1) || s.timers.cfgMinRx != Max(cfg.minRx, 1) || s.decay.minRx != cfg.decayMinRx || s.cpathDown != cfg.cpathDown
  }

  /** What configuring comes to: the state stays and the configured intervals are on
      record.  An Up session neither sends more slowly nor promises to receive faster; a
      change that does neither, or comes while the session is not up, is in use at once.
      If anything changed, a Poll is on unless a Final is due or the session is not above
      Down. */
  predicate ConfigEffect(s: Session, cfg: Config, t: Session)
  {
    var tx, rx := Max(cfg.minTx, 1), Max(cfg.minRx, 1);
    && t.state == s.state && t.cpathDown == cfg.cpathDown && t.disc == s.disc && t.mult == s.mult && t.final == s.final
    && t.timers.cfgMinTx == tx && t.timers.cfgMinRx == rx
    && t.timers.minTx == (if s.timers.cfgMinTx != tx && (!s.state.Up? || (!s.poll && tx < s.timers.minTx)) then tx else s.timers.minTx)
    && (t.state.Above() ==>
          t.timers.minRx == if s.timers.cfgMinRx != rx && (!s.state.Up? || (!s.poll && rx > s.timers.minRx)) then rx else s.timers.minRx)
    && t.poll == (s.poll || (CfgChanges(s, cfg) && s.state.Above() && !s.final))
    && (t.poll && !s.poll ==> t.timers.pollMinTx == tx && t.timers.pollMinRx == (if t.decay.on then t.decay.minRx else rx) && t.timers.nextTx == 0)
    && t.decay.minRx == (if 0 < cfg.decayMinRx < rx && (s.decay.minRx != cfg.decayMinRx || s.timers.cfgMinRx != rx) then 0 else cfg.decayMinRx)
    && t.diag == (if s.cpathDown == cfg.cpathDown then s.diag else if cfg.cpathDown then ConcatenatedDown else NoDiag)
    && (s.state.Up? ==> t.timers.minTx <= s.timers.minTx && t.timers.minRx >= s.timers.minRx) && (FlagsOk(s) ==> FlagsOk(t))
  }

  lemma SetsMin(s: Session, tx: int, rx: int)
    ensures var t := if s.timers.cfgMinTx != tx then SetMinTx(s, tx) else s;
            && t == s.(timers := t.timers) && t.timers.cfgMinTx == tx && t.timers.cfgMinRx == s.timers.cfgMinRx && t.timers.minRx == s.timers.minRx
            && t.timers.minTx == if s.timers.cfgMinTx != tx && (!s.state.Up? || (!s.poll && tx < s.timers.minTx)) then tx else s.timers.minTx
    ensures var t := if s.timers.cfgMinRx != rx then SetMinRx(s, rx) else s;
            && t == s.(timers := t.timers) && t.timers.cfgMinRx == rx && t.timers.cfgMinTx == s.timers.cfgMinTx && t.timers.minTx == s.timers.minTx
            && t.timers.minRx == if s.timers.cfgMinRx != rx && (!s.state.Up? || (!s.poll && rx > s.timers.minRx)) then rx else s.timers.minRx
  {
  }

  lemma SetsDecay(s: Session, d: int, now: int, rx: int)
    ensures var t := SetDecay(s, d, now, rx);
            t == s.(decay := t.decay) && t.decay.minRx == (if 0 < d < s.timers.cfgMinRx then 0 else d) && !t.decay.on
  {
  }

  /** What configuring comes to before the path and the Poll are looked at. */
  predicate IntervalsSet(s: Session, cfg: Config, t: Session)
  {
    var tx, rx := Max(cfg.minTx, 1), Max(cfg.minRx, 1);
    && t == s.(timers := t.timers, decay := t.decay) && t.timers.cfgMinTx == tx && t.timers.cfgMinRx == rx
    && t.timers.minTx == (if s.timers.cfgMinTx != tx && (!s.state.Up? || (!s.poll && tx < s.timers.minTx)) then tx else s.timers.minTx)
    && t.timers.minRx == (if s.timers.cfgMinRx != rx && (!s.state.Up? || (!s.poll && rx > s.timers.minRx)) then rx else s.timers.minRx)
    && t.decay.minRx == (if 0 < cfg.decayMinRx < rx && (s.decay.minRx != cfg.decayMinRx || s.timers.cfgMinRx != rx) then 0 else cfg.decayMinRx)
  }

  lemma SetsIntervals(s: Session, cfg: Config, now: int, rx: int)
    ensures var tx, rxMin := Max(cfg.minTx, 1), Max(cfg.minRx, 1);
            var s1 := if s.timers.cfgMinTx != tx then SetMinTx(s, tx) else s;
            var s2 := if s.timers.cfgMinRx != rxMin then SetMinRx(s1, rxMin) else s1;
            IntervalsSet(s, cfg, if s2.decay.minRx != cfg.decayMinRx || s.timers.cfgMinRx != rxMin then SetDecay(s2, cfg.decayMinRx, now, rx) else s2)
  {
    hide SetMinTx, SetMinRx, SetDecay;
    var tx, rxMin := Max(cfg.minTx, 1), Max(cfg.minRx, 1);
    var s1 := if s.timers.cfgMinTx != tx then SetMinTx(s, tx) else s;
    SetsMin(s, tx, rxMin);
    var s2 := if s.timers.cfgMinRx != rxMin then SetMinRx(s1, rxMin) else s1;
    SetsMin(s1, tx, rxMin);
    SetsDecay(s2, cfg.decayMinRx, now, rx);
  }

  /** The path is put on record, and a Poll started if anything changed. */
  lemma PathAndPoll(s: Session, cfg: Config, t: Session, now: int, rx: int)
    requires IntervalsSet(s, cfg, t)
    ensures var u := if t.cpathDown != cfg.cpathDown then SetState(t.(cpathDown := cfg.cpathDown), t.state, NoDiag, now, rx) else t;
            ConfigEffect(s, cfg, if CfgChanges(s, cfg) then StartPoll(u) else u)
  {
    hide SetState, StartPoll, Measures;
    StateChanges(t.(cpathDown := cfg.cpathDown), t.state, NoDiag, now, rx);
    var u := if t.cpathDown != cfg.cpathDown then SetState(t.(cpathDown := cfg.cpathDown), t.state, NoDiag, now, rx) else t;
    PollStarts(u);
  }

  lemma ConfigureRecords(s: Session, cfg: Config, now: int, rx: int)
    ensures ConfigEffect(s, cfg, Configured(s, cfg, now, rx))
  {
    hide SetMinTx, SetMinRx, SetDecay, SetState, StartPoll, ConfigEffect, IntervalsSet;
    var tx, rxMin := Max(cfg.minTx, 1), Max(cfg.minRx, 1);
    var s1 := if s.timers.cfgMinTx != tx then SetMinTx(s, tx) else s;
    var s2 := if s.timers.cfgMinRx != rxMin then SetMinRx(s1, rxMin) else s1;
    SetsMin(s, tx, rxMin);
    SetsMin(s1, tx, rxMin);
    SetsIntervals(s, cfg, now, rx);
    var s3 := if s2.decay.minRx != cfg.decayMinRx || s.timers.cfgMinRx != rxMin then SetDecay(s2, cfg.decayMinRx, now, rx) else s2;
    SetsDecay(s2, cfg.decayMinRx, now, rx);
    PathAndPoll(s, cfg, s3, now, rx);
  }

  lemma HarmlessIf(s: Session, t: Session, u: Session, c: bool)
    requires Harmless(s, t) && (c ==> Harmless(t, u)) && (!c ==> u == t)
    ensures Harmless(s, u)
  {
    if c { HarmlessTwice(s, t, u); }
  }

  lemma RunHarmless(s: Session, now: int, rx: int)
    ensures Harmless(s, Ran(s, now, rx))
    ensures Ran(s, now, rx).state.Above() ==> now < s.timers.detectTime
  {
    hide SetState, DecayUpdate, StartPoll, Harmless, FlagsOk;
    var expired := s.state.Above() && now >= s.timers.detectTime;
    var s1 := if expired then SetState(s, Down, Expired, now, rx) else s;
    SetStateHarmless(s, Down, Expired, now, rx);
    SetStateFacts(s, Down, Expired, now, rx);
    AlikeHarmless(s, s);
    var decays := s1.state.Up? && s1.decay.minRx > 0 && now >= s1.decay.detectTime;
    var d := s1.(decay := s1.decay.(on := rx - s1.decay.rxPackets <= 2 * Max(s1.decay.rxCtl, 1)));
    var s2 := if decays then DecayUpdate(d, now, rx) else s1;
    AlikeHarmless(s1, d);
    DecayAlike(d, now, rx);
    AlikeHarmless(d, DecayUpdate(d, now, rx));
    HarmlessTwice(s1, d, DecayUpdate(d, now, rx));
    HarmlessIf(s, s1, s2, decays);
    PollHarmless(s2);
    PollFacts(s2);
    HarmlessTwice(s, s2, StartPoll(s2));
  }

  /** What a run comes to.  A session above Down whose detection time is over goes down
      and forgets its peer.  Otherwise state, peer and intervals in use stay; when the
      measuring time of an Up session is over, decay is on exactly if little came in but
      control packets; and a Poll is started if the intervals in use are not those asked
      for or the decay was switched. */
  predicate RunEffect(s: Session, now: int, rx: int, t: Session)
  {
    if s.state.Above() && now >= s.timers.detectTime then
      t.state.Down? && t.diag == (if s.cpathDown then ConcatenatedDown else Expired) && SameFlags(s, t)
      && t.rmt == Remote(Down, NoDiag, 0, 1, 0) && !t.decay.on
      && t.timers == s.timers.(minRx := if s.decay.on then s.timers.cfgMinRx else s.timers.minRx)
    else
      var due := s.state.Up? && s.decay.minRx > 0 && now >= s.decay.detectTime;
      var asks := s.timers.minTx != s.timers.cfgMinTx || t.decay.on != s.decay.on
                  || (s.timers.minRx != s.timers.cfgMinRx && s.timers.minRx != s.decay.minRx);
      && t == s.(poll := t.poll, timers := t.timers, decay := t.decay) && t.decay.minRx == s.decay.minRx
      && t.timers.minTx == s.timers.minTx && t.timers.minRx == s.timers.minRx && t.timers.detectTime == s.timers.detectTime
      && (if due then t.decay.on == (rx - s.decay.rxPackets <= 2 * Max(s.decay.rxCtl, 1)) && Measures(t.decay, now, rx) else t.decay == s.decay)
      && t.poll == (s.poll || (asks && s.state.Above() && !s.final))
      && (t.poll && !s.poll ==> t.timers.pollMinTx == s.timers.cfgMinTx && t.timers.nextTx == 0
                                && t.timers.pollMinRx == if t.decay.on then s.decay.minRx else s.timers.cfgMinRx)
  }

  lemma RunDoes(s: Session, now: int, rx: int)
    ensures RunEffect(s, now, rx, Ran(s, now, rx))
  {
    hide SetState, DecayUpdate, StartPoll, Measures;
    if s.state.Above() && now >= s.timers.detectTime {
      StateChanges(s, Down, Expired, now, rx);
      PollStarts(SetState(s, Down, Expired, now, rx));
    } else {
      var d := s.(decay := s.decay.(on := rx - s.decay.rxPackets <= 2 * Max(s.decay.rxCtl, 1)));
      DecayMeasures(d, now, rx);
      PollStarts(DecayUpdate(d, now, rx));
      PollStarts(s);
    }
  }

  /** What is learned from a packet, before the state changes. */
  lemma LearnFacts(s: Session, m: Msg, now: int, jitter: nat)
    ensures var t := Learn(s, m, now, jitter);
            && t.state == s.state && t.disc == s.disc && t.mult == s.mult && t.rmt.disc == m.myDisc
            && t.timers.detectTime == now + RxInterval(t) * t.mult && (FlagsOk(s) ==> FlagsOk(t))
            && (if m.final && s.poll then t.timers.minTx == s.timers.pollMinTx && t.timers.minRx == s.timers.pollMinRx && !t.poll
                else t.timers.minTx == s.timers.minTx && t.timers.minRx == s.timers.minRx)
  {
    hide NextTx;
  }

  lemma ReactFacts(s: Session, rmt: SessionState, now: int, rx: int)
    ensures var t := React(s, rmt, now, rx);
            && t.disc == s.disc && t.poll == s.poll && t.final == s.final && t.timers.minTx == s.timers.minTx && t.timers.detectTime == s.timers.detectTime
            && (t.state.Above() ==> t.timers.minRx == s.timers.minRx) && (t.rmt.disc == s.rmt.disc || t.rmt.disc == 0)
            && (s.state.Up? ==> !t.state.Init?)
            && (!s.state.Up? && t.state.Up? ==> rmt.Init? || (s.state.Init? && rmt.Up?))
  {
    hide SetState;
    SetStateFacts(s, Down, RemoteDown, now, rx);
    SetStateFacts(s, Init, s.diag, now, rx);
    SetStateFacts(s, Up, s.diag, now, rx);
  }

  lemma FlagsStay(s: Session, step: Step)
    requires FlagsOk(s)
    ensures FlagsOk(Next(s, step))
  {
    hide Configured, Ran, Learn, React, NextTx, Acceptable;
    match step
    case Configure(cfg, now, rx) => ConfigureHarmless(s, cfg, now, rx);
    case Run(now, rx) => RunHarmless(s, now, rx);
    case Send(now, jitter) =>
    case Receive(ttl, m, now, jitter, rx) =>
      var t := Counted(s);
      LearnFacts(t, m, now, jitter);
      ReactFacts(Learn(t, m, now, jitter), m.state, now, rx);
  }

  /** A Final is accepted that answers an outstanding Poll. */
  predicate PollAnswered(s: Session, step: Step)
  {
    step.Receive? && Acceptable(s, step.ttl, step.m) && step.m.final && s.poll
  }

  /** While a session stays up, it asks for no slower transmission and promises no
      faster reception before the peer has agreed (section 6.8.3). */
  lemma NoUnagreedChange(s: Session, step: Step)
    requires s.state.Up? && Next(s, step).state.Up? && !PollAnswered(s, step)
    ensures Next(s, step).timers.minTx <= s.timers.minTx && Next(s, step).timers.minRx >= s.timers.minRx
  {
    hide Configured, Ran, Learn, React, NextTx, Acceptable, FlagsOk;
    match step
    case Configure(cfg, now, rx) => ConfigureHarmless(s, cfg, now, rx);
    case Run(now, rx) => RunHarmless(s, now, rx);
    case Send(now, jitter) =>
    case Receive(ttl, m, now, jitter, rx) =>
      var t := Counted(s);
      LearnFacts(t, m, now, jitter);
      ReactFacts(Learn(t, m, now, jitter), m.state, now, rx);
  }

  /** An answered Poll puts the polled intervals into use. */
  lemma AgreedChange(s: Session, step: Step)
    requires s.state.Up? && Next(s, step).state.Up? && PollAnswered(s, step)
    ensures Next(s, step).timers.minTx == s.timers.pollMinTx && Next(s, step).timers.minRx == s.timers.pollMinRx && !Next(s, step).poll
  {
    hide Configured, Ran, Learn, React, NextTx, Acceptable, FlagsOk;
    match step
    case Configure(cfg, now, rx) => ConfigureHarmless(s, cfg, now, rx);
    case Run(now, rx) => RunHarmless(s, now, rx);
    case Send(now, jitter) =>
    case Receive(ttl, m, now, jitter, rx) =>
      var t := Counted(s);
      LearnFacts(t, m, now, jitter);
      ReactFacts(Learn(t, m, now, jitter), m.state, now, rx);
  }

  /** No step goes from Up to Init, and only an accepted packet leads to Up: from
      Down one that says Init, from Init one that says Init or Up. */
  lemma Transitions(s: Session, step: Step)
    ensures s.state.Up? ==> !Next(s, step).state.Init?
    ensures !s.state.Up? && Next(s, step).state.Up? ==>
              step.Receive? && Acceptable(s, step.ttl, step.m) && step.m.yourDisc == s.disc
              && (step.m.state.Init? || (s.state.Init? && step.m.state.Up?))
  {
    hide Configured, Ran, Learn, React, NextTx, FlagsOk;
    match step
    case Configure(cfg, now, rx) => ConfigureHarmless(s, cfg, now, rx);
    case Run(now, rx) => RunHarmless(s, now, rx);
    case Send(now, jitter) =>
    case Receive(ttl, m, now, jitter, rx) =>
      var t := Counted(s);
      LearnFacts(t, m, now, jitter);
      ReactFacts(Learn(t, m, now, jitter), m.state, now, rx);
  }

  /** What the peer said, with intervals of at least a millisecond. */
  function Told(m: Msg): Remote { Remote(m.state, m.diag, m.myDisc, Max(m.minRx / 1000, 1), Max(m.minTx / 1000, 1)) }

  /** The state machine of section 6.8.6, case by case: the state after a packet that was
      accepted in state `own` and says `rcv`. */
  predicate GoesTo(own: SessionState, rcv: SessionState, next: SessionState)
  {
    && (own.AdminDown? ==> next.AdminDown?)
    && (!own.AdminDown? && rcv.AdminDown? ==> next.Down?)
    && (own.Down? && rcv.Down? ==> next.Init?)
    && (own.Down? && rcv.Init? ==> next.Up?)
    && (own.Down? && rcv.Up? ==> next.Down?)
    && (own.Init? && rcv.Down? ==> next.Init?)
    && (own.Init? && (rcv.Init? || rcv.Up?) ==> next.Up?)
    && (own.Up? && rcv.Down? ==> next.Down?)
    && (own.Up? && (rcv.Init? || rcv.Up?) ==> next.Up?)
  }

  /** What an accepted packet comes to: the state machine moves; a Poll is to be answered
      with a Final and ends one of its own, and a Final that answers one puts the polled
      intervals into use; the session knows what the peer said, unless
      it goes down; it waits for the next packet for its multiplier times the slower of
      what it can receive and the peer wants to send. */
  predicate AcceptEffect(s: Session, m: Msg, now: int, jitter: nat, t: Session)
  {
    var goesDown := t.state.Down? && !s.state.Down?;
    && GoesTo(s.state, m.state, t.state)
    && (goesDown ==> t.diag == if s.cpathDown then ConcatenatedDown else RemoteDown)
    && (!goesDown ==> t.diag == if s.cpathDown && t.state != s.state then ConcatenatedDown else s.diag)
    && t.rmt == (if goesDown then Remote(Down, NoDiag, 0, 1, 0) else Told(m))
    && t.final == (m.poll || s.final) && t.poll == (s.poll && !m.poll && !m.final)
    && (if m.final && s.poll then InUse(s, m, now, jitter, goesDown, t, s.timers.pollMinTx, s.timers.pollMinRx)
        else InUse(s, m, now, jitter, goesDown, t, s.timers.minTx, s.timers.minRx))
    && t.decay.minRx == s.decay.minRx && t.decay.on == (s.decay.on && !goesDown)
    && (if t.state.Up? && !s.state.Up? && s.decay.minRx != 0 then t.decay.rxCtl == 0 else t.decay.rxCtl == s.decay.rxCtl + 1)
  }

  predicate InUse(s: Session, m: Msg, now: int, jitter: nat, goesDown: bool, t: Session, minTx: int, minRx: int)
  {
    && t.timers == s.timers.(minTx := minTx, minRx := if goesDown && s.decay.on then s.timers.cfgMinRx else minRx,
                             detectTime := now + s.mult * Max(minRx, Told(m).minTx), nextTx := t.timers.nextTx)
    && if s.rmt.minRx == Told(m).minRx || s.timers.nextTx == 0 then t.timers.nextTx == s.timers.nextTx
       else IsNextTx(s.timers.lastTx, Max(if s.state.Up? then minTx else Max(minTx, 1000), Told(m).minRx), jitter, t.timers.nextTx)
  }

  /** The next transmission is due after the interval, less `jitter` percent of it. */
  predicate IsNextTx(last: int, interval: int, jitter: nat, next: int)
  {
    next == last + interval - interval * jitter / 100
  }

  /** The packets that section 6.8.6 has discarded, one reason after the other. */
  predicate Discarded(s: Session, ttl: nat, m: Msg)
  {
    || ttl != 255 || !m.wellFormed || m.mult == 0 || m.multipoint || m.myDisc == 0
    || (m.yourDisc != 0 && m.yourDisc != s.disc)
    || (m.yourDisc == 0 && (m.state.Init? || m.state.Up?))
  }

  /** What a packet comes to.  One that is discarded is only counted. */
  predicate PacketEffect(s: Session, ttl: nat, m: Msg, now: int, jitter: nat, t: Session)
  {
    && t.disc == s.disc && t.mult == s.mult && t.cpathDown == s.cpathDown && (FlagsOk(s) ==> FlagsOk(t))
    && if Discarded(s, ttl, m) then t == s.(decay := s.decay.(rxCtl := s.decay.rxCtl + 1)) else AcceptEffect(s, m, now, jitter, t)
  }

  lemma Learns(s: Session, m: Msg, now: int, jitter: nat)
    ensures var t := Learn(s, m, now, jitter);
            && t == s.(poll := t.poll, final := t.final, rmt := Told(m), timers := t.timers)
            && t.final == (m.poll || s.final) && t.poll == (s.poll && !m.poll && !m.final) && (FlagsOk(s) ==> FlagsOk(t))
            && (if m.final && s.poll then t.timers.minTx == s.timers.pollMinTx && t.timers.minRx == s.timers.pollMinRx
                else t.timers.minTx == s.timers.minTx && t.timers.minRx == s.timers.minRx)
            && t.timers == s.timers.(minTx := t.timers.minTx, minRx := t.timers.minRx, nextTx := t.timers.nextTx,
                                     detectTime := now + s.mult * Max(t.timers.minRx, Told(m).minTx))
            && (if s.rmt.minRx == Told(m).minRx || s.timers.nextTx == 0 then t.timers.nextTx == s.timers.nextTx
                else IsNextTx(s.timers.lastTx, Max(if s.state.Up? then t.timers.minTx else Max(t.timers.minTx, 1000), Told(m).minRx), jitter, t.timers.nextTx))
  {
  }

  lemma ChecksAre(s: Session, ttl: nat, m: Msg)
    ensures Acceptable(s, ttl, m) <==> !Discarded(s, ttl, m)
  {
  }

  /** The state machine by itself. */
  lemma Reacts(s: Session, rmt: SessionState, now: int, rx: int)
    ensures var t := React(s, rmt, now, rx);
            var goesDown := t.state.Down? && !s.state.Down?;
            && GoesTo(s.state, rmt, t.state) && SameFlags(s, t)
            && t.diag == (if goesDown || t.state != s.state then (if s.cpathDown then ConcatenatedDown else if goesDown then RemoteDown else s.diag)
                          else s.diag)
            && t.rmt == (if goesDown then Remote(Down, NoDiag, 0, 1, 0) else s.rmt)
            && t.timers == s.timers.(minRx := if goesDown && s.decay.on then s.timers.cfgMinRx else s.timers.minRx)
            && t.decay.minRx == s.decay.minRx && t.decay.on == (s.decay.on && !goesDown)
            && (t.state.Up? && !s.state.Up? && s.decay.minRx != 0 ==> t.decay.rxCtl == 0)
            && (!(t.state.Up? && !s.state.Up? && s.decay.minRx != 0) ==> SameMeasure(s.decay, t.decay))
  {
    hide SetState;
    StateChanges(s, Down, RemoteDown, now, rx);
    StateChanges(s, Init, s.diag, now, rx);
    StateChanges(s, Up, s.diag, now, rx);
  }

  lemma ProcessedFacts(s: Session, ttl: nat, m: Msg, now: int, jitter: nat, rx: int)
    ensures PacketEffect(s, ttl, m, now, jitter, Processed(s, ttl, m, now, jitter, rx))
  {
    hide Learn, React, Told, GoesTo, IsNextTx, Acceptable, Discarded;
    var c := Counted(s);
    ChecksAre(s, ttl, m);
    Learns(c, m, now, jitter);
    Reacts(Learn(c, m, now, jitter), m.state, now, rx);
  }

  /** What sending comes to: the packet says the state, both discriminators, the flags and
      the polled intervals or those in use; a Final has been sent; and the next packet is
      due within the interval, at 75 percent of it or later. */
  predicate SendEffect(s: Session, now: int, jitter: nat, m: Msg, t: Session)
  {
    && m.wellFormed && !m.multipoint && m.mult == s.mult && m.state == s.state && m.diag == s.diag && m.poll == s.poll && m.final == s.final
    && m.myDisc == s.disc && m.yourDisc == s.rmt.disc && (FlagsOk(s) ==> !(m.poll && m.final))
    && (if s.poll then m.minTx == 1000 * s.timers.pollMinTx && m.minRx == 1000 * s.timers.pollMinRx
        else m.minTx == 1000 * (if s.state.Up? then s.timers.minTx else Max(s.timers.minTx, 1000)) && m.minRx == 1000 * s.timers.minRx)
    && t == s.(final := false, timers := s.timers.(lastTx := now, nextTx := t.timers.nextTx))
    && (jitter < 26 && TxInterval(s) >= 0 ==> 3 * TxInterval(s) <= 4 * (t.timers.nextTx - now) <= 4 * TxInterval(s))
  }

  lemma SendDoes(s: Session, now: int, jitter: nat)
    ensures SendEffect(s, now, jitter, Message(s), AfterSend(s, now, jitter))
  {
    hide NextTx;
    var t := s.(final := false, timers := s.timers.(lastTx := now));
    if jitter < 26 && TxInterval(s) >= 0 { JitterBounds(t, jitter); }
  }

  /** Peers that know each other's intervals agree on how often packets are due: a packet
      that arrives when sent leaves the receiver as many intervals to wait as its
      multiplier says, and the sender's next one is due within the first.  So a session
      expires only if that many packets in a row are lost or late. */
  lemma NextIsInTime(a: Session, b: Session, now: int, jitter: nat, jitter': nat)
    requires jitter < 26 && !a.poll && a.rmt.minRx == b.timers.minRx >= 1 && a.timers.minTx >= 1 && b.mult >= 1
    ensures var a', b' := AfterSend(a, now, jitter), Learn(b, Message(a), now, jitter');
            !(a.final && b.poll) ==> b'.timers.detectTime == now + b.mult * TxInterval(a) && a'.timers.nextTx <= now + TxInterval(a)
                                     && a'.timers.nextTx + (b.mult - 1) * TxInterval(a) <= b'.timers.detectTime
  {
    hide Learn, NextTx, AfterSend;
    SendDoes(a, now, jitter);
    Learns(b, Message(a), now, jitter');
    assert Told(Message(a)).minTx == MinTx(a);
    if !(a.final && b.poll) {
      assert Max(b.timers.minRx, MinTx(a)) == TxInterval(a);
      Distribute(b.mult, TxInterval(a));
    }
  }

  lemma Distribute(m: nat, i: int)
    ensures (m - 1) * i == m * i - i
  {
  }

  lemma {:induction false} RunFlags(sessions: seq<Session>, steps: seq<Step>)
    requires |sessions| == |steps| + 1 && FlagsOk(sessions[0])
    requires forall k :: 0 <= k < |steps| ==> sessions[k + 1] == Next(sessions[k], steps[k])
    ensures forall k :: 0 <= k < |sessions| ==> FlagsOk(sessions[k])
    decreases |steps|
  {
    if steps != [] {
      var n := |steps| - 1;
      RunFlags(sessions[..n + 1], steps[..n]);
      assert sessions[..n + 1][n] == sessions[n];
      FlagsStay(sessions[n], steps[n]);
      forall k | 0 <= k < |sessions| ensures FlagsOk(sessions[k]) {
        if k <= n { assert sessions[..n + 1][k] == sessions[k]; }
      }
    }
  }

  // ---- Detection ----

  /** The last packet accepted, if any: when, and with which detection time. */
  datatype Heard = Never | At(time: int, detection: int)

  function HeardNext(s: Session, heard: Heard, step: Step): Heard
  {
    if step.Receive? && Acceptable(s, step.ttl, step.m) then
      var t := Learn(Counted(s), step.m, step.now, step.jitter);
      At(step.now, RxInterval(t) * t.mult)
    else heard
  }

  /** A session above Down has heard from its peer, and knows until when that
      counts. */
  predicate DetectOk(s: Session, heard: Heard)
  {
    s.state.Above() ==> heard.At? && s.timers.detectTime == heard.time + heard.detection
  }

  lemma DetectStays(s: Session, heard: Heard, step: Step)
    requires DetectOk(s, heard)
    ensures DetectOk(Next(s, step), HeardNext(s, heard, step))
  {
    hide Configured, RxInterval, Ran, Learn, React, NextTx, Acceptable, FlagsOk;
    match step
    case Configure(cfg, now, rx) => ConfigureHarmless(s, cfg, now, rx);
    case Run(now, rx) => RunHarmless(s, now, rx);
    case Send(now, jitter) =>
    case Receive(ttl, m, now, jitter, rx) =>
      var t := Counted(s);
      LearnFacts(t, m, now, jitter);
      ReactFacts(Learn(t, m, now, jitter), m.state, now, rx);
  }

  /** A session that is above Down after a run at some time accepted a packet less
      than the detection time before, as computed when it came in. */
  lemma AliveMeansHeard(s: Session, heard: Heard, now: int, rx: int)
    requires DetectOk(s, heard) && Ran(s, now, rx).state.Above()
    ensures heard.At? && now < heard.time + heard.detection
  {
    hide Ran;
    RunHarmless(s, now, rx);
  }

  lemma {:induction false} RunDetects(sessions: seq<Session>, heard: seq<Heard>, steps: seq<Step>)
    requires |sessions| == |heard| == |steps| + 1 && !sessions[0].state.Above() && heard[0].Never?
    requires forall k :: 0 <= k < |steps| ==>
               sessions[k + 1] == Next(sessions[k], steps[k]) && heard[k + 1] == HeardNext(sessions[k], heard[k], steps[k])
    ensures DetectOk(sessions[|steps|], heard[|steps|])
    ensures steps != [] && steps[|steps| - 1].Run? && sessions[|steps|].state.Above() ==>
              heard[|steps|].At? && steps[|steps| - 1].now < heard[|steps|].time + heard[|steps|].detection
    decreases |steps|
  {
    if steps != [] {
      var n := |steps| - 1;
      RunDetects(sessions[..n + 1], heard[..n + 1], steps[..n]);
      DetectStays(sessions[n], heard[n], steps[n]);
      if steps[n].Run? && sessions[n + 1].state.Above() { AliveMeansHeard(sessions[n], heard[n], steps[n].now, steps[n].rx); }
    }
  }
}
