/** Validation of an action list, which tracks the EtherType that the packet will
    have at each action, against what the actions then do to packets. */
module ActionValidator {
  const ETH_P_IP := 0x0800
  const ETH_P_ARP := 0x0806
  const ETH_P_RARP := 0x8035
  const ETH_P_8021Q := 0x8100
  const ETH_P_IPV6 := 0x86DD
  const ETH_P_MPLS_UC := 0x8847
  const ETH_P_MPLS_MC := 0x8848
  const IPPROTO_TCP := 6
  const IPPROTO_UDP := 17
  const IPPROTO_SCTP := 132
  const VLAN_TAG_PRESENT := 0x1000
  const DP_MAX_PORTS := 65535
  const SAMPLE_ACTION_DEPTH := 3

  /** The part of a masked flow key that validation looks at. */
  datatype FlowKey = FlowKey(ethType: nat, tci: nat, ipProto: nat, ipFrag: nat)

  datatype Ip4 = Ip4(proto: nat, frag: nat)
  datatype Ip6 = Ip6(flowLabel: nat, proto: nat, frag: nat)

  /** The key attribute of a set action.  `mask4` and `mask6` are the masks that
      follow the values when the action is masked; a tunnel key has been parsed
      with success or not. */
  datatype SetKey =
    | Priority | SkbMark | CtMark | CtLabels | Ethernet
    | Tunnel(parsed: bool)
    | IPv4(key4: Ip4, mask4: Ip4)
    | IPv6(key6: Ip6, mask6: Ip6)
    | Tcp | Udp | Sctp | Mpls
    | NotSettable

  /** An action attribute.  `Malformed` has an unknown type or a wrong length;
      `wellFormed` says that the nested attributes have the right lengths, and of
      a masked set that no bit outside the mask is set. */
  datatype Action =
    | Malformed
    | Output(port: nat)
    | Userspace(pid: nat)
    | Hash(l4: bool)
    | PushVlan(tpid: nat, tci: nat)
    | PopVlan
    | Recirc(id: nat)
    | PushMpls(pushType: nat, lse: nat)
    | PopMpls(popType: nat)
    | Set(masked: bool, wellFormed: bool, key: SetKey)
    | Sample(sampleFormed: bool, actions: seq<Action>)
    | Ct(accepted: bool)

  datatype Verdict = Accepted | EInval | EOverflow

  predicate IsMpls(t: nat) { t == ETH_P_MPLS_UC || t == ETH_P_MPLS_MC }

  predicate TagPresent(tci: nat) { tci / VLAN_TAG_PRESENT % 2 == 1 }

  predicate IsIp(t: nat) { t == ETH_P_IP || t == ETH_P_IPV6 }

  /** A flow label is 20 bits. */
  predicate LabelFits(flowLabel: nat) { flowLabel < 0x10_0000 }

  /** validate_set. */
  predicate SetAllowed(masked: bool, wellFormed: bool, key: SetKey, flow: FlowKey, ethType: nat)
  {
    wellFormed &&
    match key
    case Priority => true
    case SkbMark => true
    case CtMark => true
    case CtLabels => true
    case Ethernet => true
    case Tunnel(parsed) => !IsMpls(ethType) && !masked && parsed
    case IPv4(k, m) =>
      ethType == ETH_P_IP && (if masked then m.proto == 0 && m.frag == 0 else k.proto == flow.ipProto && k.frag == flow.ipFrag)
    case IPv6(k, m) =>
      ethType == ETH_P_IPV6
      && (if masked then m.proto == 0 && m.frag == 0 && LabelFits(m.flowLabel) else k.proto == flow.ipProto && k.frag == flow.ipFrag)
      && LabelFits(k.flowLabel)
    case Tcp => IsIp(ethType) && flow.ipProto == IPPROTO_TCP
    case Udp => IsIp(ethType) && flow.ipProto == IPPROTO_UDP
    case Sctp => IsIp(ethType) && flow.ipProto == IPPROTO_SCTP
    case Mpls => IsMpls(ethType)
    case NotSettable => false
  }

  predicate PushAllowed(pushType: nat, ethType: nat, tci: nat)
  {
    IsMpls(pushType) && !TagPresent(tci)
    && (IsIp(ethType) || ethType == ETH_P_ARP || ethType == ETH_P_RARP || IsMpls(ethType))
  }

  /** Whether the action by itself is acceptable; a sample's list is not looked
      at. */
  predicate Allowed(a: Action, flow: FlowKey, ethType: nat, tci: nat)
  {
    match a
    case Malformed => false
    case Output(port) => port < DP_MAX_PORTS
    case Userspace(pid) => pid != 0
    case Hash(l4) => l4
    case PushVlan(tpid, t) => tpid == ETH_P_8021Q && TagPresent(t)
    case PopVlan => true
    case Recirc(_) => true
    case PushMpls(t, _) => PushAllowed(t, ethType, tci)
    case PopMpls(_) => !TagPresent(tci) && IsMpls(ethType)
    case Set(masked, wellFormed, key) => SetAllowed(masked, wellFormed, key, flow, ethType)
    case Sample(formed, _) => formed
    case Ct(ok) => ok
  }

  /** The EtherType tracked after the action; zero means unknown. */
  function TypeAfter(a: Action, ethType: nat): nat
  {
    match a
    case PushMpls(t, _) => t
    case PopMpls(_) => 0
    case _ => ethType
  }

  function TciAfter(a: Action, tci: nat): nat
  {
    match a
    case PushVlan(_, t) => t
    case PopVlan => 0
    case _ => tci
  }

  /** What validation of a list comes to. */
  predicate Accepts(acts: seq<Action>, flow: FlowKey, depth: nat, ethType: nat, tci: nat)
    decreases acts, 1
  {
    depth < SAMPLE_ACTION_DEPTH && AcceptsRest(acts, flow, depth, ethType, tci)
  }

  predicate AcceptsRest(acts: seq<Action>, flow: FlowKey, depth: nat, ethType: nat, tci: nat)
    decreases acts, 0
  {
    acts == [] ||
    (var a := acts[0];
     && Allowed(a, flow, ethType, tci)
     && (a.Sample? ==> Accepts(a.actions, flow, depth + 1, ethType, tci))
     && AcceptsRest(acts[1..], flow, depth, TypeAfter(a, ethType), TciAfter(a, tci)))
  }

  // ---- The lists that are accepted, place by place ----

  /** The EtherType at place `i` of a list: what the last MPLS push before it left, or
      unknown after a pop, or that at the start. */
  function TypeAt(acts: seq<Action>, i: nat, ethType: nat): nat
    requires i <= |acts|
  {
    if i == 0 then ethType
    else if acts[i - 1].PushMpls? then acts[i - 1].pushType
    else if acts[i - 1].PopMpls? then 0
    else TypeAt(acts, i - 1, ethType)
  }

  /** The VLAN tag at place `i`, zero after a pop. */
  function TagAt(acts: seq<Action>, i: nat, tci: nat): nat
    requires i <= |acts|
  {
    if i == 0 then tci
    else if acts[i - 1].PushVlan? then acts[i - 1].tci
    else if acts[i - 1].PopVlan? then 0
    else TagAt(acts, i - 1, tci)
  }

  /** The attribute and what is nested in it have the right form. */
  predicate Formed(a: Action)
  {
    && !a.Malformed? && (a.Set? ==> a.wellFormed && !a.key.NotSettable? && (a.key.Tunnel? ==> a.key.parsed && !a.masked))
    && (a.Sample? ==> a.sampleFormed) && (a.Ct? ==> a.accepted) && (a.Hash? ==> a.l4)
  }

  /** Ports, Netlink ids, tags and pushed types are ones there can be. */
  predicate InRange(a: Action)
  {
    && (a.Output? ==> a.port < DP_MAX_PORTS) && (a.Userspace? ==> a.pid > 0)
    && (a.PushVlan? ==> a.tpid == ETH_P_8021Q && TagPresent(a.tci))
    && (a.PushMpls? ==> a.pushType == ETH_P_MPLS_UC || a.pushType == ETH_P_MPLS_MC)
    && (a.Set? && a.key.IPv6? ==> a.key.key6.flowLabel < 0x10_0000 && (a.masked ==> a.key.mask6.flowLabel < 0x10_0000))
  }

  /** The EtherType promises the header that the action changes. */
  predicate HeaderThere(a: Action, flow: FlowKey, ethType: nat)
  {
    var mpls := ethType == ETH_P_MPLS_UC || ethType == ETH_P_MPLS_MC;
    var ip := ethType == ETH_P_IP || ethType == ETH_P_IPV6;
    && (a.PopMpls? ==> mpls)
    && (a.PushMpls? ==> mpls || ip || ethType == ETH_P_ARP || ethType == ETH_P_RARP)
    && (a.Set? ==>
          && (a.key.Mpls? ==> mpls) && (a.key.Tunnel? ==> !mpls)
          && (a.key.IPv4? ==> ethType == ETH_P_IP) && (a.key.IPv6? ==> ethType == ETH_P_IPV6)
          && (a.key.Tcp? ==> ip && flow.ipProto == IPPROTO_TCP) && (a.key.Udp? ==> ip && flow.ipProto == IPPROTO_UDP)
          && (a.key.Sctp? ==> ip && flow.ipProto == IPPROTO_SCTP))
  }

  /** A set of an IP header leaves protocol and fragment as the flow has them. */
  predicate LeavesProto(a: Action, flow: FlowKey)
  {
    a.Set? ==>
      && (a.key.IPv4? && a.masked ==> a.key.mask4 == Ip4(0, 0))
      && (a.key.IPv4? && !a.masked ==> a.key.key4 == Ip4(flow.ipProto, flow.ipFrag))
      && (a.key.IPv6? && a.masked ==> a.key.mask6.proto == 0 && a.key.mask6.frag == 0)
      && (a.key.IPv6? && !a.masked ==> a.key.key6.proto == flow.ipProto && a.key.key6.frag == flow.ipFrag)
  }

  /** Everything that is asked of an action at a place with this EtherType and tag. */
  predicate Fits(a: Action, flow: FlowKey, ethType: nat, tci: nat)
  {
    && Formed(a) && InRange(a) && HeaderThere(a, flow, ethType) && LeavesProto(a, flow)
    && (a.PushMpls? || a.PopMpls? ==> !TagPresent(tci))
  }

  /** Every action of the list fits its place, and so do those of the samples in it. */
  predicate AllFit(acts: seq<Action>, flow: FlowKey, ethType: nat, tci: nat)
  {
    forall i :: 0 <= i < |acts| ==>
      && Fits(acts[i], flow, TypeAt(acts, i, ethType), TagAt(acts, i, tci))
      && (acts[i].Sample? ==> AllFit(acts[i].actions, flow, TypeAt(acts, i, ethType), TagAt(acts, i, tci)))
  }

  /** Samples nest at most `n` deep. */
  predicate NestsWithin(acts: seq<Action>, n: nat)
  {
    forall a :: a in acts && a.Sample? ==> n > 0 && NestsWithin(a.actions, n - 1)
  }

  /** The checks of one action come to that. */
  lemma AllowedFits(a: Action, flow: FlowKey, ethType: nat, tci: nat)
    ensures Allowed(a, flow, ethType, tci) <==> Fits(a, flow, ethType, tci)
  {
  }

  lemma {:induction false} TrackedAt(acts: seq<Action>, i: nat, ethType: nat, tci: nat)
    requires 0 < i <= |acts|
    ensures TypeAt(acts, i, ethType) == TypeAt(acts[1..], i - 1, TypeAfter(acts[0], ethType))
    ensures TagAt(acts, i, tci) == TagAt(acts[1..], i - 1, TciAfter(acts[0], tci))
  {
    if i > 1 { TrackedAt(acts, i - 1, ethType, tci); }
  }

  lemma FitsRest(acts: seq<Action>, flow: FlowKey, ethType: nat, tci: nat)
    requires acts != []
    ensures AllFit(acts, flow, ethType, tci) <==>
            && Fits(acts[0], flow, ethType, tci) && (acts[0].Sample? ==> AllFit(acts[0].actions, flow, ethType, tci))
            && AllFit(acts[1..], flow, TypeAfter(acts[0], ethType), TciAfter(acts[0], tci))
  {
    hide Fits, TypeAfter, TciAfter;
    var rest, t, tag := acts[1..], TypeAfter(acts[0], ethType), TciAfter(acts[0], tci);
    forall i | 0 < i <= |acts| ensures TypeAt(acts, i, ethType) == TypeAt(rest, i - 1, t) && TagAt(acts, i, tci) == TagAt(rest, i - 1, tag) {
      TrackedAt(acts, i, ethType, tci);
    }
    assert forall i :: 0 <= i < |rest| ==> rest[i] == acts[i + 1];
    assert forall i :: 0 < i < |acts| ==> acts[i] == rest[i - 1];
  }

  lemma NestsRest(acts: seq<Action>, n: nat)
    requires acts != []
    ensures NestsWithin(acts, n) <==> (acts[0].Sample? ==> n > 0 && NestsWithin(acts[0].actions, n - 1)) && NestsWithin(acts[1..], n)
  {
    assert acts == [acts[0]] + acts[1..];
  }

  /** A list is accepted exactly when every action fits its place, samples included, and
      the samples do not nest too deep. */
  lemma {:induction false} AcceptedExactly(acts: seq<Action>, flow: FlowKey, depth: nat, ethType: nat, tci: nat)
    requires depth < SAMPLE_ACTION_DEPTH
    ensures AcceptsRest(acts, flow, depth, ethType, tci) <==>
            AllFit(acts, flow, ethType, tci) && NestsWithin(acts, SAMPLE_ACTION_DEPTH - 1 - depth)
    decreases acts
  {
    hide Allowed, Fits, AllFit, NestsWithin, TypeAfter, TciAfter;
    if acts == [] {
      NothingFits(flow, depth, ethType, tci);
    } else {
      var a := acts[0];
      AllowedFits(a, flow, ethType, tci);
      FitsRest(acts, flow, ethType, tci);
      NestsRest(acts, SAMPLE_ACTION_DEPTH - 1 - depth);
      if a.Sample? && depth + 1 < SAMPLE_ACTION_DEPTH { AcceptedExactly(a.actions, flow, depth + 1, ethType, tci); }
      AcceptedExactly(acts[1..], flow, depth, TypeAfter(a, ethType), TciAfter(a, tci));
    }
  }

  lemma NothingFits(flow: FlowKey, depth: nat, ethType: nat, tci: nat)
    requires depth < SAMPLE_ACTION_DEPTH
    ensures AllFit([], flow, ethType, tci) && NestsWithin([], SAMPLE_ACTION_DEPTH - 1 - depth)
  {
  }

  /** __ovs_nla_copy_actions and validate_and_copy_sample: a list is accepted exactly when
      every action of it fits its place, samples included, and the samples do not nest too
      deep; each kind of refusal has its reason. */
  method Validate(acts: seq<Action>, flow: FlowKey, depth: nat, ethType: nat, tci: nat) returns (v: Verdict)
    ensures v.Accepted? <==> Accepts(acts, flow, depth, ethType, tci)
    ensures v.Accepted? <==> depth < SAMPLE_ACTION_DEPTH && AllFit(acts, flow, ethType, tci) && NestsWithin(acts, SAMPLE_ACTION_DEPTH - 1 - depth)
    ensures v.EInval? ==> !AllFit(acts, flow, ethType, tci)
    ensures v.EOverflow? ==> depth >= SAMPLE_ACTION_DEPTH || !NestsWithin(acts, SAMPLE_ACTION_DEPTH - 1 - depth)
    decreases acts
  {
    hide Fits, AllFit, NestsWithin, Allowed;
    if depth >= SAMPLE_ACTION_DEPTH { return EOverflow; }
    AcceptedExactly(acts, flow, depth, ethType, tci);
    var t, vlan := ethType, tci;
    var i := 0;
    while i < |acts|
      invariant i <= |acts|
      invariant Accepts(acts, flow, depth, ethType, tci) <==> AcceptsRest(acts[i..], flow, depth, t, vlan)
      invariant AllFit(acts, flow, ethType, tci) <==> AllFit(acts[i..], flow, t, vlan)
      invariant NestsWithin(acts, SAMPLE_ACTION_DEPTH - 1 - depth) <==> NestsWithin(acts[i..], SAMPLE_ACTION_DEPTH - 1 - depth)
    {
      var a := acts[i];
      assert acts[i..][0] == a && acts[i..][1..] == acts[i + 1..];
      AllowedFits(a, flow, t, vlan);
      FitsRest(acts[i..], flow, t, vlan);
      NestsRest(acts[i..], SAMPLE_ACTION_DEPTH - 1 - depth);
      if !Allowed(a, flow, t, vlan) { return EInval; }
      match a {
        case PopVlan => vlan := 0;
        case PushVlan(_, tag) => vlan := tag;
        case PushMpls(pushed, _) => t := pushed;
        case PopMpls(_) => t := 0;
        case Sample(_, nested) =>
          v := Validate(nested, flow, depth + 1, t, vlan);
          if !v.Accepted? { return; }
        case _ =>
      }
      i := i + 1;
    }
    v := Accepted;
  }

  /** ovs_nla_copy_actions. */
  method ValidateForFlow(acts: seq<Action>, flow: FlowKey) returns (v: Verdict)
    ensures v.Accepted? <==> Accepts(acts, flow, 0, flow.ethType, flow.tci)
    ensures v.Accepted? <==> AllFit(acts, flow, flow.ethType, flow.tci) && NestsWithin(acts, SAMPLE_ACTION_DEPTH - 1)
  {
    v := Validate(acts, flow, 0, flow.ethType, flow.tci);
  }

  // ---- What actions do to packets ----

  /** The headers of a packet: the EtherType it shows, its MPLS labels, and the type
      of the header below them. */
  datatype Packet = Packet(ethType: nat, labels: seq<nat>, under: nat)

  /** The shown EtherType says what is there. */
  predicate Honest(p: Packet)
  {
    if p.labels != [] then IsMpls(p.ethType) else p.under == p.ethType && !IsMpls(p.ethType)
  }

  /** The action finds the header that it changes. */
  predicate RunsOk(a: Action, p: Packet)
  {
    match a
    case PopMpls(_) => p.labels != []
    case Set(_, _, key) =>
      (match key
       case IPv4(_, _) => p.labels == [] && p.under == ETH_P_IP
       case IPv6(_, _) => p.labels == [] && p.under == ETH_P_IPV6
       case Tcp => p.labels == [] && IsIp(p.under)
       case Udp => p.labels == [] && IsIp(p.under)
       case Sctp => p.labels == [] && IsIp(p.under)
       case Mpls => p.labels != []
       case _ => true)
    case _ => true
  }

  /** The packet after the action, as far as its headers go. */
  function After(a: Action, p: Packet): Packet
    requires RunsOk(a, p)
  {
    match a
    case PushMpls(t, lse) => Packet(t, [lse] + p.labels, p.under)
    case PopMpls(t) => Packet(t, p.labels[1..], p.under)
    case _ => p
  }

  /** No action of the list, nor of the samples in it, goes wrong. */
  predicate Safe(acts: seq<Action>, p: Packet)
  {
    acts == [] ||
    (var a := acts[0];
     && RunsOk(a, p)
     && (a.Sample? ==> Safe(a.actions, p))
     && Safe(acts[1..], After(a, p)))
  }

  /** What the tracked EtherType says of the packet. */
  predicate Tracks(ethType: nat, p: Packet)
  {
    ethType == 0 || (p.ethType == ethType && Honest(p))
  }

  lemma StepTracks(a: Action, flow: FlowKey, ethType: nat, tci: nat, p: Packet)
    requires Allowed(a, flow, ethType, tci) && Tracks(ethType, p)
    ensures RunsOk(a, p) && Tracks(TypeAfter(a, ethType), After(a, p))
  {
  }

  /** A set of an IP header or a label, or a pop. */
  predicate NeedsHeader(a: Action)
  {
    a.PopMpls? || (a.Set? && (a.key.IPv4? || a.key.IPv6? || a.key.Mpls?))
  }

  /** The header checks refuse nothing that would go well: an action that they refuse goes
      wrong on some packet that the tracked EtherType describes. */
  lemma HeaderNeeded(a: Action, flow: FlowKey, ethType: nat)
    requires NeedsHeader(a)
    ensures HeaderThere(a, flow, ethType) <==> forall p :: Tracks(ethType, p) ==> RunsOk(a, p)
  {
    var plain, labelled := Packet(ethType, [], ethType), Packet(ethType, [0], 0);
    if ethType == 0 {
      assert Tracks(0, Packet(0, [], 0)) && !RunsOk(a, Packet(0, [], 0));
    } else if IsMpls(ethType) {
      assert Tracks(ethType, labelled) && (RunsOk(a, labelled) ==> HeaderThere(a, flow, ethType));
    } else {
      assert Tracks(ethType, plain) && (RunsOk(a, plain) ==> HeaderThere(a, flow, ethType));
    }
  }

  /** Accepted lists never go wrong on packets that the flow matches. */
  lemma {:induction false} AcceptedIsSafe(acts: seq<Action>, flow: FlowKey, depth: nat, ethType: nat, tci: nat, p: Packet)
    requires AcceptsRest(acts, flow, depth, ethType, tci) && Tracks(ethType, p)
    ensures Safe(acts, p)
    decreases acts
  {
    if acts != [] {
      var a := acts[0];
      StepTracks(a, flow, ethType, tci, p);
      if a.Sample? { AcceptedIsSafe(a.actions, flow, depth + 1, ethType, tci, p); }
      AcceptedIsSafe(acts[1..], flow, depth, TypeAfter(a, ethType), TciAfter(a, tci), After(a, p));
    }
  }

  /** Validated lists are safe for every packet of the flow.  A flow matches its
      EtherType exactly, or not at all; then its masked key has type zero, and packets of
      every type match. */
  lemma ValidatedIsSafe(acts: seq<Action>, flow: FlowKey, p: Packet)
    requires Accepts(acts, flow, 0, flow.ethType, flow.tci) && Tracks(flow.ethType, p)
    ensures Safe(acts, p)
  {
    AcceptedIsSafe(acts, flow, 0, flow.ethType, flow.tci, p);
  }

  /** The list has no MPLS action and no set of anything above Ethernet. */
  predicate OnlyEthernet(acts: seq<Action>)
  {
    forall a :: a in acts ==>
      && !a.PushMpls? && !a.PopMpls?
      && (a.Set? ==> !a.key.IPv4? && !a.key.IPv6? && !a.key.Tcp? && !a.key.Udp? && !a.key.Sctp? && !a.key.Mpls?)
      && (a.Sample? ==> OnlyEthernet(a.actions))
  }

  /** With the type unknown nothing above Ethernet is accepted. */
  lemma {:induction false} UnknownType(acts: seq<Action>, flow: FlowKey, depth: nat, tci: nat)
    requires AcceptsRest(acts, flow, depth, 0, tci)
    ensures OnlyEthernet(acts)
    decreases acts
  {
    if acts != [] {
      var a := acts[0];
      if a.Sample? { UnknownType(a.actions, flow, depth + 1, tci); }
      UnknownType(acts[1..], flow, depth, TciAfter(a, tci));
      assert acts == [a] + acts[1..];
    }
  }

  /** After a pop nothing above Ethernet is accepted. */
  lemma {:induction false} NothingAfterPop(acts: seq<Action>, flow: FlowKey, depth: nat, ethType: nat, tci: nat, i: nat)
    requires AcceptsRest(acts, flow, depth, ethType, tci) && i < |acts| && acts[i].PopMpls?
    ensures OnlyEthernet(acts[i + 1..])
    decreases i
  {
    var a := acts[0];
    if i == 0 {
      UnknownType(acts[1..], flow, depth, TciAfter(a, tci));
    } else {
      NothingAfterPop(acts[1..], flow, depth, TypeAfter(a, ethType), TciAfter(a, tci), i - 1);
      assert acts[1..][i..] == acts[i + 1..];
    }
  }

  lemma {:induction false} NestingIsBounded(acts: seq<Action>, flow: FlowKey, depth: nat, ethType: nat, tci: nat)
    requires AcceptsRest(acts, flow, depth, ethType, tci) && depth < SAMPLE_ACTION_DEPTH
    ensures NestsWithin(acts, SAMPLE_ACTION_DEPTH - 1 - depth)
    decreases acts
  {
    if acts != [] {
      var a := acts[0];
      if a.Sample? { NestingIsBounded(a.actions, flow, depth + 1, ethType, tci); }
      NestingIsBounded(acts[1..], flow, depth, TypeAfter(a, ethType), TciAfter(a, tci));
      assert acts == [a] + acts[1..];
    }
  }
}
