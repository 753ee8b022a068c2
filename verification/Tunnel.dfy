// Packets between chassis: a packet is redirected at most once, and one pass
// through a logical switch crosses at most two tunnels when all chassis agree on
// where the ports are.

module Tunnel {
  import opened Common
  import opened Entities
  import opened FlowRules
  import opened FlowSync
  import opened Pipeline

  type Fabric = map<Uuid, Host>

  ghost predicate TunnelTo(n: Host, port: nat, d: Uuid) {
    exists r :: HasRemote(n, r) && r.port.props.ofport == port && r.chassis.props.uuid == d
  }

  /** OpenFlow port numbers of one bridge are distinct. */
  ghost predicate PortsDistinct(n: Host) {
    (forall a, b ::
       (a in n.facts && b in n.facts && a.props.OvsPort? && b.props.OvsPort? && a.props.ofport == b.props.ofport)
       ==> a.props.remote == b.props.remote && a.props.iface == b.props.iface) &&
    (forall a :: a in n.facts && a.props.OvsPort? ==> Some(a.props.ofport) != n.opts.dsrPort)
  }

  ghost predicate FabricOk(f: Fabric) {
    forall c :: c in f ==> f[c].sys == c && PortsDistinct(f[c])
  }

  datatype State =
    | At(chassis: Uuid, p: Packet, tunnels: nat, redirects: nat)
    | Ended(tunnels: nat, redirects: nat)

  /** A tunnel carries the frame, the tunnel id and tun_metadata0, nothing else. */
  function Arrive(q: Packet, port: nat): Packet {
    Packet(TABLE_CONVERT_PHY_LOGICAL, port, q.tunId, q.tunMeta, q.proto, q.ethSrc, q.ethDst,
           0, 0, 0, 0, 0, false, 0, 0, 0)
  }

  /** A crossing may lose the packet, or end on a chassis that is not in the fabric. */
  ghost predicate Crosses(f: Fabric, c: Uuid, d: Uuid, q: Packet, tunnels: nat, redirects: nat, t: State) {
    t == Ended(tunnels + 1, redirects) ||
    (d in f && exists port :: TunnelTo(f[d], port, c) && t == At(d, Arrive(q, port), tunnels + 1, redirects))
  }

  ghost predicate Follows(f: Fabric, s: State, v: Verdict, t: State)
    requires s.At? && s.chassis in f
  {
    var redirects := s.redirects + if s.p.table == TABLE_REDIRECT_CHASSIS then 1 else 0;
    match v
    case Resubmit(q) => t == At(s.chassis, q, s.tunnels, redirects)
    case Dropped => t == Ended(s.tunnels, redirects)
    case Sent(port, q) =>
      if exists d :: TunnelTo(f[s.chassis], port, d) then
        exists d :: TunnelTo(f[s.chassis], port, d) && Crosses(f, s.chassis, d, q, s.tunnels, redirects, t)
      else t == Ended(s.tunnels, redirects)
  }

  ghost predicate Move(f: Fabric, s: State, t: State) {
    s.At? && s.chassis in f && exists v :: Step(f[s.chassis], s.p, v) && Follows(f, s, v, t)
  }

  ghost predicate Trace(f: Fabric, states: seq<State>) {
    states != [] && forall i :: 0 < i < |states| ==> Move(f, states[i - 1], states[i])
  }

  /** A packet as a port of the chassis hands it in. */
  predicate Entering(p: Packet) {
    p.table == TABLE_CONVERT_PHY_LOGICAL && !p.reg5
  }

  // ----- The metadata carries what it must -----

  function Carried(p: Packet): nat {
    p.tunMeta / 0x1_0000_0000 % 0x1_0000_0000
  }

  /** Embedding and extracting restores datapath, ports and flags. */
  lemma EmbedExtract(p: Packet, port: nat)
    ensures var q := Extract(Arrive(Embed(p), port));
      q.dp == p.dp % 0x100_0000 && q.src == p.src % 0x1_0000 && q.dst == p.dst % 0x1_0000 &&
      q.flags == p.flags % 0x1_0000_0000 && (HasRedirect(q.flags) <==> HasRedirect(p.flags))
  {
    MetaFields(p.src % 0x1_0000, p.dst % 0x1_0000, p.flags % 0x1_0000_0000);
    LowBitsKeepFlag(p.flags);
    hide HasRedirect;
  }

  /** The layout that all chassis agree on: source, destination and flags from the low bits up. */
  lemma MetadataLayout(p: Packet)
    ensures var q := Embed(p);
      q.tunId == p.dp % 0x100_0000 && q.tunMeta % 0x1_0000 == p.src % 0x1_0000 &&
      q.tunMeta / 0x1_0000 % 0x1_0000 == p.dst % 0x1_0000 &&
      q.tunMeta / 0x1_0000_0000 % 0x1_0000_0000 == p.flags % 0x1_0000_0000 && q.tunMeta < 0x1_0000_0000_0000_0000
  {
    MetaFields(p.src % 0x1_0000, p.dst % 0x1_0000, p.flags % 0x1_0000_0000);
  }

  lemma MetaFields(src: nat, dst: nat, flags: nat)
    requires src < 0x1_0000 && dst < 0x1_0000 && flags < 0x1_0000_0000
    ensures var m := src + dst * 0x1_0000 + flags * 0x1_0000_0000;
      m % 0x1_0000 == src && m / 0x1_0000 % 0x1_0000 == dst && m / 0x1_0000_0000 % 0x1_0000_0000 == flags
  {
    var m := src + dst * 0x1_0000 + flags * 0x1_0000_0000;
    assert m / 0x1_0000 == dst + flags * 0x1_0000;
  }

  lemma LowBitsKeepFlag(flags: nat)
    ensures HasRedirect(flags % 0x1_0000_0000) <==> HasRedirect(flags)
  {
    var k, r := flags / 0x1_0000_0000, flags % 0x1_0000_0000;
    HigherBitsKeepFlag(r, 0x2000_0000 * k);
  }

  lemma HigherBitsKeepFlag(low: nat, high: nat)
    ensures HasRedirect(low + 8 * high) <==> HasRedirect(low)
  {
    assert (low + 8 * high) / 4 == low / 4 + 2 * high;
  }

  // ----- Redirect at most once -----

  ghost predicate LocalPort(n: Host, port: nat) {
    exists b :: HasBond(n, b) && b.port.props.ofport == port
  }

  /** reg5 is set only where the next table consumes it. */
  ghost predicate Sane(n: Host, p: Packet) {
    p.reg5 ==> p.table == TABLE_OUTPUT_DST_PORT || p.table == TABLE_REDIRECT_CHASSIS ||
               (p.table == TABLE_PUSHOUT && LocalPort(n, p.outport))
  }

  lemma PushOutIsLocal(n: Host, dp: nat, m: Match, a: Action)
    requires Flow(n, TABLE_FORWARD_PACKET, 3, dp, m, a)
    ensures a.PushOut? && LocalPort(n, a.ofport)
  {
    hide LinkOk, HopOk, RemoteOk;
    var d :| DerivedBy(n.facts, n.sys, d, FlowKey(TABLE_FORWARD_PACKET, 3, dp, m), a);
    OverParts(d, n.facts);
    assert HasBond(n, d.bond);
  }

  lemma StepKeepsSane(n: Host, p: Packet, v: Verdict)
    requires Step(n, p, v) && v.Resubmit? && Sane(n, p)
    ensures Sane(n, v.next)
  {
    if 33 <= p.table < TABLE_HANDLE_UNKNOWN { RoutingRewrites(n, p, v); }
    hide RoutingStep, LocalPort, HasBond, HasLink, HasRemote, Flow, KnownSwitch, KnownRouter, SetRedirect,
      SetLoopback, SetNat, MacOfIp, NatHit, PatchHit;
    if p.table == TABLE_FORWARD_PACKET {
      forall a | Flow(n, p.table, 3, p.dp, RegDst(p.dst), a) ensures a.PushOut? && LocalPort(n, a.ofport) {
        PushOutIsLocal(n, p.dp, RegDst(p.dst), a);
      }
    }
  }

  lemma OneMoreKeepsFlag(flags: nat)
    requires flags % 2 == 0
    ensures HasRedirect(flags + 1) <==> HasRedirect(flags)
  {
    assert (flags + 1) / 4 == flags / 4;
  }

  lemma FourMoreSetsFlag(flags: nat)
    requires !HasRedirect(flags)
    ensures HasRedirect(flags + 4)
  {
    assert (flags + 4) / 4 == flags / 4 + 1;
  }

  lemma OtherFlagsKeepIt(flags: nat)
    ensures HasRedirect(SetRedirect(flags))
    ensures HasRedirect(SetLoopback(flags)) <==> HasRedirect(flags)
    ensures HasRedirect(SetNat(flags)) <==> HasRedirect(flags)
  {
    hide HasRedirect;
    if flags % 2 == 0 { OneMoreKeepsFlag(flags); }
    if !HasRedirect(flags) { FourMoreSetsFlag(flags); }
    HigherBitsKeepFlag(flags, 1);
  }

  lemma SwitchKeepsFlag(n: Host, p: Packet, v: Verdict)
    requires Step(n, p, v) && v.Resubmit? && 0 < p.table <= TABLE_PUSHOUT
    ensures HasRedirect(p.flags) ==> HasRedirect(v.next.flags)
    ensures v.next.table == TABLE_REDIRECT_CHASSIS ==> !HasRedirect(p.flags)
    ensures v.next.table != TABLE_CONVERT_PHY_LOGICAL
  {
    hide RouterIngressStep, RoutingStep, RouterEgressStep, MiddleStep, EnterStep, HasRedirect, SetRedirect,
      SetLoopback, HasFlow, Flow, KnownSwitch, NatHit, PatchHit, LowMoved;
    OtherFlagsKeepIt(p.flags);
    OtherFlagsKeepIt(SetRedirect(p.flags));
  }

  lemma RouterKeepsFlag(n: Host, p: Packet, v: Verdict)
    requires Step(n, p, v) && v.Resubmit? && p.table > TABLE_PUSHOUT
    ensures HasRedirect(p.flags) ==> HasRedirect(v.next.flags)
    ensures v.next.table == TABLE_REDIRECT_CHASSIS ==> !HasRedirect(p.flags)
    ensures v.next.table != TABLE_CONVERT_PHY_LOGICAL && p.table != TABLE_REDIRECT_CHASSIS
  {
    if 33 <= p.table < TABLE_HANDLE_UNKNOWN { RoutingRewrites(n, p, v); }
    hide RoutingStep, EnterStep, SwitchIngressStep, LookupStep, OutputStep, SwitchEgressStep, HasRedirect,
      SetRedirect, SetLoopback, SetNat, KnownRouter, Answers, LeavesBy, PatchOpposite, GatewayPort;
    OtherFlagsKeepIt(p.flags);
  }

  lemma StepEnters(n: Host, p: Packet, v: Verdict)
    requires p.table == TABLE_CONVERT_PHY_LOGICAL && Step(n, p, v)
    ensures EnterStep(n, p, v)
  {
    hide EnterStep, SwitchIngressStep, LookupStep, OutputStep, SwitchEgressStep, RouterIngressStep, RoutingStep,
      RouterEgressStep, MiddleStep;
  }

  /** The flag is never cleared, and a flagged packet never reaches the redirect table. */
  lemma StepKeepsFlag(n: Host, p: Packet, v: Verdict)
    requires Step(n, p, v) && v.Resubmit? && p.table != TABLE_CONVERT_PHY_LOGICAL
    ensures HasRedirect(p.flags) ==> HasRedirect(v.next.flags)
    ensures v.next.table == TABLE_REDIRECT_CHASSIS ==> !HasRedirect(p.flags)
    ensures v.next.table != TABLE_CONVERT_PHY_LOGICAL && p.table != TABLE_REDIRECT_CHASSIS
  {
    hide Step, HasRedirect;
    if p.table <= TABLE_PUSHOUT { SwitchKeepsFlag(n, p, v); } else { RouterKeepsFlag(n, p, v); }
  }

  lemma LocalIsNoTunnel(n: Host, port: nat, d: Uuid)
    requires PortsDistinct(n) && TunnelTo(n, port, d)
    ensures !LocalPort(n, port) && Some(port) != n.opts.dsrPort
  {
  }

  /** Only four tables send: the untunnel table to the DSR port, the output tables and
      the redirect table. */
  lemma SendingTables(n: Host, p: Packet, port: nat, q: Packet)
    requires Step(n, p, Sent(port, q))
    ensures p.table in {TABLE_UNTUNNEL, TABLE_OUTPUT_DST_PORT, TABLE_PUSHOUT, TABLE_REDIRECT_CHASSIS}
    ensures p.table == TABLE_UNTUNNEL ==> Some(port) == n.opts.dsrPort
    ensures p.table == TABLE_PUSHOUT ==> p.reg5 && p.outport == port
  {
    hide OutputStep, RedirectStep, HasFlow, Flow, KnownSwitch, KnownRouter, NatHit, PatchHit, HasLink, HasBond,
      HasRemote, HasRedirect, SetRedirect, SetLoopback, LowMoved, Answers, LeavesBy, PatchOpposite;
  }

  lemma OutputIsEmbedded(n: Host, p: Packet, port: nat, q: Packet)
    requires OutputStep(n, p, Sent(port, q)) || RedirectStep(n, p, Sent(port, q))
    ensures q == Embed(q) && q.outport == port != OFPORT_NONE
    ensures q == p.(outport := port, flags := q.flags, tunId := q.tunId, tunMeta := q.tunMeta)
    ensures OutputStep(n, p, Sent(port, q)) ==> p.reg5 && p.outport == port && q.flags == p.flags
    ensures RedirectStep(n, p, Sent(port, q)) ==> q.flags == SetRedirect(p.flags)
  {
    hide KnownSwitch, GatewayPort, HasRedirect, SetRedirect;
  }

  /** What goes into a tunnel was embedded just before. */
  lemma TunnelledIsEmbedded(n: Host, p: Packet, port: nat, q: Packet, d: Uuid)
    requires Step(n, p, Sent(port, q)) && Sane(n, p) && PortsDistinct(n) && TunnelTo(n, port, d)
    ensures q == Embed(q) && q.outport == port != OFPORT_NONE
    ensures q == p.(outport := port, flags := q.flags, tunId := q.tunId, tunMeta := q.tunMeta)
    ensures (p.table == TABLE_OUTPUT_DST_PORT && p.reg5 && p.outport == port && q.flags == p.flags) ||
            (p.table == TABLE_REDIRECT_CHASSIS && q.flags == SetRedirect(p.flags))
  {
    hide TunnelTo, PortsDistinct, LocalPort, EnterStep, SwitchIngressStep, LookupStep, OutputStep, SwitchEgressStep,
      RouterIngressStep, RoutingStep, RouterEgressStep, RedirectStep, Embed, SetRedirect;
    LocalIsNoTunnel(n, port, d);
    SendingTables(n, p, port, q);
    if p.table == TABLE_OUTPUT_DST_PORT || p.table == TABLE_REDIRECT_CHASSIS {
      OutputIsEmbedded(n, p, port, q);
    }
  }

  /** The redirect flag as the packet shows it, in reg10 or in the metadata it arrived with. */
  ghost predicate Flagged(f: Fabric, s: State)
    requires s.At? && s.chassis in f
  {
    if s.p.table == TABLE_CONVERT_PHY_LOGICAL then
      HasRedirect(Carried(s.p)) && !LocalPort(f[s.chassis], s.p.inPort)
    else HasRedirect(s.p.flags)
  }

  ghost predicate OnceInv(f: Fabric, s: State) {
    s.redirects <= 1 &&
    (s.At? && s.chassis in f ==>
       Sane(f[s.chassis], s.p) &&
       (s.redirects == 1 ==> Flagged(f, s) && s.p.table != TABLE_REDIRECT_CHASSIS))
  }

  lemma EnterKeepsOnce(f: Fabric, s: State, v: Verdict, t: State)
    requires OnceInv(f, s) && s.At? && s.chassis in f && s.p.table == TABLE_CONVERT_PHY_LOGICAL
    requires v.Resubmit? && EnterStep(f[s.chassis], s.p, v) && Follows(f, s, v, t) && Sane(f[s.chassis], v.next)
    ensures OnceInv(f, t)
  {
    hide Sane, HasRedirect, SetLoopback, HasRemote, HasBond;
    OtherFlagsKeepIt(Extract(s.p).flags);
  }

  lemma ResubmitKeepsOnce(f: Fabric, s: State, v: Verdict, t: State)
    requires FabricOk(f) && OnceInv(f, s) && s.At? && s.chassis in f
    requires v.Resubmit? && Step(f[s.chassis], s.p, v) && Follows(f, s, v, t)
    ensures OnceInv(f, t)
  {
    hide Step, Sane, HasRedirect, EnterStep, FabricOk, LocalPort, TunnelTo, Crosses, Carried;
    StepKeepsSane(f[s.chassis], s.p, v);
    if s.p.table != TABLE_CONVERT_PHY_LOGICAL {
      StepKeepsFlag(f[s.chassis], s.p, v);
    } else {
      StepEnters(f[s.chassis], s.p, v);
      EnterKeepsOnce(f, s, v, t);
    }
  }

  lemma ArrivesFlagged(f: Fabric, d: Uuid, q: Packet, port: nat, c: Uuid, tunnels: nat, redirects: nat)
    requires FabricOk(f) && d in f && TunnelTo(f[d], port, c) && q == Embed(q)
    ensures HasRedirect(q.flags) ==> Flagged(f, At(d, Arrive(q, port), tunnels, redirects))
  {
    LocalIsNoTunnel(f[d], port, c);
    EmbedExtract(q, port);
    hide TunnelTo, LocalPort, HasRedirect;
  }

  lemma CrossingKeepsOnce(f: Fabric, s: State, v: Verdict, d: Uuid, t: State)
    requires FabricOk(f) && OnceInv(f, s) && s.At? && s.chassis in f && v.Sent? && Step(f[s.chassis], s.p, v)
    requires TunnelTo(f[s.chassis], v.ofport, d) && Crosses(f, s.chassis, d, v.sent, s.tunnels, t.redirects, t)
    requires t.redirects == s.redirects + if s.p.table == TABLE_REDIRECT_CHASSIS then 1 else 0
    ensures OnceInv(f, t)
  {
    hide Step, Sane, HasRedirect, Embed, LocalPort, TunnelTo, SetRedirect, PortsDistinct, FabricOk, Extract;
    PortsAreDistinct(f, s.chassis);
    TunnelledIsEmbedded(f[s.chassis], s.p, v.ofport, v.sent, d);
    OtherFlagsKeepIt(s.p.flags);
    if t.At? {
      ArrivesFlagged(f, d, v.sent, t.p.inPort, s.chassis, t.tunnels, t.redirects);
      assert !t.p.reg5;
      ArrivesSane(f[d], t.p);
    }
  }

  lemma SentKeepsOnce(f: Fabric, s: State, v: Verdict, t: State)
    requires FabricOk(f) && OnceInv(f, s) && s.At? && s.chassis in f
    requires v.Sent? && Step(f[s.chassis], s.p, v) && Follows(f, s, v, t)
    ensures OnceInv(f, t)
  {
    hide Step, Sane, Flagged, TunnelTo, FabricOk, Arrive;
    if d :| TunnelTo(f[s.chassis], v.ofport, d) && Crosses(f, s.chassis, d, v.sent, s.tunnels, t.redirects, t) {
      CrossingKeepsOnce(f, s, v, d, t);
    } else {
      assert t.Ended?;
    }
  }

  lemma ArrivesSane(n: Host, p: Packet)
    requires !p.reg5
    ensures Sane(n, p)
  {
  }

  lemma MoveKeepsOnce(f: Fabric, s: State, t: State)
    requires FabricOk(f) && OnceInv(f, s) && Move(f, s, t)
    ensures OnceInv(f, t)
  {
    hide FabricOk, OnceInv, Step;
    var v :| Step(f[s.chassis], s.p, v) && Follows(f, s, v, t);
    match v
    case Resubmit(_) => ResubmitKeepsOnce(f, s, v, t);
    case Sent(_, _) => SentKeepsOnce(f, s, v, t);
    case Dropped => DropKeepsOnce(f, s, t);
  }

  lemma DropKeepsOnce(f: Fabric, s: State, t: State)
    requires OnceInv(f, s) && s.At? && s.chassis in f && Follows(f, s, Dropped, t)
    ensures OnceInv(f, t)
  {
    hide Sane, Flagged;
  }

  lemma {:induction false} TraceKeepsOnce(f: Fabric, states: seq<State>)
    requires FabricOk(f) && Trace(f, states) && OnceInv(f, states[0])
    ensures forall s :: s in states ==> OnceInv(f, s)
    decreases |states|
  {
    hide FabricOk, OnceInv, Move;
    if |states| > 1 {
      var init := states[..|states| - 1];
      TraceKeepsOnce(f, init);
      MoveKeepsOnce(f, init[|init| - 1], states[|states| - 1]);
      assert forall s :: s in states ==> s in init || s == states[|states| - 1];
    }
  }

  /** Redirect at most once, over any number of chassis and any flow state. */
  lemma RedirectAtMostOnce(f: Fabric, states: seq<State>)
    requires FabricOk(f) && Trace(f, states)
    requires states[0].At? && Entering(states[0].p) && states[0].redirects == 0
    ensures forall s :: s in states ==> s.redirects <= 1
  {
    hide FabricOk, Move;
    TraceKeepsOnce(f, states);
  }

  /** What a move counts: leaving table 95, and each change of the chassis. */
  lemma MoveCounts(f: Fabric, s: State, t: State)
    requires Move(f, s, t)
    ensures t.redirects == s.redirects + if s.p.table == 95 then 1 else 0
    ensures s.tunnels <= t.tunnels <= s.tunnels + 1
    ensures t.At? && t.chassis != s.chassis ==> t.tunnels == s.tunnels + 1
  {
    hide Step, TunnelTo;
  }

  /** A tunnel is counted exactly when the packet is sent into one, whether it arrives or not. */
  lemma FollowsCounts(f: Fabric, s: State, v: Verdict, t: State)
    requires s.At? && s.chassis in f && Follows(f, s, v, t)
    ensures t.tunnels == s.tunnels + if v.Sent? && exists d :: TunnelTo(f[s.chassis], v.ofport, d) then 1 else 0
  {
    hide TunnelTo;
  }

  lemma {:induction false} CountsGrow(f: Fabric, states: seq<State>, i: nat, j: nat)
    requires Trace(f, states) && i <= j < |states|
    ensures states[i].tunnels <= states[j].tunnels && states[i].redirects <= states[j].redirects
    decreases j
  {
    hide Move;
    if i < j {
      CountsGrow(f, states, i, j - 1);
      MoveCounts(f, states[j - 1], states[j]);
    }
  }

  predicate LeavesRedirect(s: State) {
    s.At? && s.p.table == 95
  }

  /** The same in terms of the trace alone: table 95 is left at most once. */
  lemma RedirectTableOnce(f: Fabric, states: seq<State>)
    requires FabricOk(f) && Trace(f, states)
    requires states[0].At? && Entering(states[0].p) && states[0].redirects == 0
    ensures forall i, j :: 0 <= i < j < |states| - 1 && LeavesRedirect(states[i]) ==> !LeavesRedirect(states[j])
  {
    hide FabricOk, Move, Entering;
    RedirectAtMostOnce(f, states);
    forall i, j | 0 <= i < j < |states| - 1 && LeavesRedirect(states[i]) ensures !LeavesRedirect(states[j]) {
      CountsGrow(f, states, 0, i);
      MoveCounts(f, states[i], states[i + 1]);
      CountsGrow(f, states, i + 1, j);
      MoveCounts(f, states[j], states[j + 1]);
    }
  }

  // ----- Two tunnels at most -----

  /** All chassis draw on one logical configuration E, and each holds at least the part
      that an on-demand agent publishes from the start: remote ports and chassis may
      be untouched on some of them, and every agent hands out ILK indices of its own.
      Every port is bound exactly on the chassis that it names. */
  ghost predicate Agree(f: Fabric, E: set<Props>) {
    (forall c, p :: c in f && p in E && !p.OvsPort? && TouchedAtBirth(p, Options(c, true)) ==> Knows(f[c], p)) &&
    (forall c, a :: c in f && a in f[c].facts && !a.props.OvsPort? ==> a.props in E) &&
    (forall p :: p in E && p.Ls? ==> p.lsId < 0x100_0000) &&
    (forall p :: p in E && p.Lsp? && p.peer.None? && p.chassis.Some? && p.chassis.value in f ==>
       Binds(f[p.chassis.value], p.uuid))
  }

  ghost predicate Knows(n: Host, p: Props) {
    exists a :: a in n.facts && a.props == p
  }

  ghost predicate Binds(n: Host, lsp: Uuid) {
    exists port :: port in n.facts && port.props.OvsPort? && !port.props.remote && port.props.ofport > 0 &&
      port.props.iface == lsp
  }

  /** The entity as chassis d holds it. */
  lemma SharedEntity(f: Fabric, E: set<Props>, c: Uuid, d: Uuid, a: Atom) returns (b: Atom)
    requires Agree(f, E) && c in f && d in f && a in f[c].facts && !a.props.OvsPort?
    requires TouchedAtBirth(a.props, Options(d, true))
    ensures b in f[d].facts && b.props == a.props
  {
    assert Knows(f[d], a.props);
    b :| b in f[d].facts && b.props == a.props;
  }

  lemma SharedLink(f: Fabric, E: set<Props>, c: Uuid, d: Uuid, l: Link) returns (m: Link)
    requires FabricOk(f) && Agree(f, E) && c in f && d in f
    requires HasLink(f[c], l) && l.lr.props.lrChassis == Some(d)
    ensures HasLink(f[d], m) && m.lsp.props == l.lsp.props && m.ls.props == l.ls.props
  {
    hide Agree;
    var lsp := SharedEntity(f, E, c, d, l.lsp);
    var lrp := SharedEntity(f, E, c, d, l.lrp);
    var ls := SharedEntity(f, E, c, d, l.ls);
    var lr := SharedEntity(f, E, c, d, l.lr);
    m := Link(lsp, lrp, ls, lr, None);
  }

  lemma SharedPort(f: Fabric, E: set<Props>, c: Uuid, d: Uuid, lsp: Atom, ls: Atom)
    returns (b: Bond)
    requires FabricOk(f) && Agree(f, E) && c in f && d in f && lsp in f[c].facts && ls in f[c].facts
    requires lsp.props.Lsp? && lsp.props.peer.None? && lsp.props.chassis == Some(d)
    requires ls.props.Ls? && ls.props.uuid == lsp.props.ls
    ensures HasBond(f[d], b) && b.lsp.props == lsp.props && b.ls.props == ls.props
  {
    assert Binds(f[d], lsp.props.uuid);
    hide Agree;
    var far := SharedEntity(f, E, c, d, lsp);
    var farLs := SharedEntity(f, E, c, d, ls);
    var port :| port in f[d].facts && port.props.OvsPort? && !port.props.remote && port.props.ofport > 0 &&
      port.props.iface == lsp.props.uuid;
    b := Bond(far, farLs, port);
  }

  lemma SameTunnel(n: Host, r: Remote, d: Uuid)
    requires PortsDistinct(n) && HasRemote(n, r) && TunnelTo(n, r.port.props.ofport, d)
    ensures r.chassis.props.uuid == d
  {
  }

  lemma RemoteOrigin(n: Host, dp: nat, mac: string, a: Action) returns (x: Derivation)
    requires Flow(n, TABLE_LOOKUP_DST_PORT, 3, dp, EthDst(mac), a)
    ensures x.LookupRemoteLsp? || x.LookupRemoteLink?
    ensures Joins(x, n.sys) && PartsOver(x, n.facts)
    ensures Key(x, n.sys) == FlowKey(TABLE_LOOKUP_DST_PORT, 3, dp, EthDst(mac)) && ActionOf(x, n.sys) == a
  {
    hide Over, LinkOk, HopOk, RemoteOk, BondOk;
    x :| DerivedBy(n.facts, n.sys, x, FlowKey(TABLE_LOOKUP_DST_PORT, 3, dp, EthDst(mac)), a);
    OverParts(x, n.facts);
  }

  lemma LspAgrees(f: Fabric, E: set<Props>, c: Uuid, d: Uuid, lsp: Atom, ls: Atom, r: Remote)
    requires FabricOk(f) && Agree(f, E) && c in f && d in f && PartsOver(LookupRemoteLsp(lsp, ls, r), f[c].facts)
    requires Joins(LookupRemoteLsp(lsp, ls, r), c) && TunnelTo(f[c], r.port.props.ofport, d)
    ensures Resolved(f[d], ls.props.lsId, PortId(lsp.props.ip))
  {
    hide Agree, Binds, TunnelTo, Resolved, PortsDistinct;
    SameTunnel(f[c], r, d);
    var b := SharedPort(f, E, c, d, lsp, ls);
    BondForwards(f[d], b);
  }

  lemma LinkAgrees(f: Fabric, E: set<Props>, c: Uuid, d: Uuid, l: Link, r: Remote)
    requires FabricOk(f) && Agree(f, E) && c in f && d in f && PartsOver(LookupRemoteLink(l, r), f[c].facts)
    requires Joins(LookupRemoteLink(l, r), c) && TunnelTo(f[c], r.port.props.ofport, d)
    ensures Resolved(f[d], l.ls.props.lsId, PortId(l.lsp.props.ip))
  {
    hide Agree, Binds, TunnelTo, Resolved, PortsDistinct;
    SameTunnel(f[c], r, d);
    var m := SharedLink(f, E, c, d, l);
    LinkForwards(f[d], m);
  }

  /** A remote lookup sends the packet to a chassis that can forward it. */
  lemma RemoteLookupAgrees(f: Fabric, E: set<Props>, c: Uuid, d: Uuid, dp: nat, mac: string, a: Action)
    requires FabricOk(f) && Agree(f, E) && c in f && d in f
    requires Flow(f[c], TABLE_LOOKUP_DST_PORT, 3, dp, EthDst(mac), a)
    ensures a.SendRemote? && a.dst < 0x1_0000 && dp < 0x100_0000
    ensures TunnelTo(f[c], a.ofport, d) ==> Resolved(f[d], dp, a.dst)
  {
    var x := RemoteOrigin(f[c], dp, mac, a);
    assert f[c].sys == c;
    RemoteParts(f, E, c, if x.LookupRemoteLsp? then x.ls else x.link.ls);
    hide FabricOk, Agree, TunnelTo, Resolved, LinkOk, RemoteOk, Flow, HopOk, BondOk;
    if TunnelTo(f[c], a.ofport, d) {
      if x.LookupRemoteLsp? {
        LspAgrees(f, E, c, d, x.lsp, x.ls, x.remote);
      } else {
        LinkAgrees(f, E, c, d, x.link, x.remote);
      }
    }
  }

  lemma RemoteParts(f: Fabric, E: set<Props>, c: Uuid, ls: Atom)
    requires FabricOk(f) && Agree(f, E) && c in f && ls in f[c].facts && ls.props.Ls?
    ensures PortsDistinct(f[c]) && ls.props.lsId < 0x100_0000
  {
  }

  /** Tables of a logical switch; the traversal ends when the packet enters a router. */
  predicate InSwitch(p: Packet) {
    p.table <= TABLE_PUSHOUT || p.table >= TABLE_REDIRECT_CHASSIS
  }

  /** Every chassis that reg4's tunnel leads to can forward the packet. */
  ghost predicate PointsHome(f: Fabric, c: Uuid, p: Packet)
    requires c in f
  {
    p.dp < 0x100_0000 && p.dst < 0x1_0000 &&
    forall d :: d in f && TunnelTo(f[c], p.outport, d) ==> Resolved(f[d], p.dp, p.dst)
  }

  /** How many tunnels the packet can still cross in this switch. */
  ghost function Budget(f: Fabric, c: Uuid, p: Packet): nat
    requires c in f
  {
    if p.table == TABLE_CONVERT_PHY_LOGICAL then
      if LocalPort(f[c], p.inPort) then 2 else if Resolved(f[c], Extract(p).dp, Extract(p).dst) then 0 else 1
    else if p.table <= TABLE_LOOKUP_DST_PORT then if HasRedirect(p.flags) then 1 else 2
    else if p.table == TABLE_OUTPUT_DST_PORT && p.reg5 then
      if p.outport == OFPORT_NONE then if HasRedirect(p.flags) then 0 else 2
      else if PointsHome(f, c, p) then 1 else 3
    else if p.table in {7, 20, 21, 22, TABLE_PIPELINE_FORWARD} then if Resolved(f[c], p.dp, p.dst) then 0 else 1
    else if p.table == TABLE_REDIRECT_CHASSIS then 2
    else 0
  }

  ghost function Spent(f: Fabric, s: State): nat {
    s.tunnels + if s.At? && s.chassis in f then Budget(f, s.chassis, s.p) else 0
  }

  lemma RemoteFlowAgrees(f: Fabric, E: set<Props>, c: Uuid, dp: nat, mac: string, a: Action)
    requires FabricOk(f) && Agree(f, E) && c in f && Flow(f[c], TABLE_LOOKUP_DST_PORT, 3, dp, EthDst(mac), a)
    ensures a.SendRemote? && a.dst < 0x1_0000 && dp < 0x100_0000
    ensures forall d :: d in f && TunnelTo(f[c], a.ofport, d) ==> Resolved(f[d], dp, a.dst)
  {
    hide Resolved, TunnelTo, FabricOk, Agree, Flow;
    RemoteLookupAgrees(f, E, c, c, dp, mac, a);
    forall d | d in f && TunnelTo(f[c], a.ofport, d) ensures Resolved(f[d], dp, a.dst) {
      RemoteLookupAgrees(f, E, c, d, dp, mac, a);
    }
  }

  lemma LookupBudget(f: Fabric, E: set<Props>, c: Uuid, p: Packet, v: Verdict)
    requires FabricOk(f) && Agree(f, E) && c in f
    requires p.table == TABLE_LOOKUP_DST_PORT && Step(f[c], p, v) && v.Resubmit? && !p.reg5
    ensures Budget(f, c, v.next) <= Budget(f, c, p)
  {
    hide Resolved, TunnelTo, FabricOk, Agree, Flow, HasFlow, NatHit, PatchHit, KnownSwitch, HasRedirect, EnterStep,
      SwitchIngressStep, OutputStep, SwitchEgressStep, RouterIngressStep, RoutingStep, RouterEgressStep, MiddleStep,
      Extract, LocalPort;
    LookupSettles(f[c], p, v);
    forall a | Flow(f[c], p.table, 3, p.dp, EthDst(p.ethDst), a)
      ensures a.SendRemote? && a.dst < 0x1_0000 && p.dp < 0x100_0000
      ensures forall d :: d in f && TunnelTo(f[c], a.ofport, d) ==> Resolved(f[d], p.dp, a.dst)
    {
      RemoteFlowAgrees(f, E, c, p.dp, p.ethDst, a);
    }
  }

  lemma OtherBudget(f: Fabric, c: Uuid, p: Packet, v: Verdict)
    requires c in f && InSwitch(p) && p.table != TABLE_LOOKUP_DST_PORT && p.table != TABLE_CONVERT_PHY_LOGICAL
    requires Step(f[c], p, v) && v.Resubmit? && Sane(f[c], p)
    ensures Budget(f, c, v.next) <= Budget(f, c, p)
  {
    hide HasRedirect, SetRedirect, SetLoopback, KnownSwitch, LookupStep, EnterStep, RouterIngressStep, RoutingStep,
      RouterEgressStep, Embed, GatewayPort, LocalPort, PointsHome, Flow, LowMoved;
    OtherFlagsKeepIt(p.flags);
    OtherFlagsKeepIt(SetRedirect(p.flags));
  }

  lemma ResubmitBudget(f: Fabric, E: set<Props>, c: Uuid, p: Packet, v: Verdict)
    requires FabricOk(f) && Agree(f, E) && c in f && InSwitch(p)
    requires Step(f[c], p, v) && v.Resubmit? && Sane(f[c], p)
    ensures Budget(f, c, v.next) <= Budget(f, c, p)
  {
    hide Step, EnterStep, Agree, FabricOk, InSwitch, Budget, LocalPort;
    if p.table == TABLE_LOOKUP_DST_PORT {
      LookupBudget(f, E, c, p, v);
    } else if p.table == TABLE_CONVERT_PHY_LOGICAL {
      StepEnters(f[c], p, v);
      EnterBudget(f, c, p, v);
    } else {
      OtherBudget(f, c, p, v);
    }
  }

  lemma PortsAreDistinct(f: Fabric, c: Uuid)
    requires FabricOk(f) && c in f
    ensures PortsDistinct(f[c])
  {
    hide PortsDistinct;
  }

  lemma EnterBudget(f: Fabric, c: Uuid, p: Packet, v: Verdict)
    requires FabricOk(f) && c in f && p.table == TABLE_CONVERT_PHY_LOGICAL && EnterStep(f[c], p, v) && v.Resubmit?
    ensures Budget(f, c, v.next) <= Budget(f, c, p)
  {
    hide HasBond, Resolved, HasRedirect, FabricOk, SetLoopback, PortsDistinct, Extract, RemoteOver;
    var n := f[c];
    PortsAreDistinct(f, c);
    if r :| HasRemote(n, r) && r.port.props.ofport == p.inPort {
      assert TunnelTo(n, p.inPort, r.chassis.props.uuid);
      LocalIsNoTunnel(n, p.inPort, r.chassis.props.uuid);
    }
  }

  lemma ArrivalBudget(f: Fabric, c: Uuid, d: Uuid, q: Packet, port: nat)
    requires FabricOk(f) && c in f && d in f && TunnelTo(f[d], port, c) && q == Embed(q)
    ensures Budget(f, d, Arrive(q, port)) ==
      if Resolved(f[d], q.dp % 0x100_0000, q.dst % 0x1_0000) then 0 else 1
  {
    EmbedExtract(q, port);
    LocalIsNoTunnel(f[d], port, c);
    hide Extract, Embed, TunnelTo, LocalPort, Resolved;
  }

  lemma CrossingBudget(f: Fabric, c: Uuid, p: Packet, port: nat, q: Packet, d: Uuid)
    requires FabricOk(f) && c in f && Sane(f[c], p) && Step(f[c], p, Sent(port, q)) && TunnelTo(f[c], port, d)
    ensures 1 <= Budget(f, c, p)
    ensures d in f ==> forall i :: TunnelTo(f[d], i, c) ==> 1 + Budget(f, d, Arrive(q, i)) <= Budget(f, c, p)
  {
    hide Step, Sane, HasRedirect, Embed, SetRedirect, Arrive, FabricOk, TunnelTo, Resolved, Extract, LocalPort;
    PortsAreDistinct(f, c);
    TunnelledIsEmbedded(f[c], p, port, q, d);
    if d in f {
      forall i | TunnelTo(f[d], i, c) ensures 1 + Budget(f, d, Arrive(q, i)) <= Budget(f, c, p) {
        ArrivalBudget(f, c, d, q, i);
      }
    }
  }

  lemma SentBudget(f: Fabric, s: State, v: Verdict, t: State)
    requires FabricOk(f) && s.At? && s.chassis in f && Sane(f[s.chassis], s.p)
    requires v.Sent? && Step(f[s.chassis], s.p, v) && Follows(f, s, v, t)
    ensures Spent(f, t) <= Spent(f, s)
  {
    hide Step, Sane, TunnelTo, Budget, FabricOk;
    if d :| TunnelTo(f[s.chassis], v.ofport, d) && Crosses(f, s.chassis, d, v.sent, s.tunnels, t.redirects, t) {
      CrossingBudget(f, s.chassis, s.p, v.ofport, v.sent, d);
    }
  }

  lemma MoveSpends(f: Fabric, E: set<Props>, s: State, t: State)
    requires FabricOk(f) && Agree(f, E) && OnceInv(f, s) && s.At? && InSwitch(s.p) && Move(f, s, t)
    ensures Spent(f, t) <= Spent(f, s)
  {
    hide FabricOk, Agree, Step, Budget, Sane, InSwitch, Flagged;
    var v :| Step(f[s.chassis], s.p, v) && Follows(f, s, v, t);
    match v
    case Resubmit(_) => ResubmitBudget(f, E, s.chassis, s.p, v);
    case Sent(_, _) => SentBudget(f, s, v, t);
    case Dropped =>
  }

  /** A pass through one logical switch: nothing before the last state is in a router. */
  ghost predicate SwitchTrace(f: Fabric, states: seq<State>) {
    Trace(f, states) && forall i :: 0 <= i < |states| - 1 ==> states[i].At? && InSwitch(states[i].p)
  }

  lemma {:induction false} TraceSpends(f: Fabric, E: set<Props>, states: seq<State>)
    requires FabricOk(f) && Agree(f, E) && SwitchTrace(f, states) && OnceInv(f, states[0])
    ensures Spent(f, states[|states| - 1]) <= Spent(f, states[0])
    decreases |states|
  {
    hide FabricOk, Agree, OnceInv, Move, Spent, InSwitch;
    if |states| > 1 {
      var init := states[..|states| - 1];
      TraceSpends(f, E, init);
      TraceKeepsOnce(f, init);
      MoveSpends(f, E, init[|init| - 1], states[|states| - 1]);
    }
  }

  /** One logical-switch traversal crosses at most two tunnels, whatever BFD reports. */
  lemma TwoTunnels(f: Fabric, E: set<Props>, states: seq<State>)
    requires FabricOk(f) && Agree(f, E) && SwitchTrace(f, states)
    requires states[0].At? && states[0].chassis in f && states[0].tunnels == 0 && states[0].redirects == 0
    requires !states[0].p.reg5 && states[0].p.table <= TABLE_LOOKUP_DST_PORT
    ensures forall s :: s in states ==> s.tunnels <= 2
  {
    hide FabricOk, Agree, Move, Resolved, Extract, HasRedirect, LocalPort, PointsHome;
    forall i | 0 <= i < |states| ensures states[i].tunnels <= 2 {
      TraceSpends(f, E, states[..i + 1]);
    }
  }

  /** The chassis changes between state i and the next one. */
  predicate HopsAt(states: seq<State>, i: nat) {
    i + 1 < |states| && states[i].At? && states[i + 1].At? && states[i].chassis != states[i + 1].chassis
  }

  lemma HopCounts(f: Fabric, states: seq<State>, i: nat, j: nat)
    requires Trace(f, states) && i < j < |states| && HopsAt(states, i)
    ensures states[j].tunnels >= states[i].tunnels + 1
  {
    hide Move;
    MoveCounts(f, states[i], states[i + 1]);
    CountsGrow(f, states, i + 1, j);
  }

  /** The same in terms of the trace alone: the chassis changes at most twice. */
  lemma TwoHops(f: Fabric, E: set<Props>, states: seq<State>, i: nat, j: nat, k: nat)
    requires FabricOk(f) && Agree(f, E) && SwitchTrace(f, states)
    requires states[0].At? && states[0].chassis in f && states[0].tunnels == 0 && states[0].redirects == 0
    requires !states[0].p.reg5 && states[0].p.table <= TABLE_LOOKUP_DST_PORT
    requires i < j < k && HopsAt(states, i) && HopsAt(states, j)
    ensures !HopsAt(states, k)
  {
    hide FabricOk, Agree, Move, InSwitch;
    TwoTunnels(f, E, states);
    if HopsAt(states, k) {
      CountsGrow(f, states, 0, i);
      HopCounts(f, states, i, j);
      HopCounts(f, states, j, k);
      HopCounts(f, states, k, k + 1);
    }
  }

  // ----- The traversal ends -----

  predicate TtlFits(p: Packet) {
    p.proto.Ip? ==> p.proto.ttl < 256
  }

  const MAX_FUEL := 0x1_0000

  lemma FuelFits(n: Host, p: Packet)
    requires TtlFits(p)
    ensures Fuel(n, p) < MAX_FUEL
  {
    hide Resolved;
  }

  lemma SwitchKeepsTtl(n: Host, p: Packet, v: Verdict)
    requires Step(n, p, v) && TtlFits(p) && p.table <= TABLE_PUSHOUT
    ensures v.Resubmit? ==> TtlFits(v.next)
    ensures v.Sent? ==> TtlFits(v.sent)
  {
    hide RouterIngressStep, RoutingStep, RouterEgressStep, MiddleStep, HasBond, HasRemote, HasFlow, Flow, KnownSwitch,
      NatHit, PatchHit, SetRedirect, SetLoopback, HasRedirect, LowMoved;
  }

  lemma RouterKeepsTtl(n: Host, p: Packet, v: Verdict)
    requires Step(n, p, v) && TtlFits(p) && p.table > TABLE_PUSHOUT
    ensures v.Resubmit? ==> TtlFits(v.next)
    ensures v.Sent? ==> TtlFits(v.sent)
  {
    if 33 <= p.table < TABLE_HANDLE_UNKNOWN { RoutingRewrites(n, p, v); }
    hide RoutingStep, EnterStep, SwitchIngressStep, LookupStep, OutputStep, SwitchEgressStep, KnownRouter,
      SetRedirect, SetLoopback, SetNat, HasRedirect, LeavesBy, PatchOpposite, GatewayPort;
  }

  lemma StepKeepsTtl(n: Host, p: Packet, v: Verdict)
    requires Step(n, p, v) && TtlFits(p)
    ensures v.Resubmit? ==> TtlFits(v.next)
    ensures v.Sent? ==> TtlFits(v.sent)
  {
    hide Step, TtlFits;
    if p.table <= TABLE_PUSHOUT { SwitchKeepsTtl(n, p, v); } else { RouterKeepsTtl(n, p, v); }
  }

  ghost function Left(f: Fabric, s: State): int {
    if s.At? && s.chassis in f then (2 - s.tunnels) * MAX_FUEL + Fuel(f[s.chassis], s.p) else -MAX_FUEL
  }

  lemma MoveProgresses(f: Fabric, s: State, t: State)
    requires s.At? && s.chassis in f && TtlFits(s.p) && s.tunnels <= 2 && Move(f, s, t)
    ensures Left(f, t) < Left(f, s) && (t.At? ==> t.chassis in f && TtlFits(t.p))
  {
    var n := f[s.chassis];
    var v :| Step(n, s.p, v) && Follows(f, s, v, t);
    StepKeepsTtl(n, s.p, v);
    if v.Resubmit? {
      StepBurnsFuel(n, s.p, v);
    } else if t.At? {
      FuelFits(f[t.chassis], t.p);
    }
    hide Step, Fuel, TunnelTo;
  }

  lemma {:induction false} TracePays(f: Fabric, states: seq<State>)
    requires Trace(f, states) && states[0].At? && states[0].chassis in f && TtlFits(states[0].p)
    requires forall s :: s in states ==> s.tunnels <= 2
    ensures |states| + Left(f, states[|states| - 1]) <= 1 + Left(f, states[0])
    ensures var last := states[|states| - 1]; last.At? ==> last.chassis in f && TtlFits(last.p)
    decreases |states|
  {
    hide Left, TtlFits;
    if |states| > 1 {
      var init := states[..|states| - 1];
      TracePays(f, init);
      MoveProgresses(f, init[|init| - 1], states[|states| - 1]);
    }
  }

  /** The traversal is over after a bounded number of flow matches on all chassis together. */
  lemma TraversalEnds(f: Fabric, E: set<Props>, states: seq<State>)
    requires FabricOk(f) && Agree(f, E) && SwitchTrace(f, states)
    requires states[0].At? && states[0].chassis in f && states[0].tunnels == 0 && states[0].redirects == 0
    requires !states[0].p.reg5 && states[0].p.table <= TABLE_LOOKUP_DST_PORT && TtlFits(states[0].p)
    ensures |states| <= 4 * MAX_FUEL
  {
    TwoTunnels(f, E, states);
    TracePays(f, states);
    FuelFits(f[states[0].chassis], states[0].p);
    hide Fuel, TtlFits, Agree, FabricOk, SwitchTrace, Move;
  }

  // ----- Without agreement a packet bounces -----

  /** A chassis that believes port "p" of switch 7 to be on `other`. */
  function Believer(sys: Uuid, other: Uuid): Host {
    Host(sys,
         {Atom(Ls("s", 7), 0), Atom(Lsp("p", 10, "m", "s", Some(other), None), 0),
          Atom(Chassis(other, 1, 1), 0), Atom(OvsPort("t", other, 5, true), 0)},
         PipelineOptions(false, false, true, None))
  }

  lemma BelieverHasNoLocalFlow(n: Host, dp: nat, m: Match, mac: string)
    requires forall a :: a in n.facts ==> !a.props.Lrp? && (a.props.OvsPort? ==> a.props.remote)
    ensures !HasFlow(n, TABLE_LOOKUP_DST_PORT, 4, dp, m) && (forall l :: !NatHit(n, dp, mac, l))
    ensures !HasFlow(n, TABLE_FORWARD_PACKET, 3, dp, m) && !HasFlow(n, TABLE_FORWARD_PACKET, 2, dp, m)
    ensures forall b :: !HasBond(n, b)
  {
    forall d, k, a | DerivedBy(n.facts, n.sys, d, k, a) ensures d.LookupRemoteLsp? {
      OverParts(d, n.facts);
    }
    hide Over, LinkOk, BondOk, RemoteOk, HopOk, MacOfIp;
  }

  lemma BelieverSends(sys: Uuid, other: Uuid)
    ensures var n := Believer(sys, other);
      Flow(n, TABLE_LOOKUP_DST_PORT, 3, 7, EthDst("m"), SendRemote(10, 5)) && TunnelTo(n, 5, other)
  {
    var n := Believer(sys, other);
    var r := Remote(Atom(OvsPort("t", other, 5, true), 0), Atom(Chassis(other, 1, 1), 0));
    var d := LookupRemoteLsp(Atom(Lsp("p", 10, "m", "s", Some(other), None), 0), Atom(Ls("s", 7), 0), r);
    assert Joins(d, sys) && Over(d, n.facts);
    assert DerivedBy(n.facts, sys, d, FlowKey(TABLE_LOOKUP_DST_PORT, 3, 7, EthDst("m")), SendRemote(10, 5));
    assert HasRemote(n, r);
  }

  function Disagreeing(): Fabric {
    map["A" := Believer("A", "B"), "B" := Believer("B", "A")]
  }

  /** The frame as it comes out of either tunnel: port 10 of switch 7, flags 5. */
  function Bouncer(table: nat): Packet {
    Packet(table, 5, 7, 10 * 0x1_0000 + 5 * 0x1_0000_0000, Ip(false, 64, 1, 2), "s", "m",
           if table == TABLE_CONVERT_PHY_LOGICAL then 0 else 7, 0,
           if table == TABLE_CONVERT_PHY_LOGICAL then 0 else 10, 0, 0, false, 0, 0,
           if table == TABLE_CONVERT_PHY_LOGICAL then 0 else 5)
  }

  function LateBouncer(): Packet {
    Bouncer(22).(inPort := OFPORT_NONE)
  }

  lemma BounceEnters(sys: Uuid, other: Uuid)
    ensures Step(Believer(sys, other), Bouncer(0), Resubmit(Bouncer(99)))
  {
    var n, p := Believer(sys, other), Bouncer(0);
    BelieverSends(sys, other);
    MetaFields(0, 10, 5);
    assert Extract(p).(flags := SetLoopback(Extract(p).flags), table := TABLE_PIPELINE_FORWARD) == Bouncer(99);
    var r :| HasRemote(n, r) && r.port.props.ofport == 5;
    hide HasRemote, HasBond, Believer, Extract, SetLoopback;
  }

  lemma BounceArrives(sys: Uuid, other: Uuid)
    ensures var n := Believer(sys, other);
      Step(n, Bouncer(99), Resubmit(Bouncer(20))) && Step(n, Bouncer(20), Resubmit(Bouncer(21))) &&
      Step(n, Bouncer(21), Resubmit(LateBouncer()))
  {
    var n := Believer(sys, other);
    assert Atom(Ls("s", 7), 0) in n.facts;
    assert KnownSwitch(n, 7);
    hide Believer, KnownSwitch;
  }

  lemma BelieverKnows(sys: Uuid, other: Uuid)
    ensures var n := Believer(sys, other);
      KnownSwitch(n, 7) && n.sys == sys && n.opts == PipelineOptions(false, false, true, None) &&
      forall a :: a in n.facts ==> !a.props.Lrp? && (a.props.OvsPort? ==> a.props.remote)
  {
    assert Atom(Ls("s", 7), 0) in Believer(sys, other).facts;
  }

  lemma BounceLeaves(sys: Uuid, other: Uuid)
    ensures var n, p := Believer(sys, other), LateBouncer();
      Step(n, p, Resubmit(p.(table := 6))) && Step(n, p.(table := 6), Resubmit(Towards(p, 10, 5))) &&
      Step(n, Towards(p, 10, 5), Sent(5, Towards(p, 10, 5)))
  {
    hide DerivedBy, NatHit, HasBond, HasRemote, Believer, TunnelTo;
    var n := Believer(sys, other);
    BelieverKnows(sys, other);
    BelieverSends(sys, other);
    BelieverHasNoLocalFlow(n, 7, RegDst(10), "m");
    BelieverHasNoLocalFlow(n, 7, EthDst("m"), "m");
  }

  /** The trace goes on with a resubmission of its last packet. */
  lemma Resubmits(f: Fabric, states: seq<State>, c: Uuid, p: Packet, q: Packet, k: nat) returns (longer: seq<State>)
    requires Trace(f, states) && states[|states| - 1] == At(c, p, k, 0)
    requires c in f && Step(f[c], p, Resubmit(q)) && p.table != TABLE_REDIRECT_CHASSIS
    ensures Trace(f, longer) && longer[0] == states[0] && longer[|longer| - 1] == At(c, q, k, 0)
  {
    hide Step;
    assert Follows(f, At(c, p, k, 0), Resubmit(q), At(c, q, k, 0));
    assert Move(f, At(c, p, k, 0), At(c, q, k, 0));
    hide Move;
    longer := states + [At(c, q, k, 0)];
  }

  lemma Tunnels(f: Fabric, states: seq<State>, c: Uuid, d: Uuid, p: Packet, port: nat, q: Packet, far: nat, k: nat)
    returns (longer: seq<State>)
    requires Trace(f, states) && states[|states| - 1] == At(c, p, k, 0)
    requires c in f && d in f && Step(f[c], p, Sent(port, q)) && p.table != TABLE_REDIRECT_CHASSIS
    requires TunnelTo(f[c], port, d) && TunnelTo(f[d], far, c)
    ensures Trace(f, longer) && longer[0] == states[0] && longer[|longer| - 1] == At(d, Arrive(q, far), k + 1, 0)
  {
    hide Step, TunnelTo;
    var t := At(d, Arrive(q, far), k + 1, 0);
    assert Crosses(f, c, d, q, k, 0, t);
    assert Follows(f, At(c, p, k, 0), Sent(port, q), t);
    assert Move(f, At(c, p, k, 0), t);
    hide Move;
    longer := states + [t];
  }

  lemma BouncersDiffer()
    ensures var p := LateBouncer();
      Arrive(Towards(p, 10, 5), 5) == Bouncer(0) && Bouncer(0).table == 0 && Bouncer(99).table == 99 &&
      Bouncer(20).table == 20 && Bouncer(21).table == 21 && p.table == 22 && Towards(p, 10, 5).table == 7
  {
  }

  /** One crossing, from the arrival on one chassis to the arrival on the other. */
  lemma Bounce(states: seq<State>, sys: Uuid, other: Uuid, k: nat) returns (longer: seq<State>)
    requires (sys == "A" && other == "B") || (sys == "B" && other == "A")
    requires Trace(Disagreeing(), states) && states[|states| - 1] == At(sys, Bouncer(0), k, 0)
    ensures Trace(Disagreeing(), longer) && longer[0] == states[0]
    ensures longer[|longer| - 1] == At(other, Bouncer(0), k + 1, 0)
  {
    var f, p := Disagreeing(), LateBouncer();
    assert sys in f && other in f && f[sys] == Believer(sys, other) && f[other] == Believer(other, sys);
    hide Believer, Disagreeing, Step, TunnelTo, Trace, Flow, Bouncer, LateBouncer, Towards, Arrive;
    BouncersDiffer();
    BounceEnters(sys, other);
    BounceArrives(sys, other);
    BounceLeaves(sys, other);
    BelieverSends(sys, other);
    BelieverSends(other, sys);
    longer := Resubmits(f, states, sys, Bouncer(0), Bouncer(99), k);
    longer := Resubmits(f, longer, sys, Bouncer(99), Bouncer(20), k);
    longer := Resubmits(f, longer, sys, Bouncer(20), Bouncer(21), k);
    longer := Resubmits(f, longer, sys, Bouncer(21), p, k);
    longer := Resubmits(f, longer, sys, p, p.(table := 6), k);
    longer := Resubmits(f, longer, sys, p.(table := 6), Towards(p, 10, 5), k);
    longer := Tunnels(f, longer, sys, other, Towards(p, 10, 5), 5, Towards(p, 10, 5), 5, k);
  }

  lemma BelieverPorts(sys: Uuid, other: Uuid)
    ensures PortsDistinct(Believer(sys, other)) && Believer(sys, other).sys == sys
  {
    var n := Believer(sys, other);
    assert forall a :: a in n.facts && a.props.OvsPort? ==> a.props == OvsPort("t", other, 5, true);
    assert n.opts.dsrPort == None;
    hide Believer;
  }

  lemma DisagreeingIsOk()
    ensures FabricOk(Disagreeing())
  {
    BelieverPorts("A", "B");
    BelieverPorts("B", "A");
    assert forall c :: c in Disagreeing() ==> c == "A" || c == "B";
    hide Believer, PortsDistinct;
  }

  /** Without agreement there is no bound: a packet bounces as often as one likes. */
  lemma {:induction false} BouncesForever(k: nat) returns (states: seq<State>)
    ensures FabricOk(Disagreeing()) && Trace(Disagreeing(), states) && states[0] == At("A", Bouncer(0), 0, 0)
    ensures states[|states| - 1] == At(if k % 2 == 0 then "A" else "B", Bouncer(0), k, 0)
  {
    DisagreeingIsOk();
    hide FabricOk;
    if k == 0 {
      states := [At("A", Bouncer(0), 0, 0)];
    } else {
      states := BouncesForever(k - 1);
      states := Bounce(states, if k % 2 == 1 then "A" else "B", if k % 2 == 1 then "B" else "A", k - 1);
    }
  }
}
