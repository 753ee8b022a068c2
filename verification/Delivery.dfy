// Where packets go: from a port of a switch to another port of it, on one chassis or
// through a tunnel; into a router and out of it; what a router answers itself.

module Delivery {
  import opened Common
  import opened Entities
  import opened FlowRules
  import opened FlowSync
  import opened Installed
  import opened Pipeline
  import opened Tunnel

  // ----- Runs without a choice -----

  /** The table answers with v and with nothing else. */
  ghost predicate OnlyStep(n: Host, p: Packet, v: Verdict) {
    Step(n, p, v) && forall w :: Step(n, p, w) ==> w == v
  }

  /** Every run from p ends with v, after at most k resubmissions. */
  ghost predicate Leads(n: Host, p: Packet, v: Verdict, k: nat)
    decreases k
  {
    OnlyStep(n, p, v) || (k > 0 && exists q :: OnlyStep(n, p, Resubmit(q)) && Leads(n, q, v, k - 1))
  }

  lemma Passes(n: Host, p: Packet, q: Packet, v: Verdict, k: nat)
    requires OnlyStep(n, p, Resubmit(q)) && Leads(n, q, v, k)
    ensures Leads(n, p, v, k + 1)
  {
    hide OnlyStep;
  }

  /** What Leads means for the runs of the pipeline. */
  lemma {:induction false} LeadsAlways(n: Host, path: seq<Packet>, v: Verdict, w: Verdict, k: nat)
    requires path != [] && Path(n, path) && Leads(n, path[0], v, k) && !v.Resubmit?
    requires Step(n, path[|path| - 1], w) && !w.Resubmit?
    ensures w == v && |path| <= k + 1
    decreases k
  {
    hide Step;
    if |path| > 1 {
      assert Step(n, path[0], Resubmit(path[1]));
      var q :| OnlyStep(n, path[0], Resubmit(q)) && Leads(n, q, v, k - 1);
      var rest := path[1..];
      forall i | 0 < i < |rest| ensures Step(n, rest[i - 1], Resubmit(rest[i])) {
        assert Step(n, path[i], Resubmit(path[i + 1]));
      }
      LeadsAlways(n, rest, v, w, k - 1);
    }
  }

  /** Frames are told apart by what a port can see of them. */
  predicate SameFrame(p: Packet, q: Packet) {
    p.proto == q.proto && p.ethSrc == q.ethSrc && p.ethDst == q.ethDst
  }

  // ----- Entities of one chassis -----

  lemma SameAtom(s: set<Atom>, a: Atom, b: Atom)
    requires NoClash(s, s) && a in s && b in s
    requires Clash(a, b)
    ensures a == b
  {
    hide Clash;
  }

  lemma ById(s: set<Atom>, a: Atom, b: Atom)
    requires NoClash(s, s) && a in s && b in s && IdOf(a.props) == IdOf(b.props)
    ensures a == b
  {
    hide NoClash, UniqueKeys;
    SameAtom(s, a, b);
  }

  lemma BySwitchId(s: set<Atom>, a: Atom, b: Atom)
    requires NoClash(s, s) && a in s && b in s && a.props.Ls? && b.props.Ls? && a.props.lsId == b.props.lsId
    ensures a == b
  {
    assert UniqueKeys(a.props)[0] in UniqueKeys(b.props);
    hide NoClash, UniqueKeys;
    SameAtom(s, a, b);
  }

  lemma ByMac(s: set<Atom>, a: Atom, b: Atom)
    requires NoClash(s, s) && a in s && b in s && a.props.Lsp? && b.props.Lsp?
    requires a.props.ls == b.props.ls && a.props.mac == b.props.mac
    ensures a == b
  {
    assert UniqueKeys(a.props)[1] in UniqueKeys(b.props);
    hide NoClash, UniqueKeys;
    SameAtom(s, a, b);
  }

  lemma ByLowBits(s: set<Atom>, a: Atom, b: Atom)
    requires NoClash(s, s) && a in s && b in s && a.props.Lsp? && b.props.Lsp?
    requires a.props.ls == b.props.ls && a.props.ip % 0x1_0000 == b.props.ip % 0x1_0000
    ensures a == b
  {
    hide NoClash, UniqueKeys;
    SameAtom(s, a, b);
  }

  lemma ByInterface(s: set<Atom>, a: Atom, b: Atom)
    requires NoClash(s, s) && a in s && b in s && a.props.OvsPort? && b.props.OvsPort?
    requires a.props.iface == b.props.iface && a.props.remote == b.props.remote
    ensures a == b
  {
    hide NoClash, UniqueKeys;
    SameAtom(s, a, b);
  }

  // ----- A switch hands a packet over -----

  lemma IsBond(n: Host, ls: Atom, lsp: Atom, port: Atom)
    ensures BoundHere(n.facts, n.sys, ls, lsp, port) <==> HasBond(n, Bond(lsp, ls, port))
  {
  }

  lemma Known(n: Host, ls: Atom)
    requires ls in n.facts && ls.props.Ls?
    ensures KnownSwitch(n, ls.props.lsId)
  {
  }

  /** Table 0: the port number stands for the port, and the port for its switch. */
  lemma EntersFromPort(n: Host, p: Packet, ls: Atom, lsp: Atom, port: Atom)
    requires NoClash(n.facts, n.facts) && PortsDistinct(n) && BoundHere(n.facts, n.sys, ls, lsp, port)
    requires p.table == 0 && p.inPort == port.props.ofport
    ensures OnlyStep(n, p, Resubmit(p.(src := lsp.props.ip % 0x1_0000, dp := ls.props.lsId, table := 1)))
  {
    hide NoClash;
    var v := Resubmit(p.(src := lsp.props.ip % 0x1_0000, dp := ls.props.lsId, table := 1));
    IsBond(n, ls, lsp, port);
    forall b | HasBond(n, b) && b.port.props.ofport == p.inPort ensures b.lsp == lsp && b.ls == ls {
      ById(n.facts, b.lsp, lsp);
      ById(n.facts, b.ls, ls);
    }
    assert Step(n, p, v);
  }

  /** Tables 1 to 5 clear the destination and let everything but ARP pass. */
  lemma IngressPasses(n: Host, p: Packet, v: Verdict, k: nat)
    requires KnownSwitch(n, p.dp) && p.table == 1 && !p.proto.Arp? && n.opts.dsrPort == None
    requires Leads(n, p.(dst := 0, table := 6), v, k)
    ensures Leads(n, p, v, k + 5)
  {
    var q := p.(dst := 0);
    IngressSteps(n, p);
    hide OnlyStep, Leads;
    Passes(n, q.(table := 5), q.(table := 6), v, k);
    Passes(n, q.(table := 4), q.(table := 5), v, k + 1);
    Passes(n, q.(table := 3), q.(table := 4), v, k + 2);
    Passes(n, q.(table := 2), q.(table := 3), v, k + 3);
    Passes(n, p, q.(table := 2), v, k + 4);
  }

  lemma IngressSteps(n: Host, p: Packet)
    requires KnownSwitch(n, p.dp) && p.table == 1 && !p.proto.Arp? && n.opts.dsrPort == None
    ensures var q := p.(dst := 0);
      OnlyStep(n, p, Resubmit(q.(table := 2))) && OnlyStep(n, q.(table := 2), Resubmit(q.(table := 3))) &&
      OnlyStep(n, q.(table := 3), Resubmit(q.(table := 4))) &&
      OnlyStep(n, q.(table := 4), Resubmit(q.(table := 5))) &&
      OnlyStep(n, q.(table := 5), Resubmit(q.(table := 6)))
  {
    hide EnterStep, LookupStep, OutputStep, SwitchEgressStep, RouterIngressStep, RoutingStep, RouterEgressStep,
      MiddleStep, KnownSwitch, SetLoopback;
    assert ArpFeedback(p.(dst := 0, table := 4), p.(dst := 0, table := 4));
  }

  /** Table 6: a port or a router of this host is found by its MAC. */
  lemma LooksUpLocally(n: Host, p: Packet, ls: Atom, lsp: Atom)
    requires NoClash(n.facts, n.facts) && LocalFlow(n.facts, n.sys, ls, lsp) && ls.props.Ls? && lsp.props.Lsp?
    requires p.table == 6 && p.dp == ls.props.lsId && p.ethDst == lsp.props.mac
    requires forall l :: !NatHit(n, p.dp, p.ethDst, l)
    ensures OnlyStep(n, p, Resubmit(p.(dst := lsp.props.ip % 0x1_0000, table := 7)))
  {
    var k := FlowKey(6, 4, p.dp, EthDst(p.ethDst));
    assert LocalLookup(n.facts, n.sys, ls, lsp, k, LoadDst(lsp.props.ip % 0x1_0000));
    LocalFlowIsUnique(n.facts, n.sys, ls, lsp, k);
    LocalLookupMeans(n.facts, n.sys, k, LoadDst(lsp.props.ip % 0x1_0000));
    hide LocalFlow, NatHit, Derived, PatchHit, KnownSwitch;
    assert Flow(n, 6, 4, p.dp, EthDst(p.ethDst), LoadDst(lsp.props.ip % 0x1_0000));
    forall a | Flow(n, 6, 4, p.dp, EthDst(p.ethDst), a) ensures a == LoadDst(lsp.props.ip % 0x1_0000) {
      FlowActions(n, k, a);
      LocalLookupMeans(n.facts, n.sys, k, a);
    }
  }

  lemma LocalFlowIsOnSwitch(s: set<Atom>, sys: Uuid, ls: Atom, lsp: Atom)
    requires LocalFlow(s, sys, ls, lsp)
    ensures ls in s && lsp in s && ls.props.Ls? && lsp.props.Lsp? && ls.props.uuid == lsp.props.ls
  {
  }

  lemma LocalFlowIsUnique(s: set<Atom>, sys: Uuid, ls: Atom, lsp: Atom, k: FlowKey)
    requires NoClash(s, s) && LocalFlow(s, sys, ls, lsp) && ls.props.Ls? && lsp.props.Lsp?
    requires k == FlowKey(6, 4, ls.props.lsId, EthDst(lsp.props.mac))
    ensures forall x, y, a :: LocalLookup(s, sys, x, y, k, a) ==> x == ls && y == lsp
  {
    hide NoClash;
    forall x, y, a | LocalLookup(s, sys, x, y, k, a) ensures x == ls && y == lsp {
      BySwitchId(s, x, ls);
      ByMac(s, y, lsp);
    }
  }

  /** Table 22: a port of this host is found by the low bits of its address. */
  lemma ForwardsToPort(n: Host, p: Packet, ls: Atom, lsp: Atom, port: Atom)
    requires NoClash(n.facts, n.facts) && BoundHere(n.facts, n.sys, ls, lsp, port)
    requires p.table == 22 && p.dp == ls.props.lsId && p.dst == lsp.props.ip % 0x1_0000
    ensures OnlyStep(n, p, Resubmit(p.(reg5 := true, outport := port.props.ofport, table := 23)))
  {
    var k, out := FlowKey(22, 3, p.dp, RegDst(p.dst)), PushOut(port.props.ofport);
    assert PortForward(n.facts, n.sys, ls, lsp, port, k, out);
    PushOutMeans(n.facts, n.sys, k, out);
    PortForwardIsUnique(n.facts, n.sys, ls, lsp, port, k);
    hide BoundHere, Derived, KnownSwitch, SetRedirect;
    assert Flow(n, 22, 3, p.dp, RegDst(p.dst), out);
    forall a | Flow(n, 22, 3, p.dp, RegDst(p.dst), a) ensures a == out {
      FlowActions(n, k, a);
      PushOutMeans(n.facts, n.sys, k, a);
    }
  }

  lemma PortForwardIsUnique(s: set<Atom>, sys: Uuid, ls: Atom, lsp: Atom, port: Atom, k: FlowKey)
    requires NoClash(s, s) && BoundHere(s, sys, ls, lsp, port)
    requires k == FlowKey(22, 3, ls.props.lsId, RegDst(lsp.props.ip % 0x1_0000))
    ensures forall x, y, z, a :: PortForward(s, sys, x, y, z, k, a) ==> a == PushOut(port.props.ofport)
  {
    hide NoClash;
    forall x, y, z, a | PortForward(s, sys, x, y, z, k, a) ensures a == PushOut(port.props.ofport) {
      BySwitchId(s, x, ls);
      ByLowBits(s, y, lsp);
      ByInterface(s, z, port);
    }
  }

  /** The interface number that a table before 22 leaves behind. */
  function Looped(p: Packet): Packet {
    p.(inPort := if p.flags % 2 == 1 then OFPORT_NONE else p.inPort)
  }

  lemma EgressSteps(n: Host, p: Packet)
    requires KnownSwitch(n, p.dp) && p.table == 20
    ensures OnlyStep(n, p, Resubmit(p.(table := 21)))
    ensures OnlyStep(n, p.(table := 21), Resubmit(Looped(p).(table := 22)))
  {
    hide EnterStep, SwitchIngressStep, LookupStep, OutputStep, ForwardStep, RouterIngressStep, RoutingStep,
      RouterEgressStep, MiddleStep, KnownSwitch;
  }

  lemma PushesOut(n: Host, p: Packet)
    requires KnownSwitch(n, p.dp) && p.table == 23 && p.reg5 && p.outport != OFPORT_NONE
    ensures OnlyStep(n, p, Sent(p.outport, p))
  {
    hide EnterStep, SwitchIngressStep, LookupStep, OutputStep, ForwardStep, RouterIngressStep, RoutingStep,
      RouterEgressStep, MiddleStep, KnownSwitch;
  }

  /** Tables 20 to 23: the packet leaves by the interface of its destination. */
  lemma EgressDelivers(n: Host, p: Packet, ls: Atom, lsp: Atom, port: Atom)
    requires NoClash(n.facts, n.facts) && BoundHere(n.facts, n.sys, ls, lsp, port)
    requires p.table == 20 && p.dp == ls.props.lsId && p.dst == lsp.props.ip % 0x1_0000
    requires port.props.ofport != OFPORT_NONE
    ensures var q := Looped(p).(reg5 := true, outport := port.props.ofport, table := 23);
      Leads(n, p, Sent(port.props.ofport, q), 3)
  {
    Known(n, ls);
    var r := Looped(p).(table := 22);
    var q := r.(reg5 := true, outport := port.props.ofport, table := 23);
    EgressSteps(n, p);
    ForwardsToPort(n, r, ls, lsp, port);
    PushesOut(n, q);
    hide OnlyStep, NoClash;
    assert Leads(n, q, Sent(port.props.ofport, q), 0);
    hide Leads;
    Passes(n, r, q, Sent(port.props.ofport, q), 0);
    Passes(n, p.(table := 21), r, Sent(port.props.ofport, q), 1);
    Passes(n, p, p.(table := 21), Sent(port.props.ofport, q), 2);
  }

  lemma StaysOnHost(n: Host, p: Packet)
    requires KnownSwitch(n, p.dp) && p.table == 7 && !p.reg5
    ensures OnlyStep(n, p, Resubmit(p.(table := 20)))
  {
    hide EnterStep, SwitchIngressStep, LookupStep, SwitchEgressStep, RouterIngressStep, RoutingStep, RouterEgressStep,
      MiddleStep, KnownSwitch;
  }

  /** From the ingress of a switch to its egress. */
  lemma CrossesSwitch(n: Host, p: Packet, ls: Atom, to: Atom, v: Verdict, k: nat)
    requires NoClash(n.facts, n.facts) && LocalFlow(n.facts, n.sys, ls, to) && ls.props.Ls? && to.props.Lsp?
    requires p.table == 1 && p.dp == ls.props.lsId && !p.reg5 && n.opts.dsrPort == None
    requires p.ethDst == to.props.mac && !p.proto.Arp? && forall l :: !NatHit(n, p.dp, p.ethDst, l)
    requires Leads(n, p.(dst := to.props.ip % 0x1_0000, table := 20), v, k)
    ensures Leads(n, p, v, k + 7)
  {
    LocalFlowIsOnSwitch(n.facts, n.sys, ls, to);
    Known(n, ls);
    var r := p.(dst := 0, table := 6);
    var t := r.(dst := to.props.ip % 0x1_0000, table := 7);
    LooksUpLocally(n, r, ls, to);
    StaysOnHost(n, t);
    hide OnlyStep, NoClash, NatHit, LocalFlow, KnownSwitch, Leads;
    Passes(n, t, t.(table := 20), v, k);
    Passes(n, r, t, v, k + 1);
    IngressPasses(n, p, v, k + 2);
  }

  /** From the port that the packet comes from to the egress of its switch. */
  lemma ReachesEgress(
    n: Host, p: Packet, ls: Atom, from: Atom, port: Atom, to: Atom, v: Verdict, k: nat)
    requires NoClash(n.facts, n.facts) && PortsDistinct(n) && BoundHere(n.facts, n.sys, ls, from, port)
    requires LocalFlow(n.facts, n.sys, ls, to) && to.props.Lsp? && n.opts.dsrPort == None
    requires Entering(p) && p.inPort == port.props.ofport && p.ethDst == to.props.mac && !p.proto.Arp?
    requires forall l :: !NatHit(n, ls.props.lsId, p.ethDst, l)
    requires Leads(n, p.(src := from.props.ip % 0x1_0000, dp := ls.props.lsId, dst := to.props.ip % 0x1_0000,
      table := 20), v, k)
    ensures Leads(n, p, v, k + 8)
  {
    var q := p.(src := from.props.ip % 0x1_0000, dp := ls.props.lsId, table := 1);
    EntersFromPort(n, p, ls, from, port);
    hide OnlyStep, NoClash, PortsDistinct, NatHit, LocalFlow, BoundHere, Leads;
    CrossesSwitch(n, q, ls, to, v, k);
    Passes(n, p, q, v, k + 7);
  }

  /** One switch, one chassis: a frame for the MAC of another port leaves by the interface of
      that port as it came, whatever else is installed. */
  lemma LocalDelivery(n: Host, p: Packet, ls: Atom, from: Atom, port: Atom, to: Atom, out: Atom)
    requires NoClash(n.facts, n.facts) && PortsDistinct(n) && BoundHere(n.facts, n.sys, ls, from, port)
    requires BoundHere(n.facts, n.sys, ls, to, out) && out.props.ofport != OFPORT_NONE && n.opts.dsrPort == None
    requires Entering(p) && p.inPort == port.props.ofport && p.ethDst == to.props.mac && !p.proto.Arp?
    requires forall l :: !NatHit(n, ls.props.lsId, p.ethDst, l)
    ensures exists q :: Leads(n, p, Sent(out.props.ofport, q), 11) && SameFrame(p, q)
  {
    assert ls.props.Ls? && from.props.Lsp? && to.props.Lsp? && LocalFlow(n.facts, n.sys, ls, to);
    hide OnlyStep, NoClash, PortsDistinct, NatHit, LocalFlow, BoundHere, Leads;
    var q := p.(src := from.props.ip % 0x1_0000, dp := ls.props.lsId, dst := to.props.ip % 0x1_0000, table := 20);
    var r := Looped(q).(reg5 := true, outport := out.props.ofport, table := 23);
    EgressDelivers(n, q, ls, to, out);
    ReachesEgress(n, p, ls, from, port, to, Sent(out.props.ofport, r), 3);
  }

  // ----- Through a tunnel -----

  /** Table 6: a port of another chassis is found by its MAC when it is not local. */
  lemma LooksUpRemotely(n: Host, p: Packet, ls: Atom, to: Atom, tun: Atom, chassis: Atom)
    requires NoClash(n.facts, n.facts) && RemoteFlow(n.facts, n.sys, ls, to, tun, chassis)
    requires !LocalFlow(n.facts, n.sys, ls, to) && !n.opts.redirect
    requires p.table == 6 && p.dp == ls.props.lsId && p.ethDst == to.props.mac
    requires forall l :: !NatHit(n, p.dp, p.ethDst, l)
    ensures OnlyStep(n, p, Resubmit(p.(dst := to.props.ip % 0x1_0000, outport := tun.props.ofport, reg5 := true,
      table := 7)))
  {
    var k := FlowKey(6, 3, p.dp, EthDst(p.ethDst));
    var out := SendRemote(to.props.ip % 0x1_0000, tun.props.ofport);
    assert RemoteLookup(n.facts, n.sys, ls, to, tun, chassis, k, out);
    RemoteLookupMeans(n.facts, n.sys, k, out);
    RemoteFlowIsUnique(n.facts, n.sys, ls, to, tun, chassis, k);
    NotFoundLocally(n, ls, to);
    hide LocalFlow, RemoteFlow, NatHit, Derived, PatchHit, KnownSwitch, NoClash;
    assert Flow(n, 6, 3, p.dp, EthDst(p.ethDst), out);
    forall a | Flow(n, 6, 3, p.dp, EthDst(p.ethDst), a) ensures a == out {
      FlowActions(n, k, a);
      RemoteLookupMeans(n.facts, n.sys, k, a);
    }
  }

  lemma NotFoundLocally(n: Host, ls: Atom, to: Atom)
    requires NoClash(n.facts, n.facts) && ls in n.facts && to in n.facts && ls.props.Ls? && to.props.Lsp?
    requires ls.props.uuid == to.props.ls && !LocalFlow(n.facts, n.sys, ls, to)
    ensures !HasFlow(n, 6, 4, ls.props.lsId, EthDst(to.props.mac))
  {
    var k := FlowKey(6, 4, ls.props.lsId, EthDst(to.props.mac));
    forall x, y, a | LocalLookup(n.facts, n.sys, x, y, k, a) ensures false {
      LocalFlowIsOnSwitch(n.facts, n.sys, x, y);
      hide LocalFlow;
      BySwitchId(n.facts, x, ls);
      ByMac(n.facts, y, to);
    }
    hide LocalLookup, NoClash, LocalFlow;
    forall a | Flow(n, 6, 4, ls.props.lsId, EthDst(to.props.mac), a) ensures false {
      FlowActions(n, k, a);
      LocalLookupMeans(n.facts, n.sys, k, a);
    }
  }

  lemma RemoteFlowIsUnique(s: set<Atom>, sys: Uuid, ls: Atom, to: Atom, tun: Atom, chassis: Atom, k: FlowKey)
    requires NoClash(s, s) && RemoteFlow(s, sys, ls, to, tun, chassis)
    requires k == FlowKey(6, 3, ls.props.lsId, EthDst(to.props.mac))
    ensures forall x, y, z, w, a :: RemoteLookup(s, sys, x, y, z, w, k, a) ==>
              a == SendRemote(to.props.ip % 0x1_0000, tun.props.ofport)
  {
    forall x, y, z, w, a | RemoteLookup(s, sys, x, y, z, w, k, a)
      ensures a == SendRemote(to.props.ip % 0x1_0000, tun.props.ofport)
    {
      hide NoClash, Joined;
      BySwitchId(s, x, ls);
      ByMac(s, y, to);
      OneChassis(s, sys, ls, to, tun, chassis, z, w);
      ByInterface(s, z, tun);
    }
  }

  /** The chassis of a port is its own, or the one of the only router that it leads to. */
  lemma OneChassis(
    s: set<Atom>, sys: Uuid, ls: Atom, lsp: Atom, port: Atom, chassis: Atom, far: Atom, other: Atom)
    requires NoClash(s, s)
    requires RemoteFlow(s, sys, ls, lsp, port, chassis) && RemoteFlow(s, sys, ls, lsp, far, other)
    ensures chassis.props.uuid == other.props.uuid
  {
    hide NoClash;
    if lsp.props.peer.Some? {
      var lrp, lr :| Joined(s, sys, ls, lsp, lrp, lr) && lr.props.lrChassis == Some(chassis.props.uuid);
      var lrp', lr' :| Joined(s, sys, ls, lsp, lrp', lr') && lr'.props.lrChassis == Some(other.props.uuid);
      ById(s, lrp, lrp');
      ById(s, lr, lr');
    }
  }

  /** Table 7: metadata is embedded, and the packet leaves by the port in reg4. */
  lemma SendsOut(n: Host, p: Packet)
    requires KnownSwitch(n, p.dp) && p.table == 7 && p.reg5 && p.outport != OFPORT_NONE
    ensures OnlyStep(n, p, Sent(p.outport, Embed(p)))
  {
    hide EnterStep, SwitchIngressStep, LookupStep, SwitchEgressStep, RouterIngressStep, RoutingStep, RouterEgressStep,
      MiddleStep, KnownSwitch, HasRedirect;
    assert Embed(p).outport == p.outport;
    hide Embed;
  }

  /** From the port that the packet comes from into the tunnel of its destination. */
  lemma ReachesTunnel(
    n: Host, p: Packet, ls: Atom, from: Atom, port: Atom, to: Atom, tun: Atom, chassis: Atom)
    requires NoClash(n.facts, n.facts) && PortsDistinct(n) && BoundHere(n.facts, n.sys, ls, from, port)
    requires RemoteFlow(n.facts, n.sys, ls, to, tun, chassis) && !LocalFlow(n.facts, n.sys, ls, to)
    requires n.opts.dsrPort == None && !n.opts.redirect && tun.props.ofport != OFPORT_NONE
    requires Entering(p) && p.inPort == port.props.ofport && p.ethDst == to.props.mac && !p.proto.Arp?
    requires forall l :: !NatHit(n, ls.props.lsId, p.ethDst, l)
    ensures var q := p.(src := from.props.ip % 0x1_0000, dp := ls.props.lsId, dst := to.props.ip % 0x1_0000,
        outport := tun.props.ofport, reg5 := true, table := 7);
      Leads(n, p, Sent(tun.props.ofport, Embed(q)), 7)
  {
    Known(n, ls);
    var q := p.(src := from.props.ip % 0x1_0000, dp := ls.props.lsId, table := 1);
    var r := q.(dst := 0, table := 6);
    var t := r.(dst := to.props.ip % 0x1_0000, outport := tun.props.ofport, reg5 := true, table := 7);
    var v := Sent(tun.props.ofport, Embed(t));
    EntersFromPort(n, p, ls, from, port);
    LooksUpRemotely(n, r, ls, to, tun, chassis);
    SendsOut(n, t);
    hide OnlyStep, NoClash, PortsDistinct, NatHit, LocalFlow, RemoteFlow, BoundHere, KnownSwitch, Embed;
    assert Leads(n, t, v, 0);
    hide Leads;
    Passes(n, r, t, v, 0);
    IngressPasses(n, q, v, 1);
    Passes(n, p, q, v, 6);
  }

  /** The tunnel port with this number leads to this chassis. */
  predicate TunnelBy(n: Host, port: nat, d: Uuid, tun: Atom, chassis: Atom) {
    TunnelIn(n.facts, tun, chassis) && tun.props.OvsPort? && tun.props.ofport == port &&
    chassis.props.Chassis? && chassis.props.uuid == d
  }

  lemma TunnelMeans(n: Host, port: nat, d: Uuid)
    ensures TunnelTo(n, port, d) <==> exists tun, chassis :: TunnelBy(n, port, d, tun, chassis)
  {
    if r :| HasRemote(n, r) && r.port.props.ofport == port && r.chassis.props.uuid == d {
      assert TunnelBy(n, port, d, r.port, r.chassis);
    }
    forall tun, chassis | TunnelIn(n.facts, tun, chassis) ensures HasRemote(n, Remote(tun, chassis)) {
    }
  }

  /** What a tunnel carries: the frame and the metadata. */
  predicate Carries(q: Packet, p: Packet) {
    p.tunId == q.tunId && p.tunMeta == q.tunMeta && SameFrame(q, p)
  }

  /** A packet changes the chassis only through a tunnel port of each towards the other, and
      arrives with nothing but its frame and its metadata. */
  lemma HopsByTunnel(f: Fabric, s: State, t: State)
    requires Move(f, s, t) && t.At? && t.chassis != s.chassis
    ensures t.chassis in f && TunnelTo(f[t.chassis], t.p.inPort, s.chassis)
    ensures exists o, q ::
      Step(f[s.chassis], s.p, Sent(o, q)) && TunnelTo(f[s.chassis], o, t.chassis) && Carries(q, t.p)
    ensures t.p.table == 0 && !t.p.reg5 && t.p.dp == t.p.src == t.p.dst == t.p.nextHop == t.p.outport == t.p.flags == 0
  {
    hide Step, TunnelTo;
    var v :| Step(f[s.chassis], s.p, v) && Follows(f, s, v, t);
  }

  /** Table 0: what comes out of a tunnel has its registers in the metadata. */
  lemma EntersFromTunnel(n: Host, p: Packet, c: Uuid)
    requires PortsDistinct(n) && TunnelTo(n, p.inPort, c) && p.table == 0
    ensures var q := Extract(p); OnlyStep(n, p, Resubmit(q.(flags := SetLoopback(q.flags), table := 99)))
  {
    LocalIsNoTunnel(n, p.inPort, c);
    hide Extract, SetLoopback, PortsDistinct;
    var q := Extract(p);
    assert EnterStep(n, p, Resubmit(q.(flags := SetLoopback(q.flags), table := 99)));
    forall b | HasBond(n, b) ensures b.port.props.ofport != p.inPort {
      assert !LocalPort(n, p.inPort);
    }
  }

  /** Table 99: a redirected packet without a destination MAC is routed again, any other goes
      to the egress of its switch. */
  lemma ArrivesIff(n: Host, p: Packet)
    requires p.table == 99
    ensures OnlyStep(n, p,
              if p.proto.Ip? && p.ethDst == "00:00:00:00:00:00" && p.flags / 4 % 2 == 1
              then Resubmit(p.(table := 37)) else Resubmit(p.(table := 20)))
  {
    hide EnterStep, SwitchIngressStep, LookupStep, OutputStep, SwitchEgressStep, RouterIngressStep, RoutingStep,
      RouterEgressStep, RedirectStep;
  }

  /** Table 0: a packet from a port that is neither bound nor a tunnel is dropped. */
  lemma UnknownPortIsDropped(n: Host, p: Packet)
    requires p.table == 0
    requires forall ls, lsp, port :: BoundHere(n.facts, n.sys, ls, lsp, port) ==> port.props.ofport != p.inPort
    requires forall tun, chassis :: TunnelIn(n.facts, tun, chassis) ==> tun.props.ofport != p.inPort
    ensures OnlyStep(n, p, Dropped)
  {
    forall b | HasBond(n, b) ensures b.port.props.ofport != p.inPort {
      IsBond(n, b.ls, b.lsp, b.port);
      assert BoundHere(n.facts, n.sys, b.ls, b.lsp, b.port);
    }
    forall r | HasRemote(n, r) ensures r.port.props.ofport != p.inPort {
      assert TunnelIn(n.facts, r.port, r.chassis);
    }
    hide HasBond, HasRemote, BoundHere, TunnelIn, Extract, SetLoopback;
    assert EnterStep(n, p, Dropped);
  }

  /** The far end of a tunnel: the destination that was embedded is where the packet leaves. */
  lemma ArrivalDelivers(n: Host, q: Packet, far: nat, c: Uuid, ls: Atom, to: Atom, out: Atom)
    requires NoClash(n.facts, n.facts) && PortsDistinct(n) && BoundHere(n.facts, n.sys, ls, to, out)
    requires TunnelTo(n, far, c) && out.props.ofport != OFPORT_NONE && q.ethDst != "00:00:00:00:00:00"
    requires q.dp == ls.props.lsId < 0x100_0000 && q.dst == to.props.ip % 0x1_0000
    ensures exists r :: Leads(n, Arrive(Embed(q), far), Sent(out.props.ofport, r), 5) && SameFrame(q, r)
  {
    hide OnlyStep, Leads, NoClash, PortsDistinct, TunnelTo, SetLoopback, HasRedirect;
    assert ls.props.Ls? && to.props.Lsp? && out.props.OvsPort?;
    hide BoundHere;
    var p := Arrive(Embed(q), far);
    EmbedExtract(q, far);
    var e := Extract(p);
    assert SameFrame(q, e) && e.dp == ls.props.lsId && e.dst == to.props.ip % 0x1_0000;
    hide Extract, Embed;
    EntersFromTunnel(n, p, c);
    var t := e.(flags := SetLoopback(e.flags), table := 99);
    var r := Looped(t).(reg5 := true, outport := out.props.ofport, table := 23);
    ArrivesIff(n, t);
    EgressDelivers(n, t.(table := 20), ls, to, out);
    Passes(n, t, t.(table := 20), Sent(out.props.ofport, r), 3);
    Passes(n, p, t, Sent(out.props.ofport, r), 4);
  }

  /** One switch, two chassis: a frame for the MAC of a port that is bound on the other chassis goes
      through the tunnel to it and leaves there by the interface of that port as it came. */
  lemma RemoteDelivery(
    n: Host, m: Host, p: Packet, ls: Atom, from: Atom, port: Atom, to: Atom, tun: Atom, chassis: Atom,
    far: nat, farLs: Atom, farTo: Atom, out: Atom)
    requires NoClash(n.facts, n.facts) && PortsDistinct(n) && NoClash(m.facts, m.facts) && PortsDistinct(m)
    requires BoundHere(n.facts, n.sys, ls, from, port) && RemoteFlow(n.facts, n.sys, ls, to, tun, chassis)
    requires BoundHere(m.facts, m.sys, farLs, farTo, out) && farLs.props == ls.props && farTo.props == to.props
    requires n.sys != m.sys && n.opts.dsrPort == None && !n.opts.redirect && to.props.peer.None?
    requires TunnelTo(m, far, n.sys) && tun.props.ofport != OFPORT_NONE && out.props.ofport != OFPORT_NONE
    requires Entering(p) && p.inPort == port.props.ofport && !p.proto.Arp?
    requires p.ethDst == to.props.mac != "00:00:00:00:00:00" && ls.props.lsId < 0x100_0000
    requires forall l :: !NatHit(n, ls.props.lsId, p.ethDst, l)
    ensures TunnelTo(n, tun.props.ofport, m.sys)
    ensures exists q :: Leads(n, p, Sent(tun.props.ofport, q), 7) && SameFrame(p, q) &&
              exists r :: Leads(m, Arrive(q, far), Sent(out.props.ofport, r), 5) && SameFrame(p, r)
  {
    IsBoundElsewhere(n, m, ls, to, tun, chassis, farLs, farTo, out);
    var q := p.(src := from.props.ip % 0x1_0000, dp := ls.props.lsId, dst := to.props.ip % 0x1_0000,
      outport := tun.props.ofport, reg5 := true, table := 7);
    hide OnlyStep, NoClash, PortsDistinct, TunnelTo, Leads, NatHit, LocalFlow, BoundHere, RemoteFlow, Arrive;
    ReachesTunnel(n, p, ls, from, port, to, tun, chassis);
    assert SameFrame(p, Embed(q));
    hide Embed;
    ArrivalDelivers(m, q, far, n.sys, farLs, farTo, out);
    var r :| Leads(m, Arrive(Embed(q), far), Sent(out.props.ofport, r), 5) && SameFrame(q, r);
    assert SameFrame(p, r);
  }

  lemma IsBoundElsewhere(
    n: Host, m: Host, ls: Atom, to: Atom, tun: Atom, chassis: Atom, farLs: Atom, farTo: Atom, out: Atom)
    requires RemoteFlow(n.facts, n.sys, ls, to, tun, chassis) && to.props.peer.None? && n.sys != m.sys
    requires BoundHere(m.facts, m.sys, farLs, farTo, out) && farTo.props == to.props
    ensures !LocalFlow(n.facts, n.sys, ls, to) && TunnelTo(n, tun.props.ofport, m.sys)
  {
    assert HasRemote(n, Remote(tun, chassis));
  }

  // ----- Into a router -----

  lemma NotForwardedToPort(n: Host, ls: Atom, lsp: Atom)
    requires NoClash(n.facts, n.facts) && ls in n.facts && lsp in n.facts && ls.props.Ls? && lsp.props.Lsp?
    requires ls.props.uuid == lsp.props.ls && lsp.props.peer.Some? && lsp.props.ip != 0xffff_ffff
    ensures !HasFlow(n, 22, 3, ls.props.lsId, RegDst(lsp.props.ip % 0x1_0000))
  {
    var k := FlowKey(22, 3, ls.props.lsId, RegDst(lsp.props.ip % 0x1_0000));
    forall x, y, z, a | PortForward(n.facts, n.sys, x, y, z, k, a) ensures false {
      hide NoClash;
      BySwitchId(n.facts, x, ls);
      ByLowBits(n.facts, y, lsp);
    }
    hide PortForward, NoClash;
    forall a | Flow(n, 22, 3, ls.props.lsId, RegDst(lsp.props.ip % 0x1_0000), a) ensures false {
      FlowActions(n, k, a);
      PushOutMeans(n.facts, n.sys, k, a);
    }
  }

  lemma RouterForwardIsUnique(s: set<Atom>, sys: Uuid, ls: Atom, lsp: Atom, lrp: Atom, lr: Atom, k: FlowKey)
    requires NoClash(s, s) && Joined(s, sys, ls, lsp, lrp, lr)
    requires k == FlowKey(22, 2, ls.props.lsId, RegDst(lsp.props.ip % 0x1_0000))
    ensures forall x, y, z, w, a :: RouterForward(s, sys, x, y, z, w, k, a) ==>
              a == EnterRouter(lr.props.lrId, lrp.props.ip % 0x1_0000)
  {
    hide NoClash, RouterKnown;
    forall x, y, z, w, a | RouterForward(s, sys, x, y, z, w, k, a)
      ensures a == EnterRouter(lr.props.lrId, lrp.props.ip % 0x1_0000)
    {
      BySwitchId(s, x, ls);
      ByLowBits(s, y, lsp);
      ById(s, z, lrp);
      ById(s, w, lr);
    }
  }

  /** Table 22: the end of a link leads to its router. */
  lemma ForwardsToRouter(n: Host, p: Packet, ls: Atom, lsp: Atom, lrp: Atom, lr: Atom)
    requires NoClash(n.facts, n.facts) && Joined(n.facts, n.sys, ls, lsp, lrp, lr) && lsp.props.ip != 0xffff_ffff
    requires p.table == 22 && p.dp == ls.props.lsId && p.dst == lsp.props.ip % 0x1_0000
    ensures OnlyStep(n, p, Resubmit(p.(reg6 := lr.props.lrId, reg7 := lrp.props.ip % 0x1_0000, table := 23)))
  {
    var k, out := FlowKey(22, 2, p.dp, RegDst(p.dst)), EnterRouter(lr.props.lrId, lrp.props.ip % 0x1_0000);
    assert RouterForward(n.facts, n.sys, ls, lsp, lrp, lr, k, out);
    EnterRouterMeans(n.facts, n.sys, k, out);
    RouterForwardIsUnique(n.facts, n.sys, ls, lsp, lrp, lr, k);
    NotForwardedToPort(n, ls, lsp);
    hide Joined, Derived, KnownSwitch, SetRedirect, NoClash;
    assert Flow(n, 22, 2, p.dp, RegDst(p.dst), out);
    forall a | Flow(n, 22, 2, p.dp, RegDst(p.dst), a) ensures a == out {
      FlowActions(n, k, a);
      EnterRouterMeans(n.facts, n.sys, k, a);
    }
  }

  /** Table 23: the low 24 bits of the datapath become the router's id. */
  lemma MovesToRouter(n: Host, p: Packet)
    requires KnownSwitch(n, p.dp) && p.table == 23 && !p.reg5
    ensures OnlyStep(n, p, Resubmit(p.(dp := p.dp - p.dp % 0x100_0000 + p.reg6 % 0x100_0000, src := p.reg7,
              reg6 := 0, reg7 := 0, table := 30)))
  {
    assert LowMoved(p.dp, p.reg6) == p.dp - p.dp % 0x100_0000 + p.reg6 % 0x100_0000;
    hide EnterStep, SwitchIngressStep, LookupStep, OutputStep, ForwardStep, RouterIngressStep, RoutingStep,
      RouterEgressStep, MiddleStep, KnownSwitch, LowMoved;
  }

  /** A packet that the lookup resolved to the end of a link enters the router with the id of
      the router as its datapath and the id of the router's port as its source. */
  lemma EntersRouter(n: Host, p: Packet, ls: Atom, lsp: Atom, lrp: Atom, lr: Atom)
    requires NoClash(n.facts, n.facts) && Joined(n.facts, n.sys, ls, lsp, lrp, lr) && lsp.props.ip != 0xffff_ffff
    requires p.table == 20 && p.dp == ls.props.lsId < 0x100_0000 && p.dst == lsp.props.ip % 0x1_0000 && !p.reg5
    requires lr.props.lrId < 0x100_0000
    ensures var q := Looped(p).(dp := lr.props.lrId, src := lrp.props.ip % 0x1_0000, reg6 := 0, reg7 := 0);
      OnlyStep(n, p, Resubmit(p.(table := 21))) && OnlyStep(n, p.(table := 21), Resubmit(Looped(p).(table := 22))) &&
      exists r :: OnlyStep(n, Looped(p).(table := 22), Resubmit(r)) && OnlyStep(n, r, Resubmit(q.(table := 30)))
  {
    hide OnlyStep, NoClash, KnownSwitch, RouterKnown;
    Known(n, ls);
    EgressSteps(n, p);
    var r := Looped(p).(reg6 := lr.props.lrId, reg7 := lrp.props.ip % 0x1_0000, table := 23);
    ForwardsToRouter(n, Looped(p).(table := 22), ls, lsp, lrp, lr);
    MovesToRouter(n, r);
  }

  // ----- What a router answers itself -----

  /** The packet is an echo request for the address of a port of its router. */
  predicate Asked(n: Host, p: Packet, ls: Atom, lsp: Atom, lrp: Atom, lr: Atom) {
    Joined(n.facts, n.sys, ls, lsp, lrp, lr) && lr.props.lrId == p.dp &&
    p.proto.Ip? && p.proto.echoRequest && p.proto.dstIp == lrp.props.ip &&
    (n.opts.gateway && lr.props.lrChassis.Some? ==>
       exists c :: c in n.facts && c.props.Chassis? && lr.props.lrChassis == Some(c.props.uuid))
  }

  lemma AnswersMeans(n: Host, p: Packet)
    ensures (exists l :: Answers(n, p, l)) <==> exists ls, lsp, lrp, lr :: Asked(n, p, ls, lsp, lrp, lr)
  {
    if l :| Answers(n, p, l) {
      LinkIsJoined(n.facts, n.sys, l);
      assert Asked(n, p, l.ls, l.lsp, l.lrp, l.lr);
    }
    if ls, lsp, lrp, lr :| Asked(n, p, ls, lsp, lrp, lr) {
      var l := JoinedIsLink(n.facts, n.sys, ls, lsp, lrp, lr);
      assert Answers(n, p, l);
    }
  }

  /** The answer: addresses exchanged, TTL 255, no request any more, back to where it came from. */
  function Answer(p: Packet, own: nat): Packet
    requires p.proto.Ip?
  {
    p.(proto := Ip(false, 255, own, p.proto.srcIp), dst := p.src,
       flags := if p.flags % 2 == 1 then p.flags else p.flags + 1)
  }

  /** Table 31: a router answers exactly the echo requests for its own addresses, and lets
      every other IP packet pass. */
  lemma EchoIsAnsweredIff(n: Host, p: Packet)
    requires p.table == 31 && p.proto.Ip? && KnownRouter(n, p.dp)
    ensures OnlyStep(n, p, Resubmit(
              if exists ls, lsp, lrp, lr :: Asked(n, p, ls, lsp, lrp, lr)
              then Answer(p, p.proto.dstIp).(table := 32) else p.(table := 32)))
  {
    AnswersMeans(n, p);
    hide KnownRouter, Answers, EnterStep, SwitchIngressStep, LookupStep, OutputStep, SwitchEgressStep, RoutingStep,
      RouterEgressStep, MiddleStep;
  }

  // ----- Out of a router -----

  /** The port of the router that the packet is to leave by, and the switch behind it. */
  predicate Exit(n: Host, p: Packet, ls: Atom, lsp: Atom, lrp: Atom, lr: Atom) {
    Joined(n.facts, n.sys, ls, lsp, lrp, lr) && lr.props.lrId == p.dp && lrp.props.ip % 0x1_0000 == p.dst
  }

  /** Table 57: the packet goes to a switch behind the port, as if from the port's peer. */
  predicate Exits(n: Host, p: Packet, v: Verdict, ls: Atom, lsp: Atom, lrp: Atom, lr: Atom) {
    Exit(n, p, ls, lsp, lrp, lr) && ls.props.Ls? && lsp.props.Lsp? &&
    v == Resubmit(p.(dp := ls.props.lsId, src := lsp.props.ip % 0x1_0000, table := 58))
  }

  lemma ExitsIff(n: Host, p: Packet, v: Verdict)
    requires p.table == 57
    ensures Step(n, p, v) <==>
      (exists ls, lsp, lrp, lr :: Exits(n, p, v, ls, lsp, lrp, lr)) ||
      (v == Dropped && forall ls, lsp, lrp, lr :: !Exit(n, p, ls, lsp, lrp, lr))
  {
    hide EnterStep, SwitchIngressStep, LookupStep, OutputStep, SwitchEgressStep, RouterIngressStep, RoutingStep,
      MiddleStep, RouterOk, RouterKnown;
    forall l | Pipeline.LeavesBy(n, p, l) ensures Exit(n, p, l.ls, l.lsp, l.lrp, l.lr) {
      LinkIsJoined(n.facts, n.sys, l);
    }
    forall ls, lsp, lrp, lr | Exit(n, p, ls, lsp, lrp, lr)
      ensures exists l :: Pipeline.LeavesBy(n, p, l) && l.ls == ls && l.lsp == lsp
    {
      var l := JoinedIsLink(n.facts, n.sys, ls, lsp, lrp, lr);
      assert Pipeline.LeavesBy(n, p, l);
    }
    hide Joined, HasLink;
    if exists l :: Pipeline.LeavesBy(n, p, l) && Step(n, p, v) {
      var l :| Pipeline.LeavesBy(n, p, l) &&
        v == Resubmit(p.(dp := l.ls.props.lsId, src := PortId(l.lsp.props.ip), table := 58));
      assert Exits(n, p, v, l.ls, l.lsp, l.lrp, l.lr);
    }
  }

  // ----- Destinations that are not known -----

  predicate UnknownMac(n: Host, ls: Atom, mac: string) {
    ls in n.facts && ls.props.Ls? &&
    forall a :: a in n.facts && a.props.Lsp? && a.props.ls == ls.props.uuid ==> a.props.mac != mac
  }

  /** A patch port of this host on the switch: 255.255.255.255, with an interface. */
  predicate PatchPort(n: Host, ls: Atom, patch: Atom, port: Atom) {
    BoundHere(n.facts, n.sys, ls, patch, port) && patch.props.Lsp? && patch.props.peer.Some?
  }

  lemma UnknownHasNoFlow(n: Host, ls: Atom, mac: string)
    requires NoClash(n.facts, n.facts) && UnknownMac(n, ls, mac)
    ensures !HasFlow(n, 6, 4, ls.props.lsId, EthDst(mac)) && !HasFlow(n, 6, 3, ls.props.lsId, EthDst(mac))
  {
    hide NoClash, Derived;
    forall p, a | Flow(n, 6, p, ls.props.lsId, EthDst(mac), a) ensures false {
      var k := FlowKey(6, p, ls.props.lsId, EthDst(mac));
      FlowActions(n, k, a);
      LocalLookupMeans(n.facts, n.sys, k, a);
      RemoteLookupMeans(n.facts, n.sys, k, a);
      if x, y :| LocalLookup(n.facts, n.sys, x, y, k, a) {
        LocalFlowIsOnSwitch(n.facts, n.sys, x, y);
        BySwitchId(n.facts, x, ls);
      } else {
        var x, y, z, w :| RemoteLookup(n.facts, n.sys, x, y, z, w, k, a);
        BySwitchId(n.facts, x, ls);
      }
    }
  }

  lemma PatchMeans(n: Host, ls: Atom)
    requires NoClash(n.facts, n.facts) && ls in n.facts && ls.props.Ls?
    ensures (exists b :: PatchHit(n, ls.props.lsId, b)) <==> exists patch, port :: PatchPort(n, ls, patch, port)
    ensures forall b :: PatchHit(n, ls.props.lsId, b) ==> b.lsp.props.Lsp? && b.lsp.props.ip == 0xffff_ffff
  {
    hide NoClash;
    forall b | PatchHit(n, ls.props.lsId, b) ensures PatchPort(n, ls, b.lsp, b.port) {
      BySwitchId(n.facts, b.ls, ls);
    }
    if patch, port :| PatchPort(n, ls, patch, port) {
      assert PatchHit(n, ls.props.lsId, Bond(patch, ls, port));
    }
  }

  /** Table 6 without a hit: out of the patch port of the switch; without one an on-demand
      host asks for a gateway, and any other host drops the packet. */
  lemma MissesIff(n: Host, p: Packet, ls: Atom)
    requires NoClash(n.facts, n.facts) && UnknownMac(n, ls, p.ethDst)
    requires p.table == 6 && p.dp == ls.props.lsId && forall l :: !NatHit(n, p.dp, p.ethDst, l)
    ensures OnlyStep(n, p,
              if exists patch, port :: PatchPort(n, ls, patch, port) then Resubmit(p.(dst := 0xffff, table := 20))
              else if n.opts.ondemand then Resubmit(p.(outport := 0xffff, reg5 := true, table := 7))
              else Dropped)
  {
    UnknownHasNoFlow(n, ls, p.ethDst);
    PatchMeans(n, ls);
    Known(n, ls);
    hide NoClash, HasFlow, NatHit, PatchHit, PatchPort, UnknownMac, KnownSwitch, EnterStep, SwitchIngressStep,
      OutputStep, SwitchEgressStep, RouterIngressStep, RoutingStep, RouterEgressStep, MiddleStep;
  }

  /** Table 7 without a port: to a gateway, once, and only if redirection is on. */
  lemma AsksGateway(n: Host, p: Packet)
    requires p.table == 7 && KnownSwitch(n, p.dp) && p.reg5 && p.outport == 0xffff
    ensures OnlyStep(n, p,
              if n.opts.redirect && p.flags / 4 % 2 == 0 then Resubmit(p.(table := 95)) else Dropped)
  {
    hide KnownSwitch, EnterStep, SwitchIngressStep, LookupStep, SwitchEgressStep, RouterIngressStep, RoutingStep,
      RouterEgressStep, MiddleStep;
    assert HasRedirect(p.flags) <==> p.flags / 4 % 2 == 1;
    assert Embed(p).outport == p.outport;
    hide HasRedirect, Embed;
  }

  /** A tunnel to the chassis of a router that is pinned there. */
  predicate LeadsToGateway(n: Host, port: nat, tun: Atom, chassis: Atom, lr: Atom) {
    TunnelIn(n.facts, tun, chassis) && tun.props.OvsPort? && tun.props.ofport == port &&
    lr in n.facts && lr.props.Lr? && chassis.props.Chassis? && lr.props.lrChassis == Some(chassis.props.uuid)
  }

  lemma GatewayMeans(n: Host, port: nat)
    ensures GatewayPort(n, port) <==> exists tun, chassis, lr :: LeadsToGateway(n, port, tun, chassis, lr)
  {
    if GatewayPort(n, port) {
      var r, lr :| HasRemote(n, r) && lr in n.facts && lr.props.Lr? &&
        lr.props.lrChassis == Some(r.chassis.props.uuid) && r.port.props.ofport == port;
      assert LeadsToGateway(n, port, r.port, r.chassis, lr);
    }
    if tun, chassis, lr :| LeadsToGateway(n, port, tun, chassis, lr) {
      assert HasRemote(n, Remote(tun, chassis));
    }
  }

  /** Table 95: what it sends goes to a gateway, with the redirect flag in the metadata and the
      rest of the packet as it is; it may drop the packet when all gateways are down. */
  lemma RedirectMeans(n: Host, p: Packet, port: nat, q: Packet)
    requires p.table == 95
    ensures Step(n, p, Sent(port, q)) <==>
      (port != 0xffff && (exists tun, chassis, lr :: LeadsToGateway(n, port, tun, chassis, lr)) &&
       q == Embed(p.(outport := port, flags := if p.flags / 4 % 2 == 1 then p.flags else p.flags + 4)))
  {
    GatewayMeans(n, port);
    RedirectSends(n, p, port, q);
    hide GatewayPort, LeadsToGateway, EnterStep, SwitchIngressStep, LookupStep, OutputStep, SwitchEgressStep,
      RouterIngressStep, RoutingStep, RouterEgressStep, RedirectStep;
  }

  lemma RedirectSends(n: Host, p: Packet, port: nat, q: Packet)
    ensures RedirectStep(n, p, Sent(port, q)) <==>
      (port != 0xffff && GatewayPort(n, port) &&
       q == Embed(p.(outport := port, flags := if p.flags / 4 % 2 == 1 then p.flags else p.flags + 4)))
  {
    hide GatewayPort;
    var flags := if p.flags / 4 % 2 == 1 then p.flags else p.flags + 4;
    assert flags == SetRedirect(p.flags);
    hide SetRedirect;
    assert forall i: nat :: Embed(p.(flags := flags, outport := i)).outport == i;
    hide Embed;
  }

  /** A patch port in front of the router port that the packet is to leave by. */
  predicate PatchBehind(n: Host, p: Packet, ls: Atom, patch: Atom, port: Atom, lsp: Atom, lrp: Atom, lr: Atom) {
    PatchPort(n, ls, patch, port) && Exit(n, p, ls, lsp, lrp, lr)
  }

  /** Table 56: a next hop whose MAC is not known. A redirected packet is given up, a patch port
      means that the controller asks for the MAC, else an IP packet goes to a gateway, flagged. */
  lemma UnresolvedIff(n: Host, p: Packet)
    requires p.table == 56 && KnownRouter(n, p.dp)
    ensures OnlyStep(n, p,
              if p.ethDst != "00:00:00:00:00:00" then Resubmit(p.(table := 57))
              else if p.flags / 4 % 2 == 1 || !p.proto.Ip? || !n.opts.redirect ||
                (exists ls, patch, port, lsp, lrp, lr :: PatchBehind(n, p, ls, patch, port, lsp, lrp, lr))
              then Dropped
              else Resubmit(Embed(p.(flags := p.flags + 4)).(table := 95)))
  {
    PatchOppositeMeans(n, p);
    hide KnownRouter, PatchOpposite, PatchBehind, EnterStep, SwitchIngressStep, LookupStep, OutputStep,
      SwitchEgressStep, RouterIngressStep, RoutingStep, MiddleStep, Embed;
  }

  lemma PatchOppositeMeans(n: Host, p: Packet)
    ensures PatchOpposite(n, p) <==>
      exists ls, patch, port, lsp, lrp, lr :: PatchBehind(n, p, ls, patch, port, lsp, lrp, lr)
  {
    if PatchOpposite(n, p) {
      var b, l :| HasBond(n, b) && IsExchange(b.lsp) && HasLink(n, l) && l.ls == b.ls &&
        l.lr.props.lrId == p.dp && PortId(l.lrp.props.ip) == p.dst;
      LinkIsJoined(n.facts, n.sys, l);
      assert PatchBehind(n, p, b.ls, b.lsp, b.port, l.lsp, l.lrp, l.lr);
    }
    if ls, patch, port, lsp, lrp, lr :| PatchBehind(n, p, ls, patch, port, lsp, lrp, lr) {
      var l := JoinedIsLink(n.facts, n.sys, ls, lsp, lrp, lr);
      assert HasBond(n, Bond(patch, ls, port));
      hide RouterOk, BoundHere;
    }
  }

  // ----- The other tables -----

  /** Table 3: a gateway keeps ARP replies for itself. */
  lemma TakesArpRepliesIff(n: Host, p: Packet)
    requires p.table == 3 && KnownSwitch(n, p.dp)
    ensures OnlyStep(n, p,
              if n.opts.gateway && p.proto.Arp? && !p.proto.request then Dropped else Resubmit(p.(table := 4)))
  {
    hide EnterStep, LookupStep, OutputStep, SwitchEgressStep, RouterIngressStep, RoutingStep, RouterEgressStep,
      MiddleStep, KnownSwitch;
  }

  /** An answered ARP request goes back to its sender, looped. */
  lemma ArpFeedbackMeans(p: Packet, q: Packet)
    ensures ArpFeedback(p, q) <==>
      q == p ||
      (p.proto.Arp? && p.proto.request &&
       q == p.(proto := Arp(false, 0), ethSrc := q.ethSrc, ethDst := p.ethSrc, dst := p.src,
               flags := if p.flags % 2 == 1 then p.flags else p.flags + 1))
  {
  }

  /** Table 5: only an IP packet may leave by the DSR port, with nothing but its MAC changed. */
  lemma UntunnelIff(n: Host, p: Packet, port: nat, q: Packet)
    requires p.table == 5 && KnownSwitch(n, p.dp)
    ensures Step(n, p, Sent(port, q)) <==>
      n.opts.dsrPort == Some(port) && p.proto.Ip? && q == p.(ethDst := q.ethDst)
    ensures forall v :: Step(n, p, v) && v.Resubmit? ==> v.next == p.(table := 6)
  {
    hide EnterStep, LookupStep, OutputStep, SwitchEgressStep, RouterIngressStep, RoutingStep, RouterEgressStep,
      MiddleStep, KnownSwitch;
  }

  predicate UnknownDst(n: Host, ls: Atom, dst: nat) {
    ls in n.facts && ls.props.Ls? &&
    forall a :: a in n.facts && a.props.Lsp? && a.props.ls == ls.props.uuid ==> a.props.ip % 0x1_0000 != dst
  }

  lemma UnknownIsNotForwarded(n: Host, ls: Atom, dst: nat)
    requires NoClash(n.facts, n.facts) && UnknownDst(n, ls, dst)
    ensures !HasFlow(n, 22, 3, ls.props.lsId, RegDst(dst)) && !HasFlow(n, 22, 2, ls.props.lsId, RegDst(dst))
  {
    hide NoClash, Derived;
    forall p, a | Flow(n, 22, p, ls.props.lsId, RegDst(dst), a) ensures false {
      var k := FlowKey(22, p, ls.props.lsId, RegDst(dst));
      FlowActions(n, k, a);
      PushOutMeans(n.facts, n.sys, k, a);
      EnterRouterMeans(n.facts, n.sys, k, a);
      if x, y, z :| PortForward(n.facts, n.sys, x, y, z, k, a) {
        BySwitchId(n.facts, x, ls);
      } else {
        var x, y, z, w :| RouterForward(n.facts, n.sys, x, y, z, w, k, a);
        BySwitchId(n.facts, x, ls);
      }
    }
  }

  /** Table 22 without a destination: an IP packet is flagged and looked up again. */
  lemma ReturnsToLookup(n: Host, p: Packet, ls: Atom)
    requires NoClash(n.facts, n.facts) && UnknownDst(n, ls, p.dst)
    requires p.table == 22 && p.dp == ls.props.lsId && !p.proto.Arp?
    ensures OnlyStep(n, p,
              if !p.proto.Ip? then Dropped
              else Resubmit(p.(flags := if p.flags / 4 % 2 == 1 then p.flags else p.flags + 4, table := 6)))
  {
    UnknownIsNotForwarded(n, ls, p.dst);
    Known(n, ls);
    hide NoClash, HasFlow, UnknownDst, KnownSwitch, EnterStep, SwitchIngressStep, LookupStep, OutputStep,
      RouterIngressStep, RoutingStep, RouterEgressStep, MiddleStep;
  }

  /** A translated address of a router, reached through the end lsp of its link on switch ls. */
  predicate Translated(n: Host, p: Packet, ls: Atom, lsp: Atom, lrp: Atom, lr: Atom, xlate: Atom) {
    Joined(n.facts, n.sys, ls, lsp, lrp, lr) && ls.props.lsId == p.dp && xlate in n.facts && xlate.props.Lnat? &&
    xlate.props.lr == lr.props.uuid && MacOfIp(xlate.props.xlateIp) == p.ethDst
  }

  predicate GoesToRouter(
    n: Host, p: Packet, v: Verdict, ls: Atom, lsp: Atom, lrp: Atom, lr: Atom, xlate: Atom)
  {
    Translated(n, p, ls, lsp, lrp, lr, xlate) && lsp.props.Lsp? &&
    v == Resubmit(p.(dst := lsp.props.ip % 0x1_0000, table := 7))
  }

  /** Table 6: a frame for the MAC of a translated address goes to the router that translates it. */
  lemma TranslatedGoesToRouter(n: Host, p: Packet, v: Verdict)
    requires p.table == 6
    requires exists ls, lsp, lrp, lr, a :: Translated(n, p, ls, lsp, lrp, lr, a)
    ensures Step(n, p, v) <==> exists ls, lsp, lrp, lr, a :: GoesToRouter(n, p, v, ls, lsp, lrp, lr, a)
  {
    TranslatedIsHit(n, p);
    hide Translated, NatHit, HasFlow, PatchHit, KnownSwitch, EnterStep, SwitchIngressStep, OutputStep,
      SwitchEgressStep, RouterIngressStep, RoutingStep, RouterEgressStep, MiddleStep;
    if l :| NatHit(n, p.dp, p.ethDst, l) && v == Resubmit(p.(dst := PortId(l.lsp.props.ip), table := 7)) {
      var ls, lrp, lr, a :| Translated(n, p, ls, l.lsp, lrp, lr, a);
      assert GoesToRouter(n, p, v, ls, l.lsp, lrp, lr, a);
    }
  }

  lemma TranslatedIsHit(n: Host, p: Packet)
    ensures forall ls, lsp, lrp, lr, a :: Translated(n, p, ls, lsp, lrp, lr, a) ==>
      exists l :: NatHit(n, p.dp, p.ethDst, l) && l.lsp == lsp
    ensures forall l :: NatHit(n, p.dp, p.ethDst, l) ==>
      l.lsp.props.Lsp? && exists ls, lrp, lr, a :: Translated(n, p, ls, l.lsp, lrp, lr, a)
  {
    hide MacOfIp, RouterOk, RouterKnown;
    forall ls, lsp, lrp, lr, a | Translated(n, p, ls, lsp, lrp, lr, a)
      ensures exists l :: NatHit(n, p.dp, p.ethDst, l) && l.lsp == lsp
    {
      var l := JoinedIsLink(n.facts, n.sys, ls, lsp, lrp, lr);
      assert NatHit(n, p.dp, p.ethDst, l);
    }
    forall l | NatHit(n, p.dp, p.ethDst, l)
      ensures exists ls, lrp, lr, a :: Translated(n, p, ls, l.lsp, lrp, lr, a) && l.lsp.props.Lsp?
    {
      LinkIsJoined(n.facts, n.sys, l);
      var a :| a in n.facts && a.props.Lnat? && a.props.lr == l.lr.props.uuid && MacOfIp(a.props.xlateIp) == p.ethDst;
      assert Translated(n, p, l.ls, l.lsp, l.lrp, l.lr, a);
    }
  }

  function HexValue(c: char): int {
    if c <= '9' then c as int - '0' as int else c as int - 'a' as int + 10
  }

  lemma HexReadsBack(d: nat)
    requires d < 16
    ensures HexValue(HexChar(d)) == d && (d < 10 ==> HexChar(d) <= '9') && (d >= 10 ==> 'a' <= HexChar(d))
  {
    var s := "0123456789abcdef";
    assert s[0] == '0' && s[1] == '1' && s[2] == '2' && s[3] == '3' && s[4] == '4' && s[5] == '5' && s[6] == '6';
    assert s[7] == '7' && s[8] == '8' && s[9] == '9' && s[10] == 'a' && s[11] == 'b' && s[12] == 'c';
    assert s[13] == 'd' && s[14] == 'e' && s[15] == 'f';
  }

  /** The MAC of a translated address: two fixed bytes, then the bytes of the address in hexadecimal digits. */
  lemma MacSpellsAddress(ip: nat)
    ensures var mac := MacOfIp(ip);
      |mac| == 17 && mac[..6] == "f2:01:" && mac[8] == ':' && mac[11] == ':' && mac[14] == ':' &&
      HexValue(mac[6]) * 16 + HexValue(mac[7]) == ip / 0x100_0000 % 256 &&
      HexValue(mac[9]) * 16 + HexValue(mac[10]) == ip / 0x1_0000 % 256 &&
      HexValue(mac[12]) * 16 + HexValue(mac[13]) == ip / 256 % 256 &&
      HexValue(mac[15]) * 16 + HexValue(mac[16]) == ip % 256
  {
    hide HexChar, HexValue;
    ByteReadsBack(ip / 0x100_0000 % 256);
    ByteReadsBack(ip / 0x1_0000 % 256);
    ByteReadsBack(ip / 256 % 256);
    ByteReadsBack(ip % 256);
    hide HexByte;
  }

  lemma ByteReadsBack(b: nat)
    requires b < 256
    ensures |HexByte(b)| == 2 && HexValue(HexByte(b)[0]) * 16 + HexValue(HexByte(b)[1]) == b
  {
    HexReadsBack(b / 16);
    HexReadsBack(b % 16);
  }

  // ----- Datapaths that are not known -----

  lemma KnownRouterMeans(n: Host, dp: nat)
    ensures KnownRouter(n, dp) <==>
      exists lr :: lr in n.facts && lr.props.Lr? && lr.props.lrId == dp && RouterKnown(n.facts, lr.props, n.sys)
  {
    forall lr | lr in n.facts && lr.props.Lr? && lr.props.lrId == dp && RouterKnown(n.facts, lr.props, n.sys)
      ensures KnownRouter(n, dp)
    {
      var pin := PinOf(n.facts, n.sys, lr);
    }
  }

  /** On a switch or a router that is not known here a packet goes no further than the next
      table that reads the datapath. */
  lemma UnknownDatapathDrops(n: Host, p: Packet)
    requires if p.table <= 23 then forall a :: a in n.facts && a.props.Ls? ==> a.props.lsId != p.dp
             else forall a :: a in n.facts && a.props.Lr? ==> a.props.lrId != p.dp
    requires p.table in {3, 4, 5, 7, 21, 23, 31, 32, 33, 34, 35, 36, 51, 52, 53, 54, 56}
    ensures OnlyStep(n, p, Dropped)
  {
    assert p.table <= 23 ==> !KnownSwitch(n, p.dp);
    if p.table > 23 { KnownRouterMeans(n, p.dp); }
    hide KnownSwitch, KnownRouter, EnterStep, LookupStep, ForwardStep, MiddleStep, RouteStep, JudgeStep, ResolveStep;
  }
}
