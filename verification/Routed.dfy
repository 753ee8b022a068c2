// Across a router: a packet from a port of one switch to the address of a port of
// another switch, through the longest route of the router between them.

module Routed {
  import opened Common
  import opened Entities
  import opened FlowRules
  import opened FlowSync
  import opened Ecmp
  import opened Rounds
  import opened Installed
  import opened Pipeline
  import opened Tunnel
  import opened Delivery

  // ----- The routes of a router -----

  predicate CoversNet(p: Props, dst: nat) {
    (p.Lrp? || p.Lsr?) && WellTyped(p) && Net(dst, p.prefix) == Net(p.ip, p.prefix)
  }

  /** A port of the router, or a static route on it or through a port of it. */
  predicate OnRouter(s: set<Atom>, lr: Atom, r: Atom) {
    r in s &&
    ((r.props.Lrp? && r.props.lr == lr.props.uuid) ||
     (r.props.Lsr? &&
      (r.props.lr == lr.props.uuid ||
       exists q :: q in s && q.props.Lrp? && q.props.uuid == r.props.outport && q.props.lr == lr.props.uuid)))
  }

  /** The network of port lrp covers the destination, everything else on the router that
      covers it is shorter, and no other port of the router has the same low address bits. */
  ghost predicate BestPort(s: set<Atom>, lr: Atom, lrp: Atom, dst: nat) {
    CoversNet(lrp.props, dst) && lrp.props.Lrp? && lrp.props.prefix > 0 &&
    (forall r :: OnRouter(s, lr, r) && r != lrp && CoversNet(r.props, dst) ==> r.props.prefix < lrp.props.prefix) &&
    (forall r :: OnRouter(s, lr, r) && r.props.Lrp? && r.props.ip % 0x1_0000 == lrp.props.ip % 0x1_0000 ==> r == lrp)
  }

  /** No port of the router has the address itself, and the router translates none. */
  predicate Plain(n: Host, lr: Atom, dst: nat) {
    lr.props.Lr? && !n.opts.gateway && n.opts.dsrPort == None &&
    (forall q :: q in n.facts && q.props.Lrp? && q.props.lr == lr.props.uuid ==> q.props.ip != dst) &&
    (forall a :: a in n.facts && a.props.Lnat? ==> a.props.lr != lr.props.uuid)
  }

  lemma ByRouterId(s: set<Atom>, a: Atom, b: Atom)
    requires NoClash(s, s) && a in s && b in s && a.props.Lr? && b.props.Lr? && a.props.lrId == b.props.lrId
    ensures a == b
  {
    assert UniqueKeys(a.props)[0] in UniqueKeys(b.props);
    hide NoClash, UniqueKeys;
    SameAtom(s, a, b);
  }

  lemma KnownBy(n: Host, ls: Atom, lsp: Atom, lrp: Atom, lr: Atom)
    requires Joined(n.facts, n.sys, ls, lsp, lrp, lr)
    ensures KnownRouter(n, lr.props.lrId)
  {
    var l := JoinedIsLink(n.facts, n.sys, ls, lsp, lrp, lr);
  }

  // ----- Longest prefix -----

  lemma RouteOutranked(n: Host, lr: Atom, lrp: Atom, dst: nat, j: FlowKey, b: Action)
    requires NoClash(n.facts, n.facts) && IndicesFit(n.facts) && BestPort(n.facts, lr, lrp, dst) && lr in n.facts
    requires lr.props.Lr? && RoutingFlow(n, j, b) && Matches(j, lr.props.lrId, dst)
    ensures j.priority < lrp.props.prefix * 1024 || exists ls, lsp :: PortRoute(n.facts, n.sys, ls, lsp, lrp, lr, j, b)
  {
    hide NoClash, IndicesFit, BestPort, Matches, Derived;
    if Derived(n.facts, n.sys, j, b) {
      DerivedMeans(n.facts, n.sys, j, b);
      if ls, lsp, q, r :| PortRoute(n.facts, n.sys, ls, lsp, q, r, j, b) {
        PortOutranked(n, lr, lrp, dst, ls, lsp, q, r, j, b);
      } else {
        var r, x, q, lsp, farLsp, far, next :| NetworkRoute(n.facts, n.sys, r, x, q, lsp, farLsp, far, next, j, b);
        StaticOutranked(n, lr, lrp, dst, r, x, q, lsp, farLsp, far, next, j, b);
      }
    } else {
      var g, r, pin :| IsBundle(n.facts, n.sys, g, r, pin, j, b);
      BundleOutranked(n, lr, lrp, dst, g, r, pin, j, b);
    }
  }

  lemma PortOutranked(
    n: Host, lr: Atom, lrp: Atom, dst: nat, ls: Atom, lsp: Atom, q: Atom, r: Atom, j: FlowKey, b: Action)
    requires NoClash(n.facts, n.facts) && IndicesFit(n.facts) && BestPort(n.facts, lr, lrp, dst) && lr in n.facts
    requires PortRoute(n.facts, n.sys, ls, lsp, q, r, j, b) && lr.props.Lr? && Matches(j, lr.props.lrId, dst)
    ensures j.priority < lrp.props.prefix * 1024 || (q == lrp && r == lr)
  {
    hide NoClash, Net;
    ByRouterId(n.facts, r, lr);
    assert OnRouter(n.facts, lr, q) && CoversNet(q.props, dst);
    assert SlotOf(q.props, q.ilk).Some?;
  }

  lemma StaticOutranked(
    n: Host, lr: Atom, lrp: Atom, dst: nat, r: Atom, x: Atom, q: Atom, lsp: Atom, farLsp: Atom, far: Atom, next: Atom,
    j: FlowKey, b: Action)
    requires NoClash(n.facts, n.facts) && IndicesFit(n.facts) && BestPort(n.facts, lr, lrp, dst) && lr in n.facts
    requires NetworkRoute(n.facts, n.sys, r, x, q, lsp, farLsp, far, next, j, b) && lr.props.Lr?
    requires Matches(j, lr.props.lrId, dst)
    ensures j.priority < lrp.props.prefix * 1024
  {
    hide NoClash, Net, NextAlive;
    ByRouterId(n.facts, x, lr);
    assert OnRouter(n.facts, lr, r) && CoversNet(r.props, dst);
    assert SlotOf(r.props, r.ilk).Some?;
  }

  lemma BundleOutranked(
    n: Host, lr: Atom, lrp: Atom, dst: nat, g: Group, r: Atom, pin: Option<Atom>, j: FlowKey, b: Action)
    requires NoClash(n.facts, n.facts) && BestPort(n.facts, lr, lrp, dst) && lr in n.facts && lr.props.Lr?
    requires IsBundle(n.facts, n.sys, g, r, pin, j, b) && Matches(j, lr.props.lrId, dst)
    ensures j.priority < lrp.props.prefix * 1024
  {
    hide NoClash, Net, Lists;
    RouterIn(r, pin, n.facts);
    ByRouterId(n.facts, r, lr);
    var row :| row in LiveRows(n.facts, n.sys, g);
    var (u, port) := row;
    BundleRowMeans(n.facts, n.sys, g, u, port);
    var x, o, y, other :| BundleMember(n.facts, n.sys, g, x, o, y, other);
    assert OnRouter(n.facts, lr, x) && CoversNet(x.props, dst);
  }

  /** The automatic route of that port is what the switch picks, and nothing else is. */
  lemma PicksBest(n: Host, ls: Atom, lsp: Atom, lrp: Atom, lr: Atom, dst: nat)
    requires NoClash(n.facts, n.facts) && IndicesFit(n.facts) && Joined(n.facts, n.sys, ls, lsp, lrp, lr)
    requires BestPort(n.facts, lr, lrp, dst)
    ensures exists k :: PicksRoute(n, lr.props.lrId, dst, k,
              RouteVia(lrp.props.ip % 0x1_0000, lrp.props.mac, None, lrp.props.ip))
    ensures forall k, a :: PicksRoute(n, lr.props.lrId, dst, k, a) ==>
              k.priority > 0 && a == RouteVia(lrp.props.ip % 0x1_0000, lrp.props.mac, None, lrp.props.ip)
  {
    var k := FlowKey(37, lrp.props.prefix * 1024 + lrp.ilk, lr.props.lrId,
                     IpDst(Net(lrp.props.ip, lrp.props.prefix), lrp.props.prefix));
    var a := RouteVia(lrp.props.ip % 0x1_0000, lrp.props.mac, None, lrp.props.ip);
    BestRouteIsDerived(n, ls, lsp, lrp, lr, dst, k, a);
    forall j, b | RoutingFlow(n, j, b) && Matches(j, lr.props.lrId, dst)
      ensures j.priority < k.priority || (j.priority == k.priority && b == a)
    {
      RouteOutranked(n, lr, lrp, dst, j, b);
    }
    hide RoutingFlow, Matches, NoClash, IndicesFit, Net, Joined;
    assert PicksRoute(n, lr.props.lrId, dst, k, a);
  }

  lemma BestRouteIsDerived(
    n: Host, ls: Atom, lsp: Atom, lrp: Atom, lr: Atom, dst: nat, k: FlowKey, a: Action)
    requires Joined(n.facts, n.sys, ls, lsp, lrp, lr) && BestPort(n.facts, lr, lrp, dst)
    requires k == FlowKey(37, lrp.props.prefix * 1024 + lrp.ilk, lr.props.lrId,
                          IpDst(Net(lrp.props.ip, lrp.props.prefix), lrp.props.prefix))
    requires a == RouteVia(lrp.props.ip % 0x1_0000, lrp.props.mac, None, lrp.props.ip)
    ensures RoutingFlow(n, k, a) && Matches(k, lr.props.lrId, dst)
  {
    hide Joined, Net;
    assert PortRoute(n.facts, n.sys, ls, lsp, lrp, lr, k, a);
    AutoRouteMeans(n.facts, n.sys, k, a);
    hide Derived;
  }

  // ----- The tables of a router -----

  /** Tables 30 to 32: no answer, one hop less. */
  lemma EntryPasses(n: Host, p: Packet, lr: Atom, v: Verdict, k: nat)
    requires NoClash(n.facts, n.facts) && lr in n.facts && Plain(n, lr, if p.proto.Ip? then p.proto.dstIp else 0)
    requires KnownRouter(n, p.dp) && p.dp == lr.props.lrId && p.table == 30 && p.proto.Ip? && p.proto.ttl > 1
    requires Leads(n, p.(dst := 0, proto := p.proto.(ttl := p.proto.ttl - 1), table := 33), v, k)
    ensures Leads(n, p, v, k + 3)
  {
    var q := p.(dst := 0);
    NotAsked(n, q, lr);
    EntrySteps(n, p);
    hide OnlyStep, Leads, KnownRouter, NoClash, Asked;
    EchoIsAnsweredIff(n, q.(table := 31));
    Passes(n, q.(table := 32), q.(proto := p.proto.(ttl := p.proto.ttl - 1), table := 33), v, k);
    Passes(n, q.(table := 31), q.(table := 32), v, k + 1);
    Passes(n, p, q.(table := 31), v, k + 2);
  }

  lemma NotAsked(n: Host, p: Packet, lr: Atom)
    requires NoClash(n.facts, n.facts) && lr in n.facts && p.proto.Ip? && Plain(n, lr, p.proto.dstIp)
    requires p.dp == lr.props.lrId
    ensures forall ls, lsp, lrp, x :: !Asked(n, p.(table := 31), ls, lsp, lrp, x)
  {
    forall ls, lsp, lrp, x | Asked(n, p.(table := 31), ls, lsp, lrp, x) ensures false {
      hide NoClash;
      ByRouterId(n.facts, x, lr);
    }
  }

  lemma EntrySteps(n: Host, p: Packet)
    requires KnownRouter(n, p.dp) && p.table == 30 && p.proto.Ip? && p.proto.ttl > 1
    ensures var q := p.(dst := 0);
      OnlyStep(n, p, Resubmit(q.(table := 31))) &&
      OnlyStep(n, q.(table := 32), Resubmit(q.(proto := p.proto.(ttl := p.proto.ttl - 1), table := 33)))
  {
    hide KnownRouter, Answers, EnterStep, SwitchIngressStep, LookupStep, OutputStep, SwitchEgressStep, RoutingStep,
      RouterEgressStep, MiddleStep;
  }

  lemma NatPasses(n: Host, p: Packet)
    requires KnownRouter(n, p.dp) && !Translates(n, p.dp) && p.table in {33, 34, 35, 36, 51, 52, 53, 54}
    ensures OnlyStep(n, p, Resubmit(p.(table := p.table + 1)))
  {
    hide KnownRouter, Translates, EnterStep, SwitchIngressStep, LookupStep, OutputStep, SwitchEgressStep,
      RouterIngressStep, RouterEgressStep, MiddleStep, Rewritten;
  }

  lemma FourPass(n: Host, p: Packet, v: Verdict, k: nat)
    requires KnownRouter(n, p.dp) && !Translates(n, p.dp) && (p.table == 33 || p.table == 51)
    requires Leads(n, p.(table := p.table + 4), v, k)
    ensures Leads(n, p, v, k + 4)
  {
    var t := p.table;
    hide KnownRouter, Translates, OnlyStep, Leads;
    NatPasses(n, p);
    NatPasses(n, p.(table := t + 1));
    NatPasses(n, p.(table := t + 2));
    NatPasses(n, p.(table := t + 3));
    Passes(n, p.(table := t + 3), p.(table := t + 4), v, k);
    Passes(n, p.(table := t + 2), p.(table := t + 3), v, k + 1);
    Passes(n, p.(table := t + 1), p.(table := t + 2), v, k + 2);
    Passes(n, p, p.(table := t + 1), v, k + 3);
  }

  /** Table 37: out of the best port. */
  lemma RoutesBest(n: Host, p: Packet, ls: Atom, lsp: Atom, lrp: Atom, lr: Atom)
    requires NoClash(n.facts, n.facts) && IndicesFit(n.facts) && Joined(n.facts, n.sys, ls, lsp, lrp, lr)
    requires p.table == 37 && p.dp == lr.props.lrId && p.proto.Ip? && !n.opts.gateway
    requires BestPort(n.facts, lr, lrp, p.proto.dstIp)
    ensures OnlyStep(n, p, Resubmit(p.(dst := lrp.props.ip % 0x1_0000, ethSrc := lrp.props.mac,
      nextHop := p.proto.dstIp, table := 38)))
  {
    PicksBest(n, ls, lsp, lrp, lr, p.proto.dstIp);
    hide NoClash, IndicesFit, Joined, BestPort, PicksRoute, EnterStep, SwitchIngressStep, LookupStep, OutputStep,
      SwitchEgressStep, RouterIngressStep, RouterEgressStep, MiddleStep, NatStep, JudgeStep, ResolveStep;
  }

  /** Tables 38, 39 and 50: no bundle has picked a port. */
  lemma JudgePasses(n: Host, p: Packet, v: Verdict, k: nat)
    requires KnownRouter(n, p.dp) && p.table == 38 && p.outport == 0 && Leads(n, p.(table := 51), v, k)
    ensures Leads(n, p, v, k + 3)
  {
    NotJudged(n, p);
    JudgeSteps(n, p);
    hide OnlyStep, Leads, KnownRouter, Judges;
    Passes(n, p.(table := 50), p.(table := 51), v, k);
    Passes(n, p.(table := 39), p.(table := 50), v, k + 1);
    Passes(n, p, p.(table := 39), v, k + 2);
  }

  lemma NotJudged(n: Host, p: Packet)
    requires p.outport == 0
    ensures forall l :: !Judges(n, p, l)
  {
    hide NextHopOk, LegAtoms, AllIn;
  }

  lemma JudgeSteps(n: Host, p: Packet)
    requires KnownRouter(n, p.dp) && p.table == 38 && p.outport == 0 && forall l :: !Judges(n, p, l)
    ensures OnlyStep(n, p, Resubmit(p.(table := 39))) && OnlyStep(n, p.(table := 39), Resubmit(p.(table := 50))) &&
      OnlyStep(n, p.(table := 50), Resubmit(p.(table := 51)))
  {
    hide KnownRouter, Judges, EnterStep, SwitchIngressStep, LookupStep, OutputStep, SwitchEgressStep,
      RouterIngressStep, RouterEgressStep, MiddleStep, NatStep, RouteStep, ResolveStep;
  }

  /** Table 55: the MAC of the port with the address. */
  lemma ResolvesPort(n: Host, p: Packet, ls: Atom, lsp: Atom, lrp: Atom, lr: Atom, to: Atom)
    requires NoClash(n.facts, n.facts) && Joined(n.facts, n.sys, ls, lsp, lrp, lr)
    requires p.proto.Ip? && BestPort(n.facts, lr, lrp, p.proto.dstIp)
    requires to in n.facts && to.props.Lsp? && to.props.ls == ls.props.uuid && to.props.chassis.Some?
    requires p.table == 55 && p.dp == lr.props.lrId && p.dst == lrp.props.ip % 0x1_0000
    requires p.nextHop == to.props.ip
    ensures OnlyStep(n, p, Resubmit(p.(ethDst := to.props.mac, table := 56)))
  {
    var m := JoinedIsLink(n.facts, n.sys, ls, lsp, lrp, lr);
    assert Opposite(n, p, m, to);
    forall l, x | Opposite(n, p, l, x) ensures x == to {
      OneOpposite(n, p, ls, lsp, lrp, lr, to, l, x);
    }
    hide NoClash, Joined, BestPort, Opposite, KnownRouter, EnterStep, SwitchIngressStep, LookupStep, OutputStep,
      SwitchEgressStep, RouterIngressStep, RouterEgressStep, MiddleStep, NatStep, RouteStep, JudgeStep, HasLink;
  }

  lemma OneOpposite(n: Host, p: Packet, ls: Atom, lsp: Atom, lrp: Atom, lr: Atom, to: Atom, l: Link, x: Atom)
    requires NoClash(n.facts, n.facts) && Joined(n.facts, n.sys, ls, lsp, lrp, lr)
    requires p.proto.Ip? && BestPort(n.facts, lr, lrp, p.proto.dstIp)
    requires to in n.facts && to.props.Lsp? && to.props.ls == ls.props.uuid
    requires p.dp == lr.props.lrId && p.dst == lrp.props.ip % 0x1_0000 && p.nextHop == to.props.ip
    requires Opposite(n, p, l, x)
    ensures x == to
  {
    LinkIsJoined(n.facts, n.sys, l);
    hide NoClash, RouterKnown, LinkOk;
    ByRouterId(n.facts, l.lr, lr);
    assert OnRouter(n.facts, lr, l.lrp);
    ById(n.facts, l.lsp, lsp);
    ById(n.facts, l.ls, ls);
    ByLowBits(n.facts, x, to);
  }

  /** Tables 56 to 58: to the switch behind the port. */
  lemma ExitPasses(n: Host, p: Packet, ls: Atom, lsp: Atom, lrp: Atom, lr: Atom, dst: nat, v: Verdict, k: nat)
    requires NoClash(n.facts, n.facts) && Joined(n.facts, n.sys, ls, lsp, lrp, lr)
    requires BestPort(n.facts, lr, lrp, dst) && p.ethDst != "00:00:00:00:00:00"
    requires p.table == 56 && p.dp == lr.props.lrId && p.dst == lrp.props.ip % 0x1_0000
    requires Leads(n, p.(dp := ls.props.lsId, src := lsp.props.ip % 0x1_0000, table := 1), v, k)
    ensures Leads(n, p, v, k + 3)
  {
    KnownBy(n, ls, lsp, lrp, lr);
    LeavesByPort(n, p.(table := 57), ls, lsp, lrp, lr, dst);
    ExitSteps(n, p, ls.props.lsId, lsp.props.ip % 0x1_0000);
    hide OnlyStep, Leads, KnownRouter, NoClash, Joined, BestPort;
    var q := p.(dp := ls.props.lsId, src := lsp.props.ip % 0x1_0000);
    Passes(n, q.(table := 58), q.(table := 1), v, k);
    Passes(n, p.(table := 57), q.(table := 58), v, k + 1);
    Passes(n, p, p.(table := 57), v, k + 2);
  }

  lemma ExitSteps(n: Host, p: Packet, dp: nat, src: nat)
    requires p.table == 56 && KnownRouter(n, p.dp) && p.ethDst != "00:00:00:00:00:00"
    ensures OnlyStep(n, p, Resubmit(p.(table := 57)))
    ensures OnlyStep(n, p.(dp := dp, src := src, table := 58), Resubmit(p.(dp := dp, src := src, table := 1)))
  {
    hide KnownRouter, EnterStep, SwitchIngressStep, LookupStep, OutputStep, SwitchEgressStep, RouterIngressStep,
      RoutingStep, MiddleStep;
  }

  lemma LeavesByPort(n: Host, p: Packet, ls: Atom, lsp: Atom, lrp: Atom, lr: Atom, dst: nat)
    requires NoClash(n.facts, n.facts) && Joined(n.facts, n.sys, ls, lsp, lrp, lr)
    requires BestPort(n.facts, lr, lrp, dst)
    requires p.table == 57 && p.dp == lr.props.lrId && p.dst == lrp.props.ip % 0x1_0000
    ensures OnlyStep(n, p, Resubmit(p.(dp := ls.props.lsId, src := lsp.props.ip % 0x1_0000, table := 58)))
  {
    var v := Resubmit(p.(dp := ls.props.lsId, src := lsp.props.ip % 0x1_0000, table := 58));
    assert Exits(n, p, v, ls, lsp, lrp, lr);
    forall x, y, z, w | Exit(n, p, x, y, z, w) ensures x == ls && y == lsp {
      hide NoClash, RouterKnown;
      ByRouterId(n.facts, w, lr);
      assert OnRouter(n.facts, lr, z);
      ById(n.facts, y, lsp);
      ById(n.facts, x, ls);
    }
    hide Step, NoClash, BestPort, Joined;
    forall w ensures Step(n, p, w) <==> w == v {
      ExitsIff(n, p, w);
    }
  }

  lemma NothingTranslated(n: Host, lr: Atom, dst: nat)
    requires NoClash(n.facts, n.facts) && lr in n.facts && Plain(n, lr, dst)
    ensures !Translates(n, lr.props.lrId)
  {
    if a, r :| TranslatesBy(n, lr.props.lrId, a, r) {
      hide NoClash;
      ByRouterId(n.facts, r, lr);
    }
  }

  /** What the router makes of the packet: one hop less, its own MAC as the source, the MAC of
      the destination, and the switch behind the best port as the datapath. */
  function RoutedPacket(p: Packet, ls: Atom, lsp: Atom, lrp: Atom, to: Atom): Packet
    requires p.proto.Ip? && p.proto.ttl > 1 && ls.props.Ls? && lsp.props.Lsp? && lrp.props.Lrp? && to.props.Lsp?
  {
    p.(proto := p.proto.(ttl := p.proto.ttl - 1), ethSrc := lrp.props.mac, ethDst := to.props.mac,
       dp := ls.props.lsId, src := lsp.props.ip % 0x1_0000, dst := lrp.props.ip % 0x1_0000,
       nextHop := p.proto.dstIp, table := 1)
  }

  /** The destination: the address of a port of the switch behind the router's port. */
  predicate Target(n: Host, ls: Atom, to: Atom, dst: nat) {
    to in n.facts && ls.props.Ls? && to.props.Lsp? && to.props.ls == ls.props.uuid && to.props.chassis.Some? &&
    to.props.ip == dst && to.props.mac != "00:00:00:00:00:00"
  }

  /** Across the router, tables 30 to 58. */
  lemma CrossesRouter(
    n: Host, p: Packet, ls: Atom, lsp: Atom, lrp: Atom, lr: Atom, to: Atom, v: Verdict, k: nat)
    requires NoClash(n.facts, n.facts) && IndicesFit(n.facts) && Joined(n.facts, n.sys, ls, lsp, lrp, lr)
    requires p.table == 30 && p.dp == lr.props.lrId && p.outport == 0 && p.proto.Ip? && p.proto.ttl > 1
    requires Plain(n, lr, p.proto.dstIp) && BestPort(n.facts, lr, lrp, p.proto.dstIp)
    requires Target(n, ls, to, p.proto.dstIp) && Leads(n, RoutedPacket(p, ls, lsp, lrp, to), v, k)
    ensures Leads(n, p, v, k + 19)
  {
    KnownBy(n, ls, lsp, lrp, lr);
    NothingTranslated(n, lr, p.proto.dstIp);
    hide OnlyStep, Leads, KnownRouter, Translates, NoClash, IndicesFit, Joined, BestPort, Plain;
    var q := p.(dst := 0, proto := p.proto.(ttl := p.proto.ttl - 1), table := 33);
    var r := q.(dst := lrp.props.ip % 0x1_0000, ethSrc := lrp.props.mac, nextHop := p.proto.dstIp, table := 38);
    var t := r.(ethDst := to.props.mac, table := 56);
    ExitPasses(n, t, ls, lsp, lrp, lr, p.proto.dstIp, v, k);
    ResolvesPort(n, r.(table := 55), ls, lsp, lrp, lr, to);
    Passes(n, r.(table := 55), t, v, k + 3);
    FourPass(n, r.(table := 51), v, k + 4);
    JudgePasses(n, r, v, k + 8);
    RoutesBest(n, q.(table := 37), ls, lsp, lrp, lr);
    Passes(n, q.(table := 37), r, v, k + 11);
    FourPass(n, q, v, k + 12);
    EntryPasses(n, p, lr, v, k + 16);
  }

  /** From the egress of a switch into the router that its destination is an end of. */
  lemma IntoRouter(n: Host, p: Packet, ls: Atom, lsp: Atom, lrp: Atom, lr: Atom, v: Verdict, k: nat)
    requires NoClash(n.facts, n.facts) && Joined(n.facts, n.sys, ls, lsp, lrp, lr) && lsp.props.ip != 0xffff_ffff
    requires p.table == 20 && p.dp == ls.props.lsId < 0x100_0000 && p.dst == lsp.props.ip % 0x1_0000 && !p.reg5
    requires lr.props.lrId < 0x100_0000
    requires Leads(n, Looped(p).(dp := lr.props.lrId, src := lrp.props.ip % 0x1_0000, reg6 := 0, reg7 := 0,
      table := 30), v, k)
    ensures Leads(n, p, v, k + 4)
  {
    EntersRouter(n, p, ls, lsp, lrp, lr);
    hide OnlyStep, Leads, NoClash, Joined;
    var q := Looped(p).(dp := lr.props.lrId, src := lrp.props.ip % 0x1_0000, reg6 := 0, reg7 := 0, table := 30);
    var r :| OnlyStep(n, Looped(p).(table := 22), Resubmit(r)) && OnlyStep(n, r, Resubmit(q));
    Passes(n, r, q, v, k);
    Passes(n, Looped(p).(table := 22), r, v, k + 1);
    Passes(n, p.(table := 21), Looped(p).(table := 22), v, k + 2);
    Passes(n, p, p.(table := 21), v, k + 3);
  }

  /** The near side: a port of switch ls, and the end of the link to the router. */
  ghost predicate NearSide(n: Host, ls: Atom, from: Atom, port: Atom, lsp: Atom, lrp: Atom, lr: Atom) {
    BoundHere(n.facts, n.sys, ls, from, port) && Joined(n.facts, n.sys, ls, lsp, lrp, lr) &&
    RunsHere(lr.props, n.sys) && lsp.props.Lsp? && lsp.props.ip != 0xffff_ffff && lr.props.lrId < 0x100_0000 &&
    ls.props.lsId < 0x100_0000
  }

  /** What the packet is when it has crossed the router. */
  predicate RoutedFrame(p: Packet, q: Packet, lrp: Atom, to: Atom) {
    lrp.props.Lrp? && to.props.Lsp? && p.proto.Ip? && p.proto.ttl > 1 &&
    q.proto == p.proto.(ttl := p.proto.ttl - 1) && q.ethSrc == lrp.props.mac && q.ethDst == to.props.mac
  }

  /** The packet as it enters the router. */
  function AtRouter(p: Packet, lsp: Atom, lrp: Atom, lr: Atom): Packet
    requires lsp.props.Lsp? && lrp.props.Lrp? && lr.props.Lr?
  {
    Looped(p).(dp := lr.props.lrId, src := lrp.props.ip % 0x1_0000, dst := lsp.props.ip % 0x1_0000,
               reg6 := 0, reg7 := 0, table := 30)
  }

  /** From the port that the packet comes from to table 30 of the router. */
  lemma ReachesRouter(
    n: Host, p: Packet, ls: Atom, from: Atom, port: Atom, lsp: Atom, lrp: Atom, lr: Atom, v: Verdict, k: nat)
    requires NoClash(n.facts, n.facts) && PortsDistinct(n) && n.opts.dsrPort == None
    requires NearSide(n, ls, from, port, lsp, lrp, lr)
    requires Entering(p) && p.inPort == port.props.ofport && p.ethDst == lsp.props.mac && !p.proto.Arp?
    requires forall l :: !NatHit(n, ls.props.lsId, p.ethDst, l)
    requires Leads(n, AtRouter(p, lsp, lrp, lr), v, k)
    ensures Leads(n, p, v, k + 12)
  {
    assert LocalFlow(n.facts, n.sys, ls, lsp);
    hide OnlyStep, Leads, NoClash, PortsDistinct, NatHit, LocalFlow, BoundHere, Joined;
    var q := p.(src := from.props.ip % 0x1_0000, dp := ls.props.lsId, dst := lsp.props.ip % 0x1_0000, table := 20);
    IntoRouter(n, q, ls, lsp, lrp, lr, v, k);
    ReachesEgress(n, p, ls, from, port, lsp, v, k + 4);
  }

  /** From the switch behind the router to the interface of the destination. */
  lemma ReachesTarget(n: Host, p: Packet, ls: Atom, to: Atom, out: Atom)
    requires NoClash(n.facts, n.facts) && n.opts.dsrPort == None && BoundHere(n.facts, n.sys, ls, to, out)
    requires p.table == 1 && p.dp == ls.props.lsId && !p.reg5 && p.ethDst == to.props.mac && !p.proto.Arp?
    requires out.props.ofport != OFPORT_NONE && forall l :: !NatHit(n, p.dp, p.ethDst, l)
    ensures exists q :: Leads(n, p, Sent(out.props.ofport, q), 10) && SameFrame(p, q)
  {
    assert LocalFlow(n.facts, n.sys, ls, to);
    hide OnlyStep, Leads, NoClash, NatHit, LocalFlow, BoundHere;
    var q := p.(dst := to.props.ip % 0x1_0000, table := 20);
    var r := Looped(q).(reg5 := true, outport := out.props.ofport, table := 23);
    EgressDelivers(n, q, ls, to, out);
    CrossesSwitch(n, p, ls, to, Sent(out.props.ofport, r), 3);
  }

  /** From table 30 of the router to the interface of the destination. */
  lemma FromRouter(
    n: Host, p: Packet, ls: Atom, lsp: Atom, lrp: Atom, lr: Atom, to: Atom, out: Atom)
    requires NoClash(n.facts, n.facts) && IndicesFit(n.facts) && Joined(n.facts, n.sys, ls, lsp, lrp, lr)
    requires p.table == 30 && p.dp == lr.props.lrId && p.outport == 0 && p.proto.Ip? && p.proto.ttl > 1 && !p.reg5
    requires Plain(n, lr, p.proto.dstIp) && BestPort(n.facts, lr, lrp, p.proto.dstIp)
    requires BoundHere(n.facts, n.sys, ls, to, out) && Target(n, ls, to, p.proto.dstIp)
    requires out.props.ofport != OFPORT_NONE && forall l :: !NatHit(n, ls.props.lsId, to.props.mac, l)
    ensures exists q :: Leads(n, p, Sent(out.props.ofport, q), 29) && RoutedFrame(p, q, lrp, to)
  {
    assert n.opts.dsrPort == None && lrp.props.Lrp?;
    hide OnlyStep, Leads, NoClash, IndicesFit, NatHit, BoundHere, Joined, BestPort, Plain;
    var r := RoutedPacket(p, ls, lsp, lrp, to);
    ReachesTarget(n, r, ls, to, out);
    var t :| Leads(n, r, Sent(out.props.ofport, t), 10) && SameFrame(r, t);
    CrossesRouter(n, p, ls, lsp, lrp, lr, to, Sent(out.props.ofport, t), 10);
    assert RoutedFrame(p, t, lrp, to);
  }

  /** Two switches and the router between them: a packet for the address of a port of the other
      switch leaves by the interface of that port, routed once, if the router port in front of it
      has the longest route. */
  lemma RoutedDelivery(
    n: Host, p: Packet, ls: Atom, from: Atom, port: Atom, lsp: Atom, lrp: Atom, lr: Atom,
    farLs: Atom, farLsp: Atom, farLrp: Atom, to: Atom, out: Atom)
    requires NoClash(n.facts, n.facts) && IndicesFit(n.facts) && PortsDistinct(n)
    requires NearSide(n, ls, from, port, lsp, lrp, lr) && Joined(n.facts, n.sys, farLs, farLsp, farLrp, lr)
    requires Entering(p) && p.outport == 0 && p.inPort == port.props.ofport && p.ethDst == lsp.props.mac
    requires p.proto.Ip? && p.proto.ttl > 1
    requires Plain(n, lr, p.proto.dstIp) && BestPort(n.facts, lr, farLrp, p.proto.dstIp)
    requires BoundHere(n.facts, n.sys, farLs, to, out) && Target(n, farLs, to, p.proto.dstIp)
    requires out.props.ofport != OFPORT_NONE
    requires forall l :: !NatHit(n, ls.props.lsId, p.ethDst, l)
    requires forall l :: !NatHit(n, farLs.props.lsId, to.props.mac, l)
    ensures exists q :: Leads(n, p, Sent(out.props.ofport, q), 41) && RoutedFrame(p, q, farLrp, to)
  {
    hide OnlyStep, Leads, NoClash, IndicesFit, PortsDistinct, NatHit, BestPort, RouterKnown;
    assert lr.props.Lr? && lrp.props.Lrp? && lsp.props.Lsp? && out.props.OvsPort? && n.opts.dsrPort == None;
    hide BoundHere, Joined, Plain, NearSide, Target;
    var q := AtRouter(p, lsp, lrp, lr);
    FromRouter(n, q, farLs, farLsp, farLrp, lr, to, out);
    var t :| Leads(n, q, Sent(out.props.ofport, t), 29) && RoutedFrame(q, t, farLrp, to);
    hide AtRouter;
    ReachesRouter(n, p, ls, from, port, lsp, lrp, lr, Sent(out.props.ofport, t), 29);
  }

  // ----- Routes of a bundle -----

  /** A route of the router for the destination, whose next router runs behind tunnel port o,
      the port that the bundle has picked. */
  predicate BehindPort(
    n: Host, p: Packet, r: Atom, o: Atom, lr: Atom, lrp: Atom, lsp: Atom, farLsp: Atom, far: Atom, next: Atom)
  {
    r in n.facts && r.props.Lsr? && o in n.facts && o.props.OvsPort? && o.props.remote && 0 < o.props.ofport &&
    o.props.ofport == p.outport && LeavesOver(n.facts, n.sys, r, o, lr, lrp, lsp, farLsp, far, next) &&
    lr.props.lrId == p.dp && r.props.lr == lr.props.uuid && p.proto.Ip? && CoversNet(r.props, p.proto.dstIp)
  }

  lemma LegIsBehind(n: Host, p: Packet, l: Leg)
    requires Judges(n, p, l)
    ensures var h := l.hop; BehindPort(n, p, l.route, l.port, h.lr, h.lrp, h.lsp, h.farLsp, h.farLrp, h.next)
  {
    LegParts(l, n.facts);
    hide LegAtoms, AllIn, Net;
  }

  lemma BehindIsLeg(
    n: Host, p: Packet, r: Atom, o: Atom, lr: Atom, lrp: Atom, lsp: Atom, farLsp: Atom, far: Atom, next: Atom)
    returns (l: Leg)
    requires BehindPort(n, p, r, o, lr, lrp, lsp, farLsp, far, next)
    ensures Judges(n, p, l) && l.route == r && l.hop.lrp == lrp
  {
    var pin := PinOf(n.facts, n.sys, lr);
    var nextPin := PinOf(n.facts, n.sys, next);
    l := Leg(r, Hop(lrp, lsp, farLsp, far, lr, pin, next, nextPin, None), o);
    LegAtomsIn(l, n.facts);
    hide LegAtoms, AllIn, Net;
  }

  ghost predicate NoneLonger(n: Host, p: Packet, prefix: nat) {
    forall r, o, lr, lrp, lsp, farLsp, far, next ::
      BehindPort(n, p, r, o, lr, lrp, lsp, farLsp, far, next) ==> r.props.prefix <= prefix
  }

  /** Out of the port of the longest such route, towards its next hop. */
  ghost predicate TakesLeg(
    n: Host, p: Packet, v: Verdict,
    r: Atom, o: Atom, lr: Atom, lrp: Atom, lsp: Atom, farLsp: Atom, far: Atom, next: Atom)
  {
    BehindPort(n, p, r, o, lr, lrp, lsp, farLsp, far, next) && NoneLonger(n, p, r.props.prefix) && lrp.props.Lrp? &&
    v == Resubmit(p.(dst := lrp.props.ip % 0x1_0000, ethSrc := lrp.props.mac, nextHop := r.props.nextHop, table := 39))
  }

  lemma {:induction false} BestLeg(n: Host, p: Packet, l: Leg) returns (m: Leg)
    requires Judges(n, p, l)
    ensures PicksLeg(n, p, m)
    decreases 32 - l.route.props.prefix
  {
    hide NextHopOk, LegAtoms, AllIn, Net;
    if longer :| Judges(n, p, longer) && longer.route.props.prefix > l.route.props.prefix {
      m := BestLeg(n, p, longer);
    } else {
      m := l;
    }
  }

  ghost predicate SomeLeg(n: Host, p: Packet) {
    exists r, o, lr, lrp, lsp, farLsp, far, next :: BehindPort(n, p, r, o, lr, lrp, lsp, farLsp, far, next)
  }

  lemma LegsAreRoutes(n: Host, p: Packet)
    ensures (exists l :: PicksLeg(n, p, l)) <==> SomeLeg(n, p)
  {
    hide BehindPort, Judges;
    if l :| PicksLeg(n, p, l) {
      LegIsBehind(n, p, l);
    }
    if r, o, lr, lrp, lsp, farLsp, far, next :| BehindPort(n, p, r, o, lr, lrp, lsp, farLsp, far, next) {
      var l := BehindIsLeg(n, p, r, o, lr, lrp, lsp, farLsp, far, next);
      var m := BestLeg(n, p, l);
    }
  }

  lemma PickTakes(n: Host, p: Packet, l: Leg)
    requires PicksLeg(n, p, l)
    ensures l.route.props.Lsr? && l.hop.lrp.props.Lrp?
    ensures TakesLeg(n, p, Resubmit(p.(dst := l.hop.lrp.props.ip % 0x1_0000, ethSrc := l.hop.lrp.props.mac,
              nextHop := l.route.props.nextHop, table := 39)),
              l.route, l.port, l.hop.lr, l.hop.lrp, l.hop.lsp, l.hop.farLsp, l.hop.farLrp, l.hop.next)
  {
    LegIsBehind(n, p, l);
    forall r, o, lr, lrp, lsp, farLsp, far, next | BehindPort(n, p, r, o, lr, lrp, lsp, farLsp, far, next)
      ensures r.props.prefix <= l.route.props.prefix
    {
      var m := BehindIsLeg(n, p, r, o, lr, lrp, lsp, farLsp, far, next);
      assert Judges(n, p, m);
    }
    hide Judges, Net;
  }

  lemma TakenIsPicked(
    n: Host, p: Packet, v: Verdict,
    r: Atom, o: Atom, lr: Atom, lrp: Atom, lsp: Atom, farLsp: Atom, far: Atom, next: Atom)
    returns (l: Leg)
    requires TakesLeg(n, p, v, r, o, lr, lrp, lsp, farLsp, far, next)
    ensures PicksLeg(n, p, l) && l.route == r && l.hop.lrp == lrp
  {
    l := BehindIsLeg(n, p, r, o, lr, lrp, lsp, farLsp, far, next);
    forall m | Judges(n, p, m) ensures m.route.props.prefix <= l.route.props.prefix {
      LegIsBehind(n, p, m);
    }
    hide Judges, Net;
  }

  /** Table 38: a packet for which a bundle has picked a port leaves by the longest route of
      the router that leads behind this port; it is dropped when no port of the bundle is up. */
  lemma JudgeIff(n: Host, p: Packet, v: Verdict)
    requires p.table == 38 && !n.opts.gateway && KnownRouter(n, p.dp)
    ensures Step(n, p, v) <==>
      if SomeLeg(n, p) then
        exists r, o, lr, lrp, lsp, farLsp, far, next :: TakesLeg(n, p, v, r, o, lr, lrp, lsp, farLsp, far, next)
      else v == if p.outport == 0xffff then Dropped else Resubmit(p.(table := 39))
  {
    LegsAreRoutes(n, p);
    hide KnownRouter, PicksLeg, TakesLeg, SomeLeg, EnterStep, SwitchIngressStep, LookupStep, OutputStep,
      SwitchEgressStep, RouterIngressStep, RouterEgressStep, MiddleStep, NatStep, RouteStep, ResolveStep;
    forall l | PicksLeg(n, p, l)
      ensures l.route.props.Lsr? && l.hop.lrp.props.Lrp?
    {
      PickTakes(n, p, l);
    }
    if SomeLeg(n, p) { JudgeIsTake(n, p, v); }
  }

  lemma JudgeIsTake(n: Host, p: Packet, v: Verdict)
    requires p.table == 38 && !n.opts.gateway && SomeLeg(n, p)
    ensures JudgeStep(n, p, v) <==>
      exists r, o, lr, lrp, lsp, farLsp, far, next :: TakesLeg(n, p, v, r, o, lr, lrp, lsp, farLsp, far, next)
  {
    LegsAreRoutes(n, p);
    if JudgeStep(n, p, v) {
      var l :| PicksLeg(n, p, l) && v == Resubmit(p.(dst := PortId(l.hop.lrp.props.ip), ethSrc := l.hop.lrp.props.mac,
        nextHop := l.route.props.nextHop, table := 39));
      PickTakes(n, p, l);
    }
    if r, o, lr, lrp, lsp, farLsp, far, next :| TakesLeg(n, p, v, r, o, lr, lrp, lsp, farLsp, far, next) {
      var l := TakenIsPicked(n, p, v, r, o, lr, lrp, lsp, farLsp, far, next);
      hide PicksLeg;
    }
  }

  /** A member of a bundle of this router for the destination. */
  ghost predicate MemberOf(n: Host, dp: nat, dst: nat, g: Group, r: Atom, o: Atom, q: Atom, other: Atom, lr: Atom) {
    BundleMember(n.facts, n.sys, g, r, o, q, other) && lr in n.facts && lr.props.Lr? && lr.props.lrId == dp &&
    lr.props.uuid == g.lr && CoversNet(r.props, dst)
  }

  /** Table 37 changes reg4 only to the tunnel port of a member of such a bundle, or to none. */
  lemma BundlePicksMember(n: Host, p: Packet, q: Packet)
    requires p.table == 37 && !n.opts.gateway && Step(n, p, Resubmit(q)) && q.outport != p.outport
    ensures q == p.(outport := q.outport, table := 38)
    ensures q.outport == 0xffff || (p.proto.Ip? && exists g, r, o, m, other, lr ::
      MemberOf(n, p.dp, p.proto.dstIp, g, r, o, m, other, lr) && o.props.OvsPort? && o.props.ofport == q.outport)
  {
    hide EnterStep, SwitchIngressStep, LookupStep, OutputStep, SwitchEgressStep, RouterIngressStep, RouterEgressStep,
      MiddleStep, NatStep, JudgeStep, ResolveStep;
    var k, a :| PicksRoute(n, p.dp, p.proto.dstIp, k, a) && TakesRoute(p, a, Resubmit(q));
    hide Derived, IsBundle, Matches;
    assert a.BundleLoad? && (q.outport in a.ports || q.outport == 0xffff);
    if q.outport != 0xffff {
      BundleHasMember(n, p.dp, p.proto.dstIp, k, a, q.outport);
    }
  }

  lemma BundleHasMember(n: Host, dp: nat, dst: nat, k: FlowKey, a: Action, port: nat)
    requires RoutingFlow(n, k, a) && Matches(k, dp, dst) && a.BundleLoad? && port in a.ports
    ensures exists g, r, o, m, other, lr ::
      MemberOf(n, dp, dst, g, r, o, m, other, lr) && o.props.OvsPort? && o.props.ofport == port
  {
    hide Net, LiveRow;
    if Derived(n.facts, n.sys, k, a) { DerivedIsNoBundle(n.facts, n.sys, k, a); }
    hide Derived;
    var g, lr, pin :| IsBundle(n.facts, n.sys, g, lr, pin, k, a);
    RouterIn(lr, pin, n.facts);
    var u := ListedRow(a.ports, LiveRows(n.facts, n.sys, g), port);
    BundleRowMeans(n.facts, n.sys, g, u, port);
    var r, o, m, other :|
      BundleMember(n.facts, n.sys, g, r, o, m, other) && r.props.uuid == u && o.props.ofport == port;
    assert MemberOf(n, dp, dst, g, r, o, m, other, lr);
  }

  lemma ListedRow(ports: seq<nat>, rows: Rows, port: nat) returns (u: Uuid)
    requires Lists(ports, rows) && port in ports
    ensures (u, port) in rows
  {
    var ids :| ListedBy(ports, ids, rows);
    var i :| 0 <= i < |ports| && ports[i] == port;
    u := ids[i];
  }

  // ----- Routes and next hops -----

  /** Out of a router port whose network covers the destination, to the destination itself. */
  predicate TakesPortRoute(n: Host, p: Packet, q: Packet, ls: Atom, lsp: Atom, lrp: Atom, lr: Atom) {
    Joined(n.facts, n.sys, ls, lsp, lrp, lr) && lr.props.lrId == p.dp && p.proto.Ip? &&
    CoversNet(lrp.props, p.proto.dstIp) && lrp.props.Lrp? &&
    q == p.(dst := lrp.props.ip % 0x1_0000, ethSrc := lrp.props.mac, nextHop := p.proto.dstIp, table := 38)
  }

  /** Out of the port of a static route whose network covers the destination, to its next hop. */
  ghost predicate TakesStaticRoute(
    n: Host, p: Packet, q: Packet,
    r: Atom, lr: Atom, lrp: Atom, lsp: Atom, farLsp: Atom, far: Atom, next: Atom)
  {
    Installed.RouteFlow(n.facts, n.sys, r, lr, lrp, lsp, farLsp, far, next) && lr.props.lrId == p.dp && p.proto.Ip? &&
    CoversNet(r.props, p.proto.dstIp) && r.props.Lsr? && lrp.props.Lrp? &&
    q == p.(dst := lrp.props.ip % 0x1_0000, ethSrc := lrp.props.mac, nextHop := r.props.nextHop, table := 38)
  }

  /** Table 37: what passes without a bundle has taken the route of a port or a static route. */
  lemma RouteMeans(n: Host, p: Packet, q: Packet)
    requires p.table == 37 && !n.opts.gateway && p.outport == 0 == q.outport && Step(n, p, Resubmit(q))
    ensures (exists ls, lsp, lrp, lr :: TakesPortRoute(n, p, q, ls, lsp, lrp, lr)) ||
            (exists r, lr, lrp, lsp, farLsp, far, next ::
               TakesStaticRoute(n, p, q, r, lr, lrp, lsp, farLsp, far, next))
  {
    hide EnterStep, SwitchIngressStep, LookupStep, OutputStep, SwitchEgressStep, RouterIngressStep, RouterEgressStep,
      MiddleStep, NatStep, JudgeStep, ResolveStep, Derived, IsBundle, Matches, Installed.RouteFlow, Joined, Net;
    var k, a :| PicksRoute(n, p.dp, p.proto.dstIp, k, a) && TakesRoute(p, a, Resubmit(q));
    if a.BundleLoad? {
      var port: nat :| (port in a.ports || port == OFPORT_NONE) && q == p.(outport := port, table := 38);
      BundlePortIsReal(n, p.dp, p.proto.dstIp, k, a, port);
    } else {
      RouteFlowMeans(n, p, q, k, a);
    }
  }

  lemma BundlePortIsReal(n: Host, dp: nat, dst: nat, k: FlowKey, a: Action, port: nat)
    requires RoutingFlow(n, k, a) && Matches(k, dp, dst) && a.BundleLoad? && (port in a.ports || port == OFPORT_NONE)
    ensures port > 0
  {
    hide RoutingFlow, Matches, Net;
    if port in a.ports {
      BundleHasMember(n, dp, dst, k, a, port);
      hide MemberOf;
      var g, r, o, m, other, lr :|
        MemberOf(n, dp, dst, g, r, o, m, other, lr) && o.props.OvsPort? && o.props.ofport == port;
      MemberPort(n, dp, dst, g, r, o, m, other, lr);
    }
  }

  lemma MemberPort(n: Host, dp: nat, dst: nat, g: Group, r: Atom, o: Atom, m: Atom, other: Atom, lr: Atom)
    requires MemberOf(n, dp, dst, g, r, o, m, other, lr)
    ensures o.props.OvsPort? && o.props.ofport > 0
  {
    hide Net, LeavesOver;
  }

  lemma RouteFlowMeans(n: Host, p: Packet, q: Packet, k: FlowKey, a: Action)
    requires p.proto.Ip? && RoutingFlow(n, k, a) && Matches(k, p.dp, p.proto.dstIp)
    requires a.RouteVia? && TakesRoute(p, a, Resubmit(q))
    ensures (exists ls, lsp, lrp, lr :: TakesPortRoute(n, p, q, ls, lsp, lrp, lr)) ||
            (exists r, lr, lrp, lsp, farLsp, far, next ::
               TakesStaticRoute(n, p, q, r, lr, lrp, lsp, farLsp, far, next))
  {
    hide IsBundle, Joined, Net, Installed.RouteFlow;
    if exists g, lr, pin :: IsBundle(n.facts, n.sys, g, lr, pin, k, a) { BundleActs(n, k, a); }
    hide Derived;
    if a.nextHop.None? {
      AutoRouteMeans(n.facts, n.sys, k, a);
      var ls, lsp, lrp, lr :| PortRoute(n.facts, n.sys, ls, lsp, lrp, lr, k, a);
      PortIsTaken(n, p, q, ls, lsp, lrp, lr, k, a);
    } else {
      StaticRouteMeans(n.facts, n.sys, k, a);
      var r, lr, lrp, lsp, farLsp, far, next :|
        NetworkRoute(n.facts, n.sys, r, lr, lrp, lsp, farLsp, far, next, k, a);
      StaticIsTaken(n, p, q, r, lr, lrp, lsp, farLsp, far, next, k, a);
    }
  }

  lemma BundleActs(n: Host, k: FlowKey, a: Action)
    requires exists g, lr, pin :: IsBundle(n.facts, n.sys, g, lr, pin, k, a)
    ensures a.BundleLoad?
  {
    hide HasBundle, Lists;
  }

  lemma PortIsTaken(
    n: Host, p: Packet, q: Packet, ls: Atom, lsp: Atom, lrp: Atom, lr: Atom, k: FlowKey, a: Action)
    requires p.proto.Ip? && PortRoute(n.facts, n.sys, ls, lsp, lrp, lr, k, a)
    requires Matches(k, p.dp, p.proto.dstIp) && TakesRoute(p, a, Resubmit(q))
    ensures TakesPortRoute(n, p, q, ls, lsp, lrp, lr)
  {
    hide Net, RouterKnown;
  }

  lemma StaticIsTaken(
    n: Host, p: Packet, q: Packet, r: Atom, lr: Atom, lrp: Atom, lsp: Atom, farLsp: Atom, far: Atom, next: Atom,
    k: FlowKey, a: Action)
    requires p.proto.Ip? && NetworkRoute(n.facts, n.sys, r, lr, lrp, lsp, farLsp, far, next, k, a)
    requires Matches(k, p.dp, p.proto.dstIp) && TakesRoute(p, a, Resubmit(q))
    ensures TakesStaticRoute(n, p, q, r, lr, lrp, lsp, farLsp, far, next)
  {
    hide Net, NextAlive, RouterKnown;
  }

  /** A port of the switch behind the router port that the packet was routed to, with the
      address of the next hop; it must lead to a router or be bound somewhere. */
  predicate NextHopPort(n: Host, p: Packet, ls: Atom, lsp: Atom, lrp: Atom, lr: Atom, to: Atom) {
    Exit(n, p, ls, lsp, lrp, lr) && to in n.facts && to.props.Lsp? && to.props.ls == ls.props.uuid &&
    to.props.ip == p.nextHop && (to.props.peer != None || to.props.chassis != None)
  }

  predicate Resolves(n: Host, p: Packet, v: Verdict, ls: Atom, lsp: Atom, lrp: Atom, lr: Atom, to: Atom) {
    NextHopPort(n, p, ls, lsp, lrp, lr, to) && to.props.Lsp? && v == Resubmit(p.(ethDst := to.props.mac, table := 56))
  }

  lemma OppositeMeans(n: Host, p: Packet)
    ensures forall l, to :: Opposite(n, p, l, to) ==> NextHopPort(n, p, l.ls, l.lsp, l.lrp, l.lr, to)
    ensures forall ls, lsp, lrp, lr, to :: NextHopPort(n, p, ls, lsp, lrp, lr, to) ==> exists l :: Opposite(n, p, l, to)
  {
    forall l, to | Opposite(n, p, l, to) ensures NextHopPort(n, p, l.ls, l.lsp, l.lrp, l.lr, to) {
      LinkIsJoined(n.facts, n.sys, l);
      hide LinkOk, RouterKnown;
    }
    forall ls, lsp, lrp, lr, to | NextHopPort(n, p, ls, lsp, lrp, lr, to) ensures exists l :: Opposite(n, p, l, to) {
      var l := JoinedIsLink(n.facts, n.sys, ls, lsp, lrp, lr);
      assert Opposite(n, p, l, to);
    }
  }

  /** Table 55: the destination MAC is that of a port with the address of the next hop; without
      one it is what has been learned, or none, and nothing else changes. */
  lemma ResolveIff(n: Host, p: Packet, v: Verdict)
    requires p.table == 55 && p.proto.Ip? && KnownRouter(n, p.dp)
    ensures Step(n, p, v) <==>
      if exists ls, lsp, lrp, lr, to :: NextHopPort(n, p, ls, lsp, lrp, lr, to) then
        exists ls, lsp, lrp, lr, to :: Resolves(n, p, v, ls, lsp, lrp, lr, to)
      else v.Resubmit? && v == Resubmit(p.(ethDst := v.next.ethDst, table := 56))
  {
    OppositeMeans(n, p);
    hide KnownRouter, Opposite, NextHopPort, EnterStep, SwitchIngressStep, LookupStep, OutputStep, SwitchEgressStep,
      RouterIngressStep, RouterEgressStep, MiddleStep, NatStep, RouteStep, JudgeStep;
    ResolveIsStep(n, p, v);
  }

  lemma ResolveIsStep(n: Host, p: Packet, v: Verdict)
    requires p.proto.Ip? && KnownRouter(n, p.dp)
    ensures ResolveStep(n, p, v) <==>
      if exists ls, lsp, lrp, lr, to :: NextHopPort(n, p, ls, lsp, lrp, lr, to) then
        exists ls, lsp, lrp, lr, to :: Resolves(n, p, v, ls, lsp, lrp, lr, to)
      else v.Resubmit? && v == Resubmit(p.(ethDst := v.next.ethDst, table := 56))
  {
    OppositeMeans(n, p);
    OppositeIsPort(n, p);
    hide KnownRouter, Opposite, NextHopPort;
    forall l, to | Opposite(n, p, l, to) && v == Resubmit(p.(ethDst := to.props.mac, table := 56))
      ensures Resolves(n, p, v, l.ls, l.lsp, l.lrp, l.lr, to)
    {
    }
    forall ls, lsp, lrp, lr, to | Resolves(n, p, v, ls, lsp, lrp, lr, to)
      ensures exists l :: Opposite(n, p, l, to) && v == Resubmit(p.(ethDst := to.props.mac, table := 56))
    {
    }
  }

  lemma OppositeIsPort(n: Host, p: Packet)
    ensures forall l, to :: Opposite(n, p, l, to) ==> to.props.Lsp?
  {
  }
}
