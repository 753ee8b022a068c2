// What the installed flows mean, in terms of the entities alone: each kind of flow
// of a full table, its key and its action, with both directions.

module Installed {
  import opened Common
  import opened Entities
  import opened FlowRules
  import opened FlowSync
  import opened Ecmp
  import opened Rounds
  import opened Agent

  // ----- Entities and how they belong together -----

  /** A port of a switch and a port of a router that name each other. */
  predicate Peers(lsp: Props, lrp: Props) {
    lsp.Lsp? && lrp.Lrp? && lsp.peer == Some(lrp.uuid) && lrp.lrpPeer == Some(lsp.uuid)
  }

  predicate RunsHere(lr: Props, sys: Uuid) {
    lr.Lr? && (lr.lrChassis == None || lr.lrChassis == Some(sys))
  }

  /** The router runs here, or on a chassis that is known. */
  predicate RouterKnown(s: set<Atom>, lr: Props, sys: Uuid) {
    lr.Lr? && (RunsHere(lr, sys) || exists c :: c in s && c.props.Chassis? && lr.lrChassis == Some(c.props.uuid))
  }

  /** A switch and a router, joined by two ports. */
  predicate Joined(s: set<Atom>, sys: Uuid, ls: Atom, lsp: Atom, lrp: Atom, lr: Atom) {
    ls in s && lsp in s && lrp in s && lr in s && ls.props.Ls? && Peers(lsp.props, lrp.props) &&
    ls.props.uuid == lsp.props.ls && lr.props.Lr? && lr.props.uuid == lrp.props.lr && RouterKnown(s, lr.props, sys)
  }

  /** An interface of this host for the port; of ports with a peer only patch ports have one. */
  predicate BoundHere(s: set<Atom>, sys: Uuid, ls: Atom, lsp: Atom, port: Atom) {
    ls in s && lsp in s && port in s && ls.props.Ls? && lsp.props.Lsp? && ls.props.uuid == lsp.props.ls &&
    lsp.props.chassis == Some(sys) && (lsp.props.peer.Some? ==> lsp.props.ip == 0xffff_ffff) &&
    port.props.OvsPort? && !port.props.remote && port.props.iface == lsp.props.uuid && port.props.ofport > 0
  }

  /** A tunnel to a chassis. */
  predicate TunnelIn(s: set<Atom>, port: Atom, chassis: Atom) {
    port in s && chassis in s && port.props.OvsPort? && port.props.remote && port.props.ofport > 0 &&
    chassis.props.Chassis? && port.props.iface == chassis.props.uuid
  }

  lemma JoinedIsLink(s: set<Atom>, sys: Uuid, ls: Atom, lsp: Atom, lrp: Atom, lr: Atom) returns (l: Link)
    requires Joined(s, sys, ls, lsp, lrp, lr)
    ensures LinkOk(l, sys) && LinkOver(l, s) && l.lsp == lsp && l.lrp == lrp && l.ls == ls && l.lr == lr
  {
    if RunsHere(lr.props, sys) {
      l := Link(lsp, lrp, ls, lr, None);
    } else {
      var c :| c in s && c.props.Chassis? && lr.props.lrChassis == Some(c.props.uuid);
      l := Link(lsp, lrp, ls, lr, Some(c));
    }
  }

  lemma LinkIsJoined(s: set<Atom>, sys: Uuid, l: Link)
    requires LinkOk(l, sys) && LinkOver(l, s)
    ensures Joined(s, sys, l.ls, l.lsp, l.lrp, l.lr)
  {
  }

  lemma ByParts(s: set<Atom>, sys: Uuid, d: Derivation)
    requires Joins(d, sys) && PartsOver(d, s)
    ensures Derived(s, sys, Key(d, sys), ActionOf(d, sys))
  {
    hide LinkOk, BondOk, HopOk, RemoteOk, Key, ActionOf;
    forall i | 0 <= i < |Atoms(d)| ensures Atoms(d)[i] in s {
      PartsAreAtoms(d, s, i);
    }
    assert DerivedBy(s, sys, d, Key(d, sys), ActionOf(d, sys));
  }

  lemma PartsAreAtoms(d: Derivation, s: set<Atom>, i: nat)
    requires PartsOver(d, s) && i < |Atoms(d)|
    ensures Atoms(d)[i] in s
  {
  }

  // ----- Lookup and forwarding on a switch -----

  /** Towards a port of this host, or towards the own port of a router that runs here. */
  ghost predicate LocalFlow(s: set<Atom>, sys: Uuid, ls: Atom, lsp: Atom) {
    (exists port :: BoundHere(s, sys, ls, lsp, port)) ||
    (exists lrp, lr :: Joined(s, sys, ls, lsp, lrp, lr) && RunsHere(lr.props, sys))
  }

  /** Local lookup: the destination MAC becomes the low 16 bits of the port's address. */
  ghost predicate LocalLookup(s: set<Atom>, sys: Uuid, ls: Atom, lsp: Atom, k: FlowKey, a: Action) {
    LocalFlow(s, sys, ls, lsp) && ls.props.Ls? && lsp.props.Lsp? &&
    k == FlowKey(6, 4, ls.props.lsId, EthDst(lsp.props.mac)) && a == LoadDst(lsp.props.ip % 0x1_0000)
  }

  lemma LocalLookupMeans(s: set<Atom>, sys: Uuid, k: FlowKey, a: Action)
    ensures Derived(s, sys, k, a) && a.LoadDst? <==>
      exists ls, lsp :: LocalLookup(s, sys, ls, lsp, k, a)
  {
    hide HopOk, RemoteOk, Over;
    if Derived(s, sys, k, a) && a.LoadDst? {
      var d :| DerivedBy(s, sys, d, k, a);
      OverParts(d, s);
      if d.LookupLink? {
        LinkIsJoined(s, sys, d.link);
        assert LocalLookup(s, sys, d.link.ls, d.link.lsp, k, a);
      } else {
        assert BoundHere(s, sys, d.bond.ls, d.bond.lsp, d.bond.port);
        assert LocalLookup(s, sys, d.bond.ls, d.bond.lsp, k, a);
      }
    }
    if ls, lsp :| LocalLookup(s, sys, ls, lsp, k, a) {
      if port :| BoundHere(s, sys, ls, lsp, port) {
        ByParts(s, sys, LookupBond(Bond(lsp, ls, port)));
      } else {
        var lrp, lr :| Joined(s, sys, ls, lsp, lrp, lr) && RunsHere(lr.props, sys);
        var l := JoinedIsLink(s, sys, ls, lsp, lrp, lr);
        ByParts(s, sys, LookupLink(l));
      }
    }
  }

  /** Towards a port of another chassis, or towards a router that runs there. */
  ghost predicate RemoteFlow(s: set<Atom>, sys: Uuid, ls: Atom, lsp: Atom, port: Atom, chassis: Atom) {
    TunnelIn(s, port, chassis) && ls in s && lsp in s && ls.props.Ls? && lsp.props.Lsp? &&
    ls.props.uuid == lsp.props.ls &&
    ((lsp.props.peer.None? && lsp.props.chassis == Some(chassis.props.uuid)) ||
     (exists lrp, lr :: Joined(s, sys, ls, lsp, lrp, lr) && lr.props.lrChassis == Some(chassis.props.uuid)))
  }

  /** Remote lookup: the same destination, and the tunnel to the chassis of the port. */
  ghost predicate RemoteLookup(
    s: set<Atom>, sys: Uuid, ls: Atom, lsp: Atom, port: Atom, chassis: Atom, k: FlowKey, a: Action)
  {
    RemoteFlow(s, sys, ls, lsp, port, chassis) && k == FlowKey(6, 3, ls.props.lsId, EthDst(lsp.props.mac)) &&
    a == SendRemote(lsp.props.ip % 0x1_0000, port.props.ofport)
  }

  lemma RemoteLookupMeans(s: set<Atom>, sys: Uuid, k: FlowKey, a: Action)
    ensures Derived(s, sys, k, a) && a.SendRemote? <==>
      exists ls, lsp, port, chassis :: RemoteLookup(s, sys, ls, lsp, port, chassis, k, a)
  {
    hide HopOk, BondOk, Over;
    if Derived(s, sys, k, a) && a.SendRemote? {
      var d :| DerivedBy(s, sys, d, k, a);
      OverParts(d, s);
      if d.LookupRemoteLink? {
        LinkIsJoined(s, sys, d.link);
        assert RemoteLookup(s, sys, d.link.ls, d.link.lsp, d.remote.port, d.remote.chassis, k, a);
      } else {
        assert RemoteLookup(s, sys, d.ls, d.lsp, d.remote.port, d.remote.chassis, k, a);
      }
    }
    if ls, lsp, port, chassis :| RemoteLookup(s, sys, ls, lsp, port, chassis, k, a) {
      if lsp.props.peer.None? && lsp.props.chassis == Some(chassis.props.uuid) {
        ByParts(s, sys, LookupRemoteLsp(lsp, ls, Remote(port, chassis)));
      } else {
        var lrp, lr :| Joined(s, sys, ls, lsp, lrp, lr) && lr.props.lrChassis == Some(chassis.props.uuid);
        var l := JoinedIsLink(s, sys, ls, lsp, lrp, lr);
        ByParts(s, sys, LookupRemoteLink(l, Remote(port, chassis)));
      }
    }
  }

  /** Forwarding to a port of this host: out of its interface. */
  predicate PortForward(s: set<Atom>, sys: Uuid, ls: Atom, lsp: Atom, port: Atom, k: FlowKey, a: Action) {
    BoundHere(s, sys, ls, lsp, port) && k == FlowKey(22, 3, ls.props.lsId, RegDst(lsp.props.ip % 0x1_0000)) &&
    a == PushOut(port.props.ofport)
  }

  lemma PushOutMeans(s: set<Atom>, sys: Uuid, k: FlowKey, a: Action)
    ensures Derived(s, sys, k, a) && a.PushOut? <==>
      exists ls, lsp, port :: PortForward(s, sys, ls, lsp, port, k, a)
  {
    hide HopOk, RemoteOk, LinkOk, Over;
    if Derived(s, sys, k, a) && a.PushOut? {
      var d :| DerivedBy(s, sys, d, k, a);
      OverParts(d, s);
      assert PortForward(s, sys, d.bond.ls, d.bond.lsp, d.bond.port, k, a);
    }
    if ls, lsp, port :| PortForward(s, sys, ls, lsp, port, k, a) {
      ByParts(s, sys, ForwardBond(Bond(lsp, ls, port)));
    }
  }

  /** Forwarding to a router: its id, and the low 16 bits of the router port as the source. */
  predicate RouterForward(
    s: set<Atom>, sys: Uuid, ls: Atom, lsp: Atom, lrp: Atom, lr: Atom, k: FlowKey, a: Action)
  {
    Joined(s, sys, ls, lsp, lrp, lr) && k == FlowKey(22, 2, ls.props.lsId, RegDst(lsp.props.ip % 0x1_0000)) &&
    a == EnterRouter(lr.props.lrId, lrp.props.ip % 0x1_0000)
  }

  lemma EnterRouterMeans(s: set<Atom>, sys: Uuid, k: FlowKey, a: Action)
    ensures Derived(s, sys, k, a) && a.EnterRouter? <==>
      exists ls, lsp, lrp, lr :: RouterForward(s, sys, ls, lsp, lrp, lr, k, a)
  {
    hide HopOk, RemoteOk, BondOk, Over;
    if Derived(s, sys, k, a) && a.EnterRouter? {
      var d :| DerivedBy(s, sys, d, k, a);
      OverParts(d, s);
      LinkIsJoined(s, sys, d.link);
      assert RouterForward(s, sys, d.link.ls, d.link.lsp, d.link.lrp, d.link.lr, k, a);
    }
    if ls, lsp, lrp, lr :| RouterForward(s, sys, ls, lsp, lrp, lr, k, a) {
      var l := JoinedIsLink(s, sys, ls, lsp, lrp, lr);
      ByParts(s, sys, ForwardLink(l));
    }
  }

  // ----- Routing -----

  /** Automatic routes: the network of a router port is reached through this port; its id
      is the destination, its MAC the source, its address the sender of ARP requests. */
  predicate PortRoute(s: set<Atom>, sys: Uuid, ls: Atom, lsp: Atom, lrp: Atom, lr: Atom, k: FlowKey, a: Action) {
    Joined(s, sys, ls, lsp, lrp, lr) && WellTyped(lrp.props) &&
    k == FlowKey(37, lrp.props.prefix * 1024 + lrp.ilk, lr.props.lrId,
                 IpDst(Net(lrp.props.ip, lrp.props.prefix), lrp.props.prefix)) &&
    a == RouteVia(lrp.props.ip % 0x1_0000, lrp.props.mac, None, lrp.props.ip)
  }

  lemma AutoRouteMeans(s: set<Atom>, sys: Uuid, k: FlowKey, a: Action)
    ensures Derived(s, sys, k, a) && a.RouteVia? && a.nextHop.None? <==>
      exists ls, lsp, lrp, lr :: PortRoute(s, sys, ls, lsp, lrp, lr, k, a)
  {
    hide HopOk, RemoteOk, BondOk, Over, Net;
    if Derived(s, sys, k, a) && a.RouteVia? && a.nextHop.None? {
      var d :| DerivedBy(s, sys, d, k, a);
      OverParts(d, s);
      LinkIsJoined(s, sys, d.link);
      assert PortRoute(s, sys, d.link.ls, d.link.lsp, d.link.lrp, d.link.lr, k, a);
    }
    if ls, lsp, lrp, lr :| PortRoute(s, sys, ls, lsp, lrp, lr, k, a) {
      var l := JoinedIsLink(s, sys, ls, lsp, lrp, lr);
      ByParts(s, sys, AutoRoute(l));
    }
  }

  /** Two routers on one switch: out of port lrp of lr, into port far of next. */
  predicate Neighbours(s: set<Atom>, sys: Uuid, lr: Atom, lrp: Atom, lsp: Atom, farLsp: Atom, far: Atom, next: Atom) {
    lr in s && lrp in s && lsp in s && farLsp in s && far in s && next in s &&
    Peers(lsp.props, lrp.props) && Peers(farLsp.props, far.props) && lsp.props.ls == farLsp.props.ls &&
    lr.props.Lr? && lr.props.uuid == lrp.props.lr && next.props.Lr? && next.props.uuid == far.props.lr &&
    lrp.props.lr != far.props.lr && RouterKnown(s, lr.props, sys) && RouterKnown(s, next.props, sys)
  }

  /** The next router can be reached: it runs here, or a tunnel leads to its chassis. */
  ghost predicate NextAlive(s: set<Atom>, sys: Uuid, next: Props) {
    RunsHere(next, sys) ||
    (next.Lr? && exists port, chassis :: TunnelIn(s, port, chassis) && next.lrChassis == Some(chassis.props.uuid))
  }

  ghost predicate RouteFlow(
    s: set<Atom>, sys: Uuid, r: Atom, lr: Atom, lrp: Atom, lsp: Atom, farLsp: Atom, far: Atom, next: Atom)
  {
    r in s && r.props.Lsr? && WellTyped(r.props) && Neighbours(s, sys, lr, lrp, lsp, farLsp, far, next) &&
    NextAlive(s, sys, next.props) && r.props.outport == lrp.props.uuid
  }

  /** Static routes: the network of the route is reached through its outport; the next hop
      is the route's, the sender of ARP requests the address of the outport. */
  ghost predicate NetworkRoute(
    s: set<Atom>, sys: Uuid, r: Atom, lr: Atom, lrp: Atom, lsp: Atom, farLsp: Atom, far: Atom, next: Atom,
    k: FlowKey, a: Action)
  {
    RouteFlow(s, sys, r, lr, lrp, lsp, farLsp, far, next) &&
    k == FlowKey(37, r.props.prefix * 1024 + 64 + r.ilk, lr.props.lrId,
                 IpDst(Net(r.props.ip, r.props.prefix), r.props.prefix)) &&
    a == RouteVia(lrp.props.ip % 0x1_0000, lrp.props.mac, Some(r.props.nextHop), lrp.props.ip)
  }

  lemma StaticRouteMeans(s: set<Atom>, sys: Uuid, k: FlowKey, a: Action)
    ensures Derived(s, sys, k, a) && a.RouteVia? && a.nextHop.Some? <==>
      exists r, lr, lrp, lsp, farLsp, far, next :: NetworkRoute(s, sys, r, lr, lrp, lsp, farLsp, far, next, k, a)
  {
    hide RemoteOk, BondOk, LinkOk, Over, Net, HopOver;
    if Derived(s, sys, k, a) && a.RouteVia? && a.nextHop.Some? {
      var d :| DerivedBy(s, sys, d, k, a);
      OverParts(d, s);
      var h := d.hop;
      HopIsRouteFlow(s, sys, d.route, h);
      hide HopOk, RouteFlow;
      assert NetworkRoute(s, sys, d.route, h.lr, h.lrp, h.lsp, h.farLsp, h.farLrp, h.next, k, a);
    }
    if r, lr, lrp, lsp, farLsp, far, next :| NetworkRoute(s, sys, r, lr, lrp, lsp, farLsp, far, next, k, a) {
      var h := RouteFlowIsHop(s, sys, r, lr, lrp, lsp, farLsp, far, next);
      hide HopOk;
      ByParts(s, sys, StaticRoute(r, h));
    }
  }

  lemma HopIsRouteFlow(s: set<Atom>, sys: Uuid, r: Atom, h: Hop)
    requires r in s && r.props.Lsr? && WellTyped(r.props) && HopOk(h, sys) && HopOver(h, s)
    requires h.lrp.props.Lrp? && r.props.outport == h.lrp.props.uuid
    ensures RouteFlow(s, sys, r, h.lr, h.lrp, h.lsp, h.farLsp, h.farLrp, h.next)
  {
    if h.via.Some? { assert TunnelIn(s, h.via.value.port, h.via.value.chassis); }
  }

  /** The chassis of a router that runs elsewhere. */
  lemma PinOf(s: set<Atom>, sys: Uuid, lr: Atom) returns (pin: Option<Atom>)
    requires RouterKnown(s, lr.props, sys)
    ensures RouterOk(lr, pin, sys) && (pin.Some? ==> pin.value in s)
  {
    pin := None;
    if !RunsHere(lr.props, sys) {
      var c :| c in s && c.props.Chassis? && lr.props.lrChassis == Some(c.props.uuid);
      pin := Some(c);
    }
  }

  lemma RouteFlowIsHop(
    s: set<Atom>, sys: Uuid, r: Atom, lr: Atom, lrp: Atom, lsp: Atom, farLsp: Atom, far: Atom, next: Atom)
    returns (h: Hop)
    requires RouteFlow(s, sys, r, lr, lrp, lsp, farLsp, far, next)
    ensures HopOk(h, sys) && HopOver(h, s) && h.lrp == lrp && h.lr == lr
  {
    var pin := PinOf(s, sys, lr);
    var nextPin := PinOf(s, sys, next);
    var via := None;
    if !RunsHere(next.props, sys) {
      var port, chassis :| TunnelIn(s, port, chassis) && next.props.lrChassis == Some(chassis.props.uuid);
      via := Some(Remote(port, chassis));
    }
    h := Hop(lrp, lsp, farLsp, far, lr, pin, next, nextPin, via);
  }

  // ----- Bundles -----

  /** A static route whose next router runs behind tunnel port o. */
  ghost predicate LeavesBy(s: set<Atom>, sys: Uuid, r: Atom, o: Atom) {
    r in s && r.props.Lsr? && WellTyped(r.props) &&
    o in s && o.props.OvsPort? && o.props.remote && o.props.ofport > 0 &&
    exists lr, lrp, lsp, farLsp, far, next :: LeavesOver(s, sys, r, o, lr, lrp, lsp, farLsp, far, next)
  }

  predicate LeavesOver(
    s: set<Atom>, sys: Uuid, r: Atom, o: Atom, lr: Atom, lrp: Atom, lsp: Atom, farLsp: Atom, far: Atom, next: Atom)
  {
    Neighbours(s, sys, lr, lrp, lsp, farLsp, far, next) && r.props.Lsr? && r.props.outport == lrp.props.uuid &&
    o.props.OvsPort? && next.props.lrChassis == Some(o.props.iface)
  }

  /** Two routes of one router, network and next hop through different ports. */
  predicate Alternatives(r: Props, q: Props) {
    r.Lsr? && q.Lsr? && r.lr == q.lr && r.ip == q.ip && r.prefix == q.prefix && r.nextHop == q.nextHop &&
    r.uuid != q.uuid && r.outport != q.outport
  }

  ghost predicate BundleMember(s: set<Atom>, sys: Uuid, g: Group, r: Atom, o: Atom, q: Atom, other: Atom) {
    o.props.OvsPort? && LeavesBy(s, sys, r, o) && LeavesBy(s, sys, q, other) && Alternatives(r.props, q.props) &&
    r.props.lr == g.lr && r.props.ip == g.ip && r.props.prefix == g.prefix
  }

  lemma LegLeaves(s: set<Atom>, sys: Uuid, l: Leg)
    requires LegOk(l, sys) && AllIn(LegAtoms(l), s)
    ensures LeavesBy(s, sys, l.route, l.port)
  {
    LegParts(l, s);
    hide LegAtoms, AllIn;
    var h := l.hop;
    assert LeavesOver(s, sys, l.route, l.port, h.lr, h.lrp, h.lsp, h.farLsp, h.farLrp, h.next);
  }

  lemma LeavesIsLeg(s: set<Atom>, sys: Uuid, r: Atom, o: Atom) returns (l: Leg)
    requires LeavesBy(s, sys, r, o)
    ensures LegOk(l, sys) && AllIn(LegAtoms(l), s) && l.route == r && l.port == o
  {
    var lr, lrp, lsp, farLsp, far, next :| LeavesOver(s, sys, r, o, lr, lrp, lsp, farLsp, far, next);
    var pin := PinOf(s, sys, lr);
    var nextPin := PinOf(s, sys, next);
    l := Leg(r, Hop(lrp, lsp, farLsp, far, lr, pin, next, nextPin, None), o);
    hide LeavesBy;
    LegAtomsIn(l, s);
  }

  lemma LegAtomsIn(l: Leg, s: set<Atom>)
    requires l.route in s && HopOver(l.hop, s) && l.port in s
    ensures AllIn(LegAtoms(l), s)
  {
  }

  /** A bundle lists the tunnel port of a route if and only if the next router of the route
      runs behind it and there is an alternative whose next router is alive as well. */
  lemma BundleRowMeans(s: set<Atom>, sys: Uuid, g: Group, u: Uuid, port: nat)
    ensures LiveRow(s, sys, g, u, port) <==>
      exists r, o, q, other :: BundleMember(s, sys, g, r, o, q, other) && r.props.uuid == u && o.props.ofport == port
  {
    hide LegAtoms, AllIn, NextHopOk, LeavesBy;
    if LiveRow(s, sys, g, u, port) {
      var a, b :| LivePair(s, sys, g, a, b) && Contributes(a, u, port);
      LegLeaves(s, sys, a);
      LegLeaves(s, sys, b);
      assert BundleMember(s, sys, g, a.route, a.port, b.route, b.port);
    }
    if r, o, q, other :| BundleMember(s, sys, g, r, o, q, other) && r.props.uuid == u && o.props.ofport == port {
      var a := LeavesIsLeg(s, sys, r, o);
      var b := LeavesIsLeg(s, sys, q, other);
      assert LivePair(s, sys, g, a, b) && Contributes(a, u, port);
    }
  }

  /** The bundle of a group is matched by exactly the packets of its network, on its router,
      above all static routes of the same prefix length. */
  lemma BundleKeyMeans(lr: Atom, g: Group, dst: nat, idx: nat)
    requires lr.props.Lr? && g.prefix <= 32 && idx < 64
    ensures var k := BundleKey(lr, g);
      (Matches(k, lr.props.lrId, dst) <==> Net(dst, g.prefix) == Net(g.ip, g.prefix)) &&
      k.table == 37 && k.datapath == lr.props.lrId && k.priority == g.prefix * 1024 + 128 &&
      k.priority > g.prefix * 1024 + 64 + idx && (g.prefix < 32 ==> k.priority < (g.prefix + 1) * 1024)
  {
    hide Net;
  }

  // ----- The whole table -----

  ghost predicate Means(s: set<Atom>, sys: Uuid, k: FlowKey, a: Action) {
    (exists ls, lsp :: LocalLookup(s, sys, ls, lsp, k, a)) ||
    (exists ls, lsp, port, chassis :: RemoteLookup(s, sys, ls, lsp, port, chassis, k, a)) ||
    (exists ls, lsp, port :: PortForward(s, sys, ls, lsp, port, k, a)) ||
    (exists ls, lsp, lrp, lr :: RouterForward(s, sys, ls, lsp, lrp, lr, k, a)) ||
    (exists ls, lsp, lrp, lr :: PortRoute(s, sys, ls, lsp, lrp, lr, k, a)) ||
    (exists r, lr, lrp, lsp, farLsp, far, next :: NetworkRoute(s, sys, r, lr, lrp, lsp, farLsp, far, next, k, a))
  }

  lemma DerivedMeans(s: set<Atom>, sys: Uuid, k: FlowKey, a: Action)
    ensures Derived(s, sys, k, a) <==> Means(s, sys, k, a)
  {
    hide LocalFlow, RemoteFlow, BoundHere, Joined, RouteFlow;
    LocalLookupMeans(s, sys, k, a);
    RemoteLookupMeans(s, sys, k, a);
    PushOutMeans(s, sys, k, a);
    EnterRouterMeans(s, sys, k, a);
    AutoRouteMeans(s, sys, k, a);
    StaticRouteMeans(s, sys, k, a);
    if Derived(s, sys, k, a) { DerivedIsNoBundle(s, sys, k, a); }
  }

  lemma DerivedIsNoBundle(s: set<Atom>, sys: Uuid, k: FlowKey, a: Action)
    requires Derived(s, sys, k, a)
    ensures !a.BundleLoad?
  {
    hide LinkOk, BondOk, HopOk, RemoteOk, Over;
  }

  /** After any run, a round leaves a table that holds a flow if and only if the live, touched
      entities say so, bundles aside. */
  lemma RoundInstallsMeaning(
    a: AgentState, steps: seq<Agent.Step>, b: AgentState, lflows: seq<LFlow>, opts: Options, k: FlowKey, act: Action)
    requires Initial(a) && Runs(a, steps, b, opts)
    requires Assumed(b.zoo, opts.systemId) && EnumeratesRules(lflows, b.zoo.facts, opts.systemId)
    requires !IsBundleKey(k)
    ensures var table := Round(b, lflows).table;
      k in table && table[k] == act <==> Means(Published(b.zoo.live), opts.systemId, k, act)
  {
    hide Initial, Runs, Assumed, EnumeratesRules, Round, Published, IsBundleKey, Means, Derived, FullBundles;
    ForcedRoundInstallsExactly(a, steps, b, lflows, opts);
    DerivedMeans(Published(b.zoo.live), opts.systemId, k, act);
    var table := Round(b, lflows).table;
    assert k in Part(table, false) <==> k in table;
  }
}
