// The join rules that turn facts into flows. A derivation names the facts that
// a rule joined; what it yields does not depend on their states.

module FlowRules {
  import opened Common
  import opened Entities
  import opened EntityZoo
  import opened RoutePriority

  /** The state-free part of a fact. */
  datatype Atom = Atom(props: Props, ilk: nat)

  const PATCH_IP := 0xffff_ffff
  const TABLE_LOOKUP_DST_PORT := 6
  const TABLE_FORWARD_PACKET := 22
  const TABLE_IP_ROUTE := 37

  datatype Match = EthDst(mac: string) | RegDst(port: nat) | IpDst(net: nat, prefix: nat)

  datatype FlowKey = FlowKey(table: nat, priority: nat, datapath: nat, m: Match)

  datatype Action =
    | LoadDst(dst: nat)
    | SendRemote(dst: nat, ofport: nat)
    | PushOut(ofport: nat)
    | EnterRouter(router: nat, src: nat)
    | RouteVia(dst: nat, mac: string, nextHop: Option<nat>, srcIp: nat)
    | BundleLoad(ports: seq<nat>)

  /** lsp_link_lrp; `pin` is the chassis fact that lr_array joins when the router
      is pinned on a remote chassis. */
  datatype Link = Link(lsp: Atom, lrp: Atom, ls: Atom, lr: Atom, pin: Option<Atom>)

  /** local_bond_lsp, for a regular port or for a patch port. */
  datatype Bond = Bond(lsp: Atom, ls: Atom, port: Atom)

  /** remote_chassis. */
  datatype Remote = Remote(port: Atom, chassis: Atom)

  /** _next_live_hop_lr below one router port: both link ends and both routers. */
  datatype Hop = Hop(
    lrp: Atom, lsp: Atom, farLsp: Atom, farLrp: Atom,
    lr: Atom, pin: Option<Atom>, next: Atom, nextPin: Option<Atom>, via: Option<Remote>)

  datatype Derivation =
    | LookupLink(link: Link)
    | LookupBond(bond: Bond)
    | LookupRemoteLsp(lsp: Atom, ls: Atom, remote: Remote)
    | LookupRemoteLink(link: Link, remote: Remote)
    | ForwardBond(bond: Bond)
    | ForwardLink(link: Link)
    | AutoRoute(link: Link)
    | StaticRoute(route: Atom, hop: Hop)

  // ----- Which facts a derivation joins -----

  function OptAtoms(a: Option<Atom>): seq<Atom> {
    match a
    case None => []
    case Some(x) => [x]
  }

  function LinkAtoms(l: Link): seq<Atom> {
    [l.lsp, l.lrp, l.ls, l.lr] + OptAtoms(l.pin)
  }

  function HopAtoms(h: Hop): seq<Atom> {
    [h.lrp, h.lsp, h.farLsp, h.farLrp, h.lr, h.next] + OptAtoms(h.pin) + OptAtoms(h.nextPin) +
    match h.via case None => [] case Some(r) => [r.port, r.chassis]
  }

  function Atoms(d: Derivation): (s: seq<Atom>)
    ensures 0 < |s| < 100
  {
    match d
    case LookupLink(l) => LinkAtoms(l)
    case LookupBond(b) => [b.lsp, b.ls, b.port]
    case LookupRemoteLsp(lsp, ls, r) => [lsp, ls, r.port, r.chassis]
    case LookupRemoteLink(l, r) => LinkAtoms(l) + [r.port, r.chassis]
    case ForwardBond(b) => [b.lsp, b.ls, b.port]
    case ForwardLink(l) => LinkAtoms(l)
    case AutoRoute(l) => LinkAtoms(l)
    case StaticRoute(route, h) => [route] + HopAtoms(h)
  }

  // ----- Join conditions -----

  /** exchange_lsp_array holds the ports with a peer, lsp_array the others. */
  predicate IsExchange(a: Atom) {
    a.props.Lsp? && a.props.peer.Some?
  }

  /** The three lr_array clauses. */
  predicate RouterOk(lr: Atom, pin: Option<Atom>, sys: Uuid) {
    lr.props.Lr? &&
    match lr.props.lrChassis
    case None => pin.None?
    case Some(c) =>
      if c == sys then pin.None?
      else pin.Some? && pin.value.props.Chassis? && pin.value.props.uuid == c
  }

  predicate LinkOk(l: Link, sys: Uuid) {
    IsExchange(l.lsp) && l.lrp.props.Lrp? && l.ls.props.Ls? &&
    l.lrp.props.lrpPeer == Some(l.lsp.props.uuid) &&
    l.lsp.props.peer == Some(l.lrp.props.uuid) &&
    l.ls.props.uuid == l.lsp.props.ls &&
    RouterOk(l.lr, l.pin, sys) && l.lr.props.uuid == l.lrp.props.lr
  }

  predicate BondOk(b: Bond, sys: Uuid) {
    b.lsp.props.Lsp? && b.ls.props.Ls? && b.port.props.OvsPort? && !b.port.props.remote &&
    b.port.props.iface == b.lsp.props.uuid && b.port.props.ofport > 0 &&
    b.ls.props.uuid == b.lsp.props.ls && b.lsp.props.chassis == Some(sys) &&
    (IsExchange(b.lsp) ==> b.lsp.props.ip == PATCH_IP)
  }

  predicate RemoteOk(r: Remote) {
    r.port.props.OvsPort? && r.port.props.remote && r.port.props.ofport > 0 &&
    r.chassis.props.Chassis? && r.chassis.props.uuid == r.port.props.iface
  }

  /** next_hop_lr: two exchange ports of one switch, each peered with its router port. */
  predicate HopEnds(h: Hop) {
    h.lrp.props.Lrp? && IsExchange(h.lsp) && IsExchange(h.farLsp) && h.farLrp.props.Lrp? &&
    h.lrp.props.lrpPeer == Some(h.lsp.props.uuid) && h.lsp.props.peer == Some(h.lrp.props.uuid) &&
    h.farLsp.props.ls == h.lsp.props.ls &&
    h.farLrp.props.lrpPeer == Some(h.farLsp.props.uuid) &&
    h.farLsp.props.peer == Some(h.farLrp.props.uuid) &&
    h.lrp.props.lr != h.farLrp.props.lr
  }

  /** The three _next_live_hop_lr clauses. */
  predicate ViaOk(next: Atom, via: Option<Remote>, sys: Uuid) {
    next.props.Lr? &&
    match via
    case None => next.props.lrChassis.None? || next.props.lrChassis == Some(sys)
    case Some(r) => RemoteOk(r) && next.props.lrChassis == Some(r.chassis.props.uuid)
  }

  /** next_hop_lr with both routers. */
  predicate NextHopOk(h: Hop, sys: Uuid) {
    HopEnds(h) &&
    h.lr.props.Lr? && RouterOk(h.lr, h.pin, sys) && h.lr.props.uuid == h.lrp.props.lr &&
    h.next.props.Lr? && RouterOk(h.next, h.nextPin, sys) && h.next.props.uuid == h.farLrp.props.lr
  }

  predicate HopOk(h: Hop, sys: Uuid) {
    NextHopOk(h, sys) && ViaOk(h.next, h.via, sys)
  }

  predicate Joins(d: Derivation, sys: Uuid) {
    match d
    case LookupLink(l) => LinkOk(l, sys) && (l.lr.props.lrChassis.None? || l.lr.props.lrChassis == Some(sys))
    case LookupBond(b) => BondOk(b, sys)
    case LookupRemoteLsp(lsp, ls, r) =>
      lsp.props.Lsp? && !IsExchange(lsp) && ls.props.Ls? && ls.props.uuid == lsp.props.ls &&
      RemoteOk(r) && lsp.props.chassis == Some(r.chassis.props.uuid)
    case LookupRemoteLink(l, r) =>
      LinkOk(l, sys) && RemoteOk(r) && l.lr.props.lrChassis == Some(r.chassis.props.uuid)
    case ForwardBond(b) => BondOk(b, sys)
    case ForwardLink(l) => LinkOk(l, sys)
    case AutoRoute(l) => LinkOk(l, sys) && WellTyped(l.lrp.props)
    case StaticRoute(route, h) =>
      route.props.Lsr? && WellTyped(route.props) && HopOk(h, sys) && route.props.outport == h.lrp.props.uuid
  }

  // ----- The flow a derivation yields -----

  function PortId(ip: nat): nat {
    ip % 0x1_0000
  }

  function Key(d: Derivation, sys: Uuid): FlowKey
    requires Joins(d, sys)
  {
    match d
    case LookupLink(l) =>
      FlowKey(TABLE_LOOKUP_DST_PORT, 4, l.ls.props.lsId, EthDst(l.lsp.props.mac))
    case LookupBond(b) =>
      FlowKey(TABLE_LOOKUP_DST_PORT, 4, b.ls.props.lsId, EthDst(b.lsp.props.mac))
    case LookupRemoteLsp(lsp, ls, _) =>
      FlowKey(TABLE_LOOKUP_DST_PORT, 3, ls.props.lsId, EthDst(lsp.props.mac))
    case LookupRemoteLink(l, _) =>
      FlowKey(TABLE_LOOKUP_DST_PORT, 3, l.ls.props.lsId, EthDst(l.lsp.props.mac))
    case ForwardBond(b) =>
      FlowKey(TABLE_FORWARD_PACKET, 3, b.ls.props.lsId, RegDst(PortId(b.lsp.props.ip)))
    case ForwardLink(l) =>
      FlowKey(TABLE_FORWARD_PACKET, 2, l.ls.props.lsId, RegDst(PortId(l.lsp.props.ip)))
    case AutoRoute(l) =>
      FlowKey(TABLE_IP_ROUTE, CalPriority(l.lrp.props.prefix, 0, l.lrp.ilk), l.lr.props.lrId,
              IpDst(Net(l.lrp.props.ip, l.lrp.props.prefix), l.lrp.props.prefix))
    case StaticRoute(route, h) =>
      FlowKey(TABLE_IP_ROUTE, CalPriority(route.props.prefix, 1, route.ilk), h.lr.props.lrId,
              IpDst(Net(route.props.ip, route.props.prefix), route.props.prefix))
  }

  function ActionOf(d: Derivation, sys: Uuid): Action
    requires Joins(d, sys)
  {
    match d
    case LookupLink(l) => LoadDst(PortId(l.lsp.props.ip))
    case LookupBond(b) => LoadDst(PortId(b.lsp.props.ip))
    case LookupRemoteLsp(lsp, _, r) => SendRemote(PortId(lsp.props.ip), r.port.props.ofport)
    case LookupRemoteLink(l, r) => SendRemote(PortId(l.lsp.props.ip), r.port.props.ofport)
    case ForwardBond(b) => PushOut(b.port.props.ofport)
    case ForwardLink(l) => EnterRouter(l.lr.props.lrId, PortId(l.lrp.props.ip))
    case AutoRoute(l) => RouteVia(PortId(l.lrp.props.ip), l.lrp.props.mac, None, l.lrp.props.ip)
    case StaticRoute(route, h) =>
      RouteVia(PortId(h.lrp.props.ip), h.lrp.props.mac, Some(route.props.nextHop), h.lrp.props.ip)
  }

  predicate Over(d: Derivation, s: set<Atom>) {
    forall i :: 0 <= i < |Atoms(d)| ==> Atoms(d)[i] in s
  }

  // ----- When the key determines the whole derivation -----

  /** Two entities that may not be a settled live one and a deleted one: they
      share an id, a unique key or an ILK slot, serve the same interface id, or
      carry the same low 16 address bits on one switch. */
  predicate Clash(a: Atom, b: Atom) {
    SharesKey(a.props, b.props) ||
    (SlotOf(a.props, a.ilk).Some? && SlotOf(a.props, a.ilk) == SlotOf(b.props, b.ilk)) ||
    AssumedClash(a.props, b.props)
  }

  /** The part of Clash that the zoo does not rule out by itself. */
  predicate AssumedClash(p: Props, q: Props) {
    (p.OvsPort? && q.OvsPort? && p.remote == q.remote && p.iface == q.iface) ||
    (p.Lsp? && q.Lsp? && p.ls == q.ls && PortId(p.ip) == PortId(q.ip))
  }

  /** A port that can be an end of a link between routers. */
  predicate IsLinkEnd(p: Props) {
    p.Lsp? && p.peer.Some? && p.ip != PATCH_IP
  }

  /** A static route r leaves through the port that p is the end of, and its switch
      has two more link ends q and x: two next hops for one route. */
  predicate ThirdEnd(r: Props, p: Props, q: Props, x: Props) {
    r.Lsr? && IsLinkEnd(p) && p.peer == Some(r.outport) && IsLinkEnd(q) && IsLinkEnd(x) &&
    p.ls == q.ls == x.ls && p != q && x != p && x != q
  }

  /** What a settled set N is protected from in a larger set X. */
  ghost predicate Pinned(N: set<Atom>, X: set<Atom>) {
    NoClash(N, X) && OneNextHop(N, X) && IndicesFit(X)
  }

  ghost predicate NoClash(N: set<Atom>, X: set<Atom>) {
    forall a, x {:trigger Clash(a, x)} :: a in N && x in X && a != x ==> !Clash(a, x)
  }

  ghost predicate OneNextHop(N: set<Atom>, X: set<Atom>) {
    forall r, a, b, x {:trigger ThirdEnd(r.props, a.props, b.props, x.props)} ::
      r in N && a in N && b in N && x in X ==> !ThirdEnd(r.props, a.props, b.props, x.props)
  }

  /** ILK indices are what the allocator hands out. */
  ghost predicate IndicesFit(X: set<Atom>) {
    forall a :: a in X && SlotOf(a.props, a.ilk).Some? ==> a.ilk < MAX_ILK
  }

  /** Conventions of the stored configuration: a static route leaves through a
      port of its own router, no router port names a patch port as its peer, and
      a chassis keeps no tunnel to itself. */
  ghost predicate Config(X: set<Atom>, sys: Uuid) {
    (forall r, p :: r in X && p in X && r.props.Lsr? && p.props.Lrp? && p.props.uuid == r.props.outport ==>
       p.props.lr == r.props.lr) &&
    (forall l, p :: l in X && p in X && l.props.Lsp? && l.props.ip == PATCH_IP && p.props.Lrp? ==>
       p.props.lrpPeer != Some(l.props.uuid)) &&
    (forall p :: p in X && p.props.OvsPort? && p.props.remote ==> p.props.iface != sys)
  }

  lemma SameId(N: set<Atom>, X: set<Atom>, a: Atom, x: Atom)
    requires Pinned(N, X) && a in N && x in X && IdOf(a.props) == IdOf(x.props)
    ensures a == x
  {
    hide UniqueKeys, OneNextHop, IndicesFit;
    assert Clash(a, x);
  }

  lemma SameUniqueKey(N: set<Atom>, X: set<Atom>, a: Atom, x: Atom, k: UniqueKey)
    requires Pinned(N, X) && a in N && x in X
    requires k in UniqueKeys(a.props) && k in UniqueKeys(x.props)
    ensures a == x
  {
    hide UniqueKeys, OneNextHop, IndicesFit;
    assert Clash(a, x);
  }

  lemma SameSwitch(N: set<Atom>, X: set<Atom>, a: Atom, x: Atom)
    requires Pinned(N, X) && a in N && x in X && a.props.Ls? && x.props.Ls? && a.props.lsId == x.props.lsId
    ensures a == x
  {
    SameUniqueKey(N, X, a, x, UniqueKeys(a.props)[0]);
  }

  lemma SameRouter(N: set<Atom>, X: set<Atom>, a: Atom, x: Atom)
    requires Pinned(N, X) && a in N && x in X && a.props.Lr? && x.props.Lr? && a.props.lrId == x.props.lrId
    ensures a == x
  {
    SameUniqueKey(N, X, a, x, UniqueKeys(a.props)[0]);
  }

  lemma SameMac(N: set<Atom>, X: set<Atom>, a: Atom, x: Atom)
    requires Pinned(N, X) && a in N && x in X && a.props.Lsp? && x.props.Lsp?
    requires a.props.ls == x.props.ls && a.props.mac == x.props.mac
    ensures a == x
  {
    SameUniqueKey(N, X, a, x, UniqueKeys(a.props)[1]);
  }

  lemma SameSlot(N: set<Atom>, X: set<Atom>, a: Atom, x: Atom)
    requires Pinned(N, X) && a in N && x in X && IsIlk(a.props) && TypeOf(a.props) == TypeOf(x.props)
    requires WellTyped(a.props) && WellTyped(x.props) && a.props.lr == x.props.lr && a.ilk == x.ilk
    requires a.props.prefix == x.props.prefix && Net(a.props.ip, a.props.prefix) == Net(x.props.ip, x.props.prefix)
    ensures a == x
  {
    hide UniqueKeys, OneNextHop, IndicesFit;
    assert SlotOf(a.props, a.ilk) == SlotOf(x.props, x.ilk);
    assert Clash(a, x);
  }

  lemma SamePins(N: set<Atom>, X: set<Atom>, sys: Uuid, lr: Atom, p: Option<Atom>, q: Option<Atom>)
    requires Pinned(N, X) && RouterOk(lr, p, sys) && RouterOk(lr, q, sys)
    requires (p.Some? ==> p.value in N) && (q.Some? ==> q.value in X)
    ensures p == q
  {
    hide Pinned;
    if p.Some? && q.Some? { SameId(N, X, p.value, q.value); }
  }

  predicate LinkOver(l: Link, s: set<Atom>) {
    l.lsp in s && l.lrp in s && l.ls in s && l.lr in s && (l.pin.Some? ==> l.pin.value in s)
  }

  predicate BondOver(b: Bond, s: set<Atom>) {
    b.lsp in s && b.ls in s && b.port in s
  }

  predicate RemoteOver(r: Remote, s: set<Atom>) {
    r.port in s && r.chassis in s
  }

  predicate HopOver(h: Hop, s: set<Atom>) {
    h.lrp in s && h.lsp in s && h.farLsp in s && h.farLrp in s && h.lr in s && h.next in s &&
    (h.pin.Some? ==> h.pin.value in s) && (h.nextPin.Some? ==> h.nextPin.value in s) &&
    (h.via.Some? ==> RemoteOver(h.via.value, s))
  }

  predicate PartsOver(d: Derivation, s: set<Atom>) {
    match d
    case LookupLink(l) => LinkOver(l, s)
    case LookupBond(b) => BondOver(b, s)
    case LookupRemoteLsp(lsp, ls, r) => lsp in s && ls in s && RemoteOver(r, s)
    case LookupRemoteLink(l, r) => LinkOver(l, s) && RemoteOver(r, s)
    case ForwardBond(b) => BondOver(b, s)
    case ForwardLink(l) => LinkOver(l, s)
    case AutoRoute(l) => LinkOver(l, s)
    case StaticRoute(route, h) => route in s && HopOver(h, s)
  }

  lemma OverParts(d: Derivation, s: set<Atom>)
    requires Over(d, s)
    ensures PartsOver(d, s)
  {
    forall a | a in Atoms(d) ensures a in s {
      var i :| 0 <= i < |Atoms(d)| && Atoms(d)[i] == a;
    }
    match d
    case LookupLink(l) => LinkParts(l);
    case LookupBond(b) => assert b.lsp in Atoms(d) && b.ls in Atoms(d) && b.port in Atoms(d);
    case LookupRemoteLsp(lsp, ls, r) =>
      assert lsp in Atoms(d) && ls in Atoms(d) && r.port in Atoms(d) && r.chassis in Atoms(d);
    case LookupRemoteLink(l, r) =>
      LinkParts(l);
      assert r.port in Atoms(d) && r.chassis in Atoms(d);
    case ForwardBond(b) => assert b.lsp in Atoms(d) && b.ls in Atoms(d) && b.port in Atoms(d);
    case ForwardLink(l) => LinkParts(l);
    case AutoRoute(l) => LinkParts(l);
    case StaticRoute(_, h) => HopParts(h);
  }

  lemma LinkParts(l: Link)
    ensures LinkOver(l, set a | a in LinkAtoms(l))
  {
  }

  lemma HopParts(h: Hop)
    ensures HopOver(h, set a | a in HopAtoms(h))
  {
  }

  lemma LinkDetermined(N: set<Atom>, X: set<Atom>, sys: Uuid, l: Link, m: Link)
    requires Pinned(N, X) && LinkOk(l, sys) && LinkOk(m, sys) && LinkOver(l, N) && LinkOver(m, X)
    requires l.lsp == m.lsp || l.lrp == m.lrp
    ensures l == m
  {
    hide Pinned;
    if l.lsp == m.lsp { SameId(N, X, l.lrp, m.lrp); } else { SameId(N, X, l.lsp, m.lsp); }
    SameId(N, X, l.ls, m.ls);
    SameId(N, X, l.lr, m.lr);
    SamePins(N, X, sys, l.lr, l.pin, m.pin);
  }

  lemma SamePort(N: set<Atom>, X: set<Atom>, a: Atom, x: Atom)
    requires Pinned(N, X) && a in N && x in X && a.props.OvsPort? && x.props.OvsPort?
    requires a.props.remote == x.props.remote && a.props.iface == x.props.iface
    ensures a == x
  {
    hide UniqueKeys, OneNextHop, IndicesFit, SlotOf;
    assert Clash(a, x);
  }

  lemma SameLowBits(N: set<Atom>, X: set<Atom>, a: Atom, x: Atom)
    requires Pinned(N, X) && a in N && x in X && a.props.Lsp? && x.props.Lsp?
    requires a.props.ls == x.props.ls && PortId(a.props.ip) == PortId(x.props.ip)
    ensures a == x
  {
    hide UniqueKeys, OneNextHop, IndicesFit, SlotOf;
    assert Clash(a, x);
  }

  lemma BondDetermined(N: set<Atom>, X: set<Atom>, sys: Uuid, b: Bond, c: Bond)
    requires Pinned(N, X) && BondOk(b, sys) && BondOk(c, sys) && BondOver(b, N) && BondOver(c, X)
    requires b.lsp == c.lsp
    ensures b == c
  {
    hide Pinned;
    SamePort(N, X, b.port, c.port);
    SameId(N, X, b.ls, c.ls);
  }

  lemma RemoteDetermined(N: set<Atom>, X: set<Atom>, r: Remote, q: Remote)
    requires Pinned(N, X) && RemoteOk(r) && RemoteOk(q) && RemoteOver(r, N) && RemoteOver(q, X)
    requires r.chassis.props.uuid == q.chassis.props.uuid
    ensures r == q
  {
    hide Pinned;
    SamePort(N, X, r.port, q.port);
    SameId(N, X, r.chassis, q.chassis);
  }

  /** A bond and a link never share their switch port. */
  lemma BondsAreNotLinks(X: set<Atom>, sys: Uuid)
    requires Config(X, sys)
    ensures forall b, l :: BondOk(b, sys) && LinkOk(l, sys) && BondOver(b, X) && LinkOver(l, X) ==> b.lsp != l.lsp
  {
    forall b, l | BondOk(b, sys) && LinkOk(l, sys) && BondOver(b, X) && LinkOver(l, X)
      ensures b.lsp != l.lsp
    {
      hide RouterOk;
    }
  }

  lemma ViaDetermined(N: set<Atom>, X: set<Atom>, sys: Uuid, next: Atom, v: Option<Remote>, w: Option<Remote>)
    requires Pinned(N, X) && N <= X && Config(X, sys) && ViaOk(next, v, sys) && ViaOk(next, w, sys)
    requires (v.Some? ==> RemoteOver(v.value, N)) && (w.Some? ==> RemoteOver(w.value, X))
    ensures v == w
  {
    if v.Some? && w.Some? { RemoteDetermined(N, X, v.value, w.value); }
  }

  /** A settled static route leaves through the port of this hop. */
  predicate RoutedBy(r: Atom, h: Hop, N: set<Atom>) {
    r in N && r.props.Lsr? && h.lrp.props.Lrp? && r.props.outport == h.lrp.props.uuid
  }

  lemma NextHopDetermined(N: set<Atom>, X: set<Atom>, sys: Uuid, r: Atom, h: Hop, g: Hop)
    requires Pinned(N, X) && N <= X && Config(X, sys) && RoutedBy(r, h, N)
    requires NextHopOk(h, sys) && NextHopOk(g, sys) && HopOver(h, N) && HopOver(g, X) && h.lrp == g.lrp
    ensures h.(via := None) == g.(via := None)
  {
    hide Pinned, Config, RouterOk, RemoteOver;
    SameId(N, X, h.lsp, g.lsp);
    FarEndDetermined(N, X, sys, r, h, g);
    SameId(N, X, h.farLrp, g.farLrp);
    SameId(N, X, h.lr, g.lr);
    SameId(N, X, h.next, g.next);
    SamePins(N, X, sys, h.lr, h.pin, g.pin);
    SamePins(N, X, sys, h.next, h.nextPin, g.nextPin);
  }

  lemma HopDetermined(N: set<Atom>, X: set<Atom>, sys: Uuid, r: Atom, h: Hop, g: Hop)
    requires Pinned(N, X) && N <= X && Config(X, sys) && RoutedBy(r, h, N)
    requires HopOk(h, sys) && HopOk(g, sys) && HopOver(h, N) && HopOver(g, X) && h.lrp == g.lrp
    ensures h == g
  {
    hide Pinned, Config, NextHopOk, ViaOk, RemoteOver;
    NextHopDetermined(N, X, sys, r, h, g);
    ViaDetermined(N, X, sys, h.next, h.via, g.via);
  }

  /** The far end is fixed: a switch that a static route leaves through has two link ends. */
  lemma FarEndDetermined(N: set<Atom>, X: set<Atom>, sys: Uuid, r: Atom, h: Hop, g: Hop)
    requires Pinned(N, X) && N <= X && Config(X, sys) && RoutedBy(r, h, N)
    requires NextHopOk(h, sys) && NextHopOk(g, sys) && HopOver(h, N) && HopOver(g, X)
    requires h.lrp == g.lrp && h.lsp == g.lsp
    ensures h.farLsp == g.farLsp
  {
    hide Clash, RouterOk;
    if h.farLsp.props == h.lsp.props { SameId(N, X, h.lrp, h.farLrp); }
    if g.farLsp.props == h.lsp.props { SameId(N, X, h.lrp, g.farLrp); }
    assert IsLinkEnd(h.lsp.props) && IsLinkEnd(h.farLsp.props) && IsLinkEnd(g.farLsp.props);
    assert !ThirdEnd(r.props, h.lsp.props, h.farLsp.props, g.farLsp.props);
    SameId(N, X, h.farLsp, g.farLsp);
  }

  lemma StaticRouteDetermined(N: set<Atom>, X: set<Atom>, sys: Uuid, d: Derivation, e: Derivation)
    requires Pinned(N, X) && N <= X && Config(X, sys) && d.StaticRoute? && e.StaticRoute?
    requires Joins(d, sys) && Joins(e, sys) && PartsOver(d, N) && PartsOver(e, X)
    requires Key(d, sys) == Key(e, sys)
    ensures d == e
  {
    CalPriorityInjective(d.route.props.prefix, 1, d.route.ilk, e.route.props.prefix, 1, e.route.ilk);
    hide CalPriority, Pinned, RouterOk, ViaOk, Config, Net;
    SameRouter(N, X, d.hop.lr, e.hop.lr);
    SameSlot(N, X, d.route, e.route);
    SameId(N, X, d.hop.lrp, e.hop.lrp);
    HopDetermined(N, X, sys, d.route, d.hop, e.hop);
  }

  lemma AutoRouteDetermined(N: set<Atom>, X: set<Atom>, sys: Uuid, l: Link, m: Link)
    requires Pinned(N, X) && Config(X, sys) && N <= X
    requires Joins(AutoRoute(l), sys) && Joins(AutoRoute(m), sys) && LinkOver(l, N) && LinkOver(m, X)
    requires Key(AutoRoute(l), sys) == Key(AutoRoute(m), sys)
    ensures l == m
  {
    CalPriorityInjective(l.lrp.props.prefix, 0, l.lrp.ilk, m.lrp.props.prefix, 0, m.lrp.ilk);
    hide CalPriority, Pinned, RouterOk, Config, Net;
    SameRouter(N, X, l.lr, m.lr);
    SameSlot(N, X, l.lrp, m.lrp);
    LinkDetermined(N, X, sys, l, m);
  }

  lemma RouteIndexFits(N: set<Atom>, X: set<Atom>, sys: Uuid, d: Derivation)
    requires IndicesFit(X) && N <= X && Joins(d, sys) && PartsOver(d, N)
    ensures d.AutoRoute? ==> d.link.lrp.ilk < MAX_ILK
    ensures d.StaticRoute? ==> d.route.ilk < MAX_ILK
  {
    hide RouterOk, NextHopOk, ViaOk, Net;
    if d.AutoRoute? { assert d.link.lrp in X && SlotOf(d.link.lrp.props, d.link.lrp.ilk).Some?; }
    if d.StaticRoute? { assert d.route in X && SlotOf(d.route.props, d.route.ilk).Some?; }
  }

  lemma RoutesDetermined(N: set<Atom>, X: set<Atom>, sys: Uuid, d: Derivation, e: Derivation)
    requires Pinned(N, X) && N <= X && Config(X, sys) && (d.AutoRoute? || d.StaticRoute?)
    requires Joins(d, sys) && Joins(e, sys) && PartsOver(d, N) && PartsOver(e, X)
    requires Key(d, sys) == Key(e, sys)
    ensures d == e
  {
    LevelsApart();
    RouteIndexFits(N, X, sys, d);
    RouteIndexFits(X, X, sys, e);
    hide CalPriority, Pinned, RouterOk, ViaOk, NextHopOk, Net;
    if d.AutoRoute? && e.AutoRoute? {
      AutoRouteDetermined(N, X, sys, d.link, e.link);
    } else if d.StaticRoute? && e.StaticRoute? {
      StaticRouteDetermined(N, X, sys, d, e);
    }
  }

  /** The switch and the port whose address or MAC the key carries. */
  function EndOf(d: Derivation): (Atom, Atom)
    requires !d.AutoRoute? && !d.StaticRoute?
  {
    match d
    case LookupLink(l) => (l.ls, l.lsp)
    case LookupBond(b) => (b.ls, b.lsp)
    case LookupRemoteLsp(lsp, ls, _) => (ls, lsp)
    case LookupRemoteLink(l, _) => (l.ls, l.lsp)
    case ForwardBond(b) => (b.ls, b.lsp)
    case ForwardLink(l) => (l.ls, l.lsp)
  }

  lemma EndDetermined(N: set<Atom>, X: set<Atom>, sys: Uuid, d: Derivation, e: Derivation)
    requires Pinned(N, X) && !(d.AutoRoute? || d.StaticRoute?) && !(e.AutoRoute? || e.StaticRoute?)
    requires Joins(d, sys) && Joins(e, sys) && PartsOver(d, N) && PartsOver(e, X)
    requires Key(d, sys) == Key(e, sys)
    ensures EndOf(d) == EndOf(e)
  {
    hide Pinned, RouterOk, PortId;
    var ((ls, lsp), (ls', lsp')) := (EndOf(d), EndOf(e));
    SameSwitch(N, X, ls, ls');
    if Key(d, sys).m.EthDst? {
      SameMac(N, X, lsp, lsp');
    } else {
      SameLowBits(N, X, lsp, lsp');
    }
  }

  lemma PortsDetermined(N: set<Atom>, X: set<Atom>, sys: Uuid, d: Derivation, e: Derivation)
    requires Pinned(N, X) && N <= X && Config(X, sys)
    requires !(d.AutoRoute? || d.StaticRoute?) && !(e.AutoRoute? || e.StaticRoute?)
    requires Joins(d, sys) && Joins(e, sys) && PartsOver(d, N) && PartsOver(d, X) && PartsOver(e, X)
    requires Key(d, sys) == Key(e, sys)
    ensures d == e
  {
    EndDetermined(N, X, sys, d, e);
    BondsAreNotLinks(X, sys);
    hide Pinned, Config, RouterOk, PortId, LinkOver, BondOver, RemoteOver;
    if (d.LookupLink? && e.LookupLink?) || (d.ForwardLink? && e.ForwardLink?) {
      LinkDetermined(N, X, sys, d.link, e.link);
    } else if (d.LookupBond? && e.LookupBond?) || (d.ForwardBond? && e.ForwardBond?) {
      BondDetermined(N, X, sys, d.bond, e.bond);
    } else if d.LookupRemoteLsp? && e.LookupRemoteLsp? {
      RemoteDetermined(N, X, d.remote, e.remote);
    } else if d.LookupRemoteLink? && e.LookupRemoteLink? {
      LinkDetermined(N, X, sys, d.link, e.link);
      RemoteDetermined(N, X, d.remote, e.remote);
    }
  }

  /** The heart of the incremental update: two derivations with one flow key are
      one derivation, as soon as one of them is over the settled facts. */
  lemma KeyDetermines(N: set<Atom>, X: set<Atom>, sys: Uuid, d: Derivation, e: Derivation)
    requires Pinned(N, X) && N <= X && Config(X, sys)
    requires Joins(d, sys) && Joins(e, sys) && Over(d, N) && Over(e, X)
    requires Key(d, sys) == Key(e, sys)
    ensures d == e
  {
    OverParts(d, N);
    OverParts(d, X);
    OverParts(e, X);
    hide Pinned, Config, Over, Net, PartsOver, RouterOk, LinkOk, BondOk, RemoteOk, HopOk;
    if Key(d, sys).table == TABLE_IP_ROUTE {
      RoutesDetermined(N, X, sys, d, e);
    } else {
      PortsDetermined(N, X, sys, d, e);
    }
  }
}
