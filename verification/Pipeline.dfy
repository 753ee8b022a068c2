// The packet pipeline of one chassis: a cyclic graph of flow tables (switch,
// router, switch again) and the reason every packet leaves it: each resubmission
// lowers a measure of the echo flag, the TTL, the back edge to the lookup of a switch
// and the table. Tables are relations between a packet and a verdict.

module Pipeline {
  import opened Common
  import opened TextCodec
  import opened Entities
  import opened FlowRules
  import opened FlowSync
  import opened Ecmp
  import opened Rounds

  // ----- Registers and metadata -----

  const OFPORT_NONE := 0xffff
  const ZERO_MAC := "00:00:00:00:00:00"

  const TABLE_CONVERT_PHY_LOGICAL := 0
  const TABLE_LSP_INGRESS_FIRST := 1
  const TABLE_ARP_RESPONSE := 4
  const TABLE_UNTUNNEL := 5
  const TABLE_OUTPUT_DST_PORT := 7
  const TABLE_LSP_EGRESS_FIRST := 20
  const TABLE_JUDGE_LOOPBACK := 21
  const TABLE_PUSHOUT := 23
  const TABLE_LRP_INGRESS_FIRST := 30
  const TABLE_PKT_RESPONSE := 31
  const TABLE_DROP_UNEXPECT := 32
  const TABLE_LRP_EGRESS_FIRST := 50
  const TABLE_HANDLE_UNKNOWN := 56
  const TABLE_LRP_FORWARD := 57
  const TABLE_LRP_EGRESS_LAST := 58
  const TABLE_REDIRECT_CHASSIS := 95
  const TABLE_PIPELINE_FORWARD := 99

  datatype Proto =
    | Ip(echoRequest: bool, ttl: nat, srcIp: nat, dstIp: nat)
    | Arp(request: bool, tpa: nat)
    | Other

  /** The fields that flows read or write: `dp` is the metadata register, `nextHop` is
      reg2, `flags` is reg10, `echoRequest` stands for ICMP type 8 code 0. */
  datatype Packet = Packet(
    table: nat, inPort: nat, tunId: nat, tunMeta: nat, proto: Proto, ethSrc: string, ethDst: string,
    dp: nat, src: nat, dst: nat, nextHop: nat, outport: nat, reg5: bool, reg6: nat, reg7: nat, flags: nat)

  datatype Verdict = Resubmit(next: Packet) | Sent(ofport: nat, sent: Packet) | Dropped

  /** Bits 0, 2 and 3 of reg10. */
  function SetLoopback(flags: nat): nat {
    if flags % 2 == 1 then flags else flags + 1
  }

  predicate HasRedirect(flags: nat) {
    flags / 4 % 2 == 1
  }

  function SetRedirect(flags: nat): nat {
    if HasRedirect(flags) then flags else flags + 4
  }

  function SetNat(flags: nat): nat {
    if flags / 8 % 2 == 1 then flags else flags + 8
  }

  /** embed_metadata: datapath into the tunnel id, source, destination and flags
      into bits 0..15, 16..31 and 32..63 of tun_metadata0. */
  function Embed(p: Packet): Packet {
    p.(tunId := p.dp % 0x100_0000,
       tunMeta := p.src % 0x1_0000 + p.dst % 0x1_0000 * 0x1_0000 + p.flags % 0x1_0000_0000 * 0x1_0000_0000)
  }

  /** extract_metadata, on a packet whose registers are still zero. */
  function Extract(p: Packet): Packet {
    p.(dp := p.tunId % 0x100_0000, src := p.tunMeta % 0x1_0000, dst := p.tunMeta / 0x1_0000 % 0x1_0000,
       flags := p.tunMeta / 0x1_0000_0000 % 0x1_0000_0000)
  }

  /** A move of the low 24 bits keeps the bits above them. */
  function LowMoved(to: nat, from: nat): nat {
    to / 0x100_0000 * 0x100_0000 + from % 0x100_0000
  }

  /** output_pkt_by_reg (table 94). */
  function OutputByReg(p: Packet): Verdict {
    if p.outport == OFPORT_NONE then Dropped else Sent(p.outport, p)
  }

  // ----- One chassis -----

  datatype PipelineOptions = PipelineOptions(gateway: bool, ondemand: bool, redirect: bool, dsrPort: Option<nat>)

  datatype Host = Host(sys: Uuid, facts: set<Atom>, opts: PipelineOptions)

  predicate KnownSwitch(n: Host, dp: nat) {
    exists a :: a in n.facts && a.props.Ls? && a.props.lsId == dp
  }

  ghost predicate KnownRouter(n: Host, dp: nat) {
    exists lr: Atom, pin: Option<Atom> :: lr in n.facts && (pin.Some? ==> pin.value in n.facts) &&
      RouterOk(lr, pin, n.sys) && lr.props.lrId == dp
  }

  ghost predicate HasBond(n: Host, b: Bond) {
    BondOk(b, n.sys) && BondOver(b, n.facts)
  }

  ghost predicate HasLink(n: Host, l: Link) {
    LinkOk(l, n.sys) && LinkOver(l, n.facts)
  }

  ghost predicate HasRemote(n: Host, r: Remote) {
    RemoteOk(r) && RemoteOver(r, n.facts)
  }

  /** The flow of a derived key, as FlowSync installs it. */
  ghost predicate Flow(n: Host, table: nat, priority: nat, dp: nat, m: Match, a: Action) {
    Derived(n.facts, n.sys, FlowKey(table, priority, dp, m), a)
  }

  ghost predicate HasFlow(n: Host, table: nat, priority: nat, dp: nat, m: Match) {
    exists a :: Flow(n, table, priority, dp, m, a)
  }

  /** Table 22 sends a packet for this destination to a local port or a router. */
  ghost predicate Resolved(n: Host, dp: nat, dst: nat) {
    HasFlow(n, TABLE_FORWARD_PACKET, 3, dp, RegDst(dst)) || HasFlow(n, TABLE_FORWARD_PACKET, 2, dp, RegDst(dst))
  }

  function HexChar(d: nat): char
    requires d < 16
  {
    "0123456789abcdef"[d]
  }

  function HexByte(b: nat): string
    requires b < 256
  {
    [HexChar(b / 16), HexChar(b % 16)]
  }

  /** _gen_mac_by_ip. */
  function MacOfIp(ip: nat): string {
    "f2:01:" + HexByte(ip / 0x100_0000 % 256) + ":" + HexByte(ip / 0x1_0000 % 256) + ":" +
    HexByte(ip / 256 % 256) + ":" + HexByte(ip % 256)
  }

  /** A translated address of a router that the switch reaches through link l. */
  ghost predicate NatHit(n: Host, dp: nat, mac: string, l: Link) {
    HasLink(n, l) && l.ls.props.lsId == dp &&
    exists a :: a in n.facts && a.props.Lnat? && a.props.lr == l.lr.props.uuid && MacOfIp(a.props.xlateIp) == mac
  }

  ghost predicate PatchHit(n: Host, dp: nat, b: Bond) {
    HasBond(n, b) && IsExchange(b.lsp) && b.ls.props.lsId == dp
  }

  /** A tunnel port towards a chassis that some router is pinned on. */
  ghost predicate GatewayPort(n: Host, port: nat) {
    exists r, lr :: HasRemote(n, r) && lr in n.facts && lr.props.Lr? &&
      lr.props.lrChassis == Some(r.chassis.props.uuid) && r.port.props.ofport == port
  }

  // ----- What each table does -----

  ghost predicate EnterStep(n: Host, p: Packet, v: Verdict) {
    (exists r :: HasRemote(n, r) && r.port.props.ofport == p.inPort &&
       v == Resubmit(var q := Extract(p); q.(flags := SetLoopback(q.flags), table := TABLE_PIPELINE_FORWARD))) ||
    (exists b :: HasBond(n, b) && b.port.props.ofport == p.inPort &&
       v == Resubmit(p.(src := PortId(b.lsp.props.ip), dp := b.ls.props.lsId, table := TABLE_LSP_INGRESS_FIRST))) ||
    ((forall r :: HasRemote(n, r) ==> r.port.props.ofport != p.inPort) &&
     (forall b :: HasBond(n, b) ==> b.port.props.ofport != p.inPort) && v == Dropped)
  }

  /** arp_feedback_construct: the request becomes a reply to its sender. */
  function ArpReply(p: Packet, mac: string): Packet {
    p.(flags := SetLoopback(p.flags), ethDst := p.ethSrc, ethSrc := mac, proto := Arp(false, 0), dst := p.src)
  }

  /** What `resubmit(,96)` may leave behind. */
  predicate ArpFeedback(p: Packet, q: Packet) {
    q == p || (p.proto.Arp? && p.proto.request && q == ArpReply(p, q.ethSrc))
  }

  ghost predicate SwitchIngressStep(n: Host, p: Packet, v: Verdict) {
    if p.table == TABLE_LSP_INGRESS_FIRST then v == Resubmit(p.(dst := 0, table := 2))
    else if p.table == 2 then v == Resubmit(p.(table := 3))
    else if !KnownSwitch(n, p.dp) then v == Dropped
    else if p.table == 3 then
      if n.opts.gateway && p.proto.Arp? && !p.proto.request then v == Dropped
      else v == Resubmit(p.(table := TABLE_ARP_RESPONSE))
    else if p.table == TABLE_ARP_RESPONSE then
      exists q :: ArpFeedback(p, q) && v == Resubmit(q.(table := TABLE_UNTUNNEL))
    else
      v == Resubmit(p.(table := TABLE_LOOKUP_DST_PORT)) ||
      (n.opts.dsrPort.Some? && p.proto.Ip? && v.Sent? &&
       v == Sent(n.opts.dsrPort.value, p.(ethDst := v.sent.ethDst)))
  }

  function Towards(p: Packet, dst: nat, port: nat): Packet {
    p.(dst := dst, outport := port, reg5 := true, table := TABLE_OUTPUT_DST_PORT)
  }

  ghost predicate LookupStep(n: Host, p: Packet, v: Verdict) {
    var m := EthDst(p.ethDst);
    if exists l :: NatHit(n, p.dp, p.ethDst, l) then
      exists l :: NatHit(n, p.dp, p.ethDst, l) &&
        v == Resubmit(p.(dst := PortId(l.lsp.props.ip), table := TABLE_OUTPUT_DST_PORT))
    else if HasFlow(n, p.table, 4, p.dp, m) then
      exists a :: Flow(n, p.table, 4, p.dp, m, a) && a.LoadDst? &&
        v == Resubmit(p.(dst := a.dst, table := TABLE_OUTPUT_DST_PORT))
    else if HasFlow(n, p.table, 3, p.dp, m) then
      exists a :: Flow(n, p.table, 3, p.dp, m, a) && a.SendRemote? &&
        (v == Resubmit(Towards(p, a.dst, a.ofport)) ||
          (n.opts.redirect && v == Resubmit(Towards(p, a.dst, OFPORT_NONE))))
    else if exists b :: PatchHit(n, p.dp, b) then
      exists b :: PatchHit(n, p.dp, b) &&
        v == Resubmit(p.(dst := PortId(b.lsp.props.ip), table := TABLE_LSP_EGRESS_FIRST))
    else if n.opts.ondemand && KnownSwitch(n, p.dp) then
      v == Resubmit(p.(outport := OFPORT_NONE, reg5 := true, table := TABLE_OUTPUT_DST_PORT))
    else v == Dropped
  }

  ghost predicate OutputStep(n: Host, p: Packet, v: Verdict) {
    if !KnownSwitch(n, p.dp) then v == Dropped
    else if n.opts.redirect && p.reg5 && HasRedirect(p.flags) && p.outport == OFPORT_NONE then v == Dropped
    else if n.opts.redirect && p.reg5 && p.outport == OFPORT_NONE then
      v == Resubmit(p.(table := TABLE_REDIRECT_CHASSIS))
    else if p.reg5 then v == OutputByReg(Embed(p))
    else v == Resubmit(p.(table := TABLE_LSP_EGRESS_FIRST))
  }

  ghost predicate ForwardStep(n: Host, p: Packet, v: Verdict) {
    var m := RegDst(p.dst);
    if HasFlow(n, p.table, 3, p.dp, m) then
      exists a :: Flow(n, p.table, 3, p.dp, m, a) && a.PushOut? &&
        v == Resubmit(p.(reg5 := true, outport := a.ofport, table := TABLE_PUSHOUT))
    else if HasFlow(n, p.table, 2, p.dp, m) then
      exists a :: Flow(n, p.table, 2, p.dp, m, a) && a.EnterRouter? &&
        v == Resubmit(p.(reg6 := a.router, reg7 := a.src, table := TABLE_PUSHOUT))
    else if !KnownSwitch(n, p.dp) then v == Dropped
    else if p.proto.Ip? then
      v == Resubmit(p.(flags := SetRedirect(p.flags), table := TABLE_LOOKUP_DST_PORT))
    else if p.proto.Arp? && p.proto.request then
      exists q :: ArpFeedback(p.(flags := SetRedirect(p.flags)), q) &&
        v == Resubmit(q.(table := TABLE_LOOKUP_DST_PORT))
    else v == Dropped
  }

  ghost predicate SwitchEgressStep(n: Host, p: Packet, v: Verdict) {
    if p.table == TABLE_LSP_EGRESS_FIRST then v == Resubmit(p.(table := TABLE_JUDGE_LOOPBACK))
    else if p.table == TABLE_FORWARD_PACKET then ForwardStep(n, p, v)
    else if !KnownSwitch(n, p.dp) then v == Dropped
    else if p.table == TABLE_JUDGE_LOOPBACK then
      v == Resubmit(p.(inPort := if p.flags % 2 == 1 then OFPORT_NONE else p.inPort, table := TABLE_FORWARD_PACKET))
    else if p.reg5 then v == OutputByReg(p)
    else v == Resubmit(p.(dp := LowMoved(p.dp, p.reg6), src := p.reg7, reg6 := 0, reg7 := 0,
      table := TABLE_LRP_INGRESS_FIRST))
  }

  /** The router answers an echo request for one of its own addresses. */
  ghost predicate Answers(n: Host, p: Packet, l: Link) {
    HasLink(n, l) && l.lr.props.lrId == p.dp && p.proto.Ip? && p.proto.echoRequest && p.proto.dstIp == l.lrp.props.ip &&
    (n.opts.gateway && l.lr.props.lrChassis.Some? ==>
       exists c :: c in n.facts && c.props.Chassis? && l.lr.props.lrChassis == Some(c.props.uuid))
  }

  function EchoReply(p: Packet): Packet
    requires p.proto.Ip?
  {
    p.(proto := Ip(false, 255, p.proto.dstIp, p.proto.srcIp), dst := p.src, flags := SetLoopback(p.flags))
  }

  ghost predicate RouterIngressStep(n: Host, p: Packet, v: Verdict) {
    if p.table == TABLE_LRP_INGRESS_FIRST then v == Resubmit(p.(dst := 0, table := TABLE_PKT_RESPONSE))
    else if !KnownRouter(n, p.dp) || !p.proto.Ip? then v == Dropped
    else if p.table == TABLE_PKT_RESPONSE then
      if exists l :: Answers(n, p, l) then v == Resubmit(EchoReply(p).(table := TABLE_DROP_UNEXPECT))
      else v == Resubmit(p.(table := TABLE_DROP_UNEXPECT))
    else
      if p.proto.ttl <= 1 then v == Dropped
      else v == Resubmit(p.(proto := p.proto.(ttl := p.proto.ttl - 1), table := TABLE_DROP_UNEXPECT + 1))
  }

  /** What the tables 33..55 may rewrite: addresses, destination, next hop, bundle port
      and the NAT flag; the TTL and the echo flag stay. */
  predicate Rewritten(p: Packet, q: Packet) {
    q == p.(table := q.table, proto := q.proto, ethSrc := q.ethSrc, ethDst := q.ethDst, dst := q.dst,
            nextHop := q.nextHop, outport := q.outport, flags := q.flags) &&
    (p.proto.Ip? && q.proto.Ip? ==> q.proto.echoRequest == p.proto.echoRequest && q.proto.ttl == p.proto.ttl) &&
    (p.proto.Ip? <==> q.proto.Ip?) && (!p.proto.Ip? ==> q.proto == p.proto) &&
    (q.flags == p.flags || q.flags == SetNat(p.flags))
  }

  function TableAfter(t: nat): nat {
    if t == 39 then TABLE_LRP_EGRESS_FIRST else t + 1
  }

  predicate TranslatesBy(n: Host, dp: nat, a: Atom, lr: Atom) {
    a in n.facts && a.props.Lnat? && lr in n.facts && lr.props.Lr? &&
    lr.props.uuid == a.props.lr && lr.props.lrId == dp
  }

  /** The router translates addresses. */
  ghost predicate Translates(n: Host, dp: nat) {
    exists a, lr :: TranslatesBy(n, dp, a, lr)
  }

  /** Tables 33..36 and 51..54. Which addresses a translation inserts depends on the
      connection tracker: it may be any. */
  ghost predicate NatStep(n: Host, p: Packet, v: Verdict) {
    if !KnownRouter(n, p.dp) then v == Dropped
    else if Translates(n, p.dp) then
      v == Dropped || (v.Resubmit? && Rewritten(p, v.next) && v.next.table == p.table + 1)
    else v == Resubmit(p.(table := p.table + 1))
  }

  /** The flows of table 37; a gateway has no bundles. */
  ghost predicate RoutingFlow(n: Host, k: FlowKey, a: Action) {
    k.table == TABLE_IP_ROUTE &&
    (Derived(n.facts, n.sys, k, a) ||
     (!n.opts.gateway && exists g, lr, pin :: IsBundle(n.facts, n.sys, g, lr, pin, k, a)))
  }

  /** The flow that the switch picks: no matching flow has a higher priority. */
  ghost predicate PicksRoute(n: Host, dp: nat, dst: nat, k: FlowKey, a: Action) {
    RoutingFlow(n, k, a) && Matches(k, dp, dst) &&
    forall j, b :: RoutingFlow(n, j, b) && Matches(j, dp, dst) ==> j.priority <= k.priority
  }

  /** What a route flow does; a bundle takes a live port, or none when all are down. */
  ghost predicate TakesRoute(p: Packet, a: Action, v: Verdict)
    requires p.proto.Ip?
  {
    match a
    case RouteVia(dst, mac, hop, _) =>
      v == Resubmit(p.(dst := dst, ethSrc := mac, table := 38,
        nextHop := if hop.Some? then hop.value else p.proto.dstIp))
    case BundleLoad(ports) =>
      exists port: nat :: (port in ports || port == OFPORT_NONE) && v == Resubmit(p.(outport := port, table := 38))
    case _ => false
  }

  /** Table 37. A flow of priority 0 has the priority of the flow that drops. A gateway also
      has static routes towards patch ports, which are not part of this model. */
  ghost predicate RouteStep(n: Host, p: Packet, v: Verdict) {
    if n.opts.gateway then v == Dropped || (v.Resubmit? && Rewritten(p, v.next) && v.next.table == 38)
    else if p.proto.Ip? && exists k, a :: PicksRoute(n, p.dp, p.proto.dstIp, k, a) then
      exists k, a :: PicksRoute(n, p.dp, p.proto.dstIp, k, a) &&
        (TakesRoute(p, a, v) || (k.priority == 0 && v == Dropped))
    else v == Dropped
  }

  /** A route of a bundle whose tunnel port the bundle has picked. */
  ghost predicate Judges(n: Host, p: Packet, l: Leg) {
    LegOk(l, n.sys) && AllIn(LegAtoms(l), n.facts) && l.hop.lr.props.lrId == p.dp &&
    l.route.props.lr == l.hop.lr.props.uuid && l.port.props.ofport == p.outport &&
    p.proto.Ip? && Net(p.proto.dstIp, l.route.props.prefix) == Net(l.route.props.ip, l.route.props.prefix)
  }

  ghost predicate PicksLeg(n: Host, p: Packet, l: Leg) {
    Judges(n, p, l) && forall m :: Judges(n, p, m) ==> m.route.props.prefix <= l.route.props.prefix
  }

  /** Table 38: what the bundle left open. */
  ghost predicate JudgeStep(n: Host, p: Packet, v: Verdict) {
    if !n.opts.gateway && exists l :: PicksLeg(n, p, l) then
      exists l :: PicksLeg(n, p, l) &&
        v == Resubmit(p.(dst := PortId(l.hop.lrp.props.ip), ethSrc := l.hop.lrp.props.mac,
          nextHop := l.route.props.nextHop, table := 39))
    else if !KnownRouter(n, p.dp) || (!n.opts.gateway && p.outport == OFPORT_NONE) then v == Dropped
    else v == Resubmit(p.(table := 39))
  }

  /** A port with the address of the next hop on the switch behind the router's port. */
  ghost predicate Opposite(n: Host, p: Packet, l: Link, lsp: Atom) {
    HasLink(n, l) && l.lr.props.lrId == p.dp && PortId(l.lrp.props.ip) == p.dst &&
    lsp in n.facts && lsp.props.Lsp? && lsp.props.ls == l.ls.props.uuid && lsp.props.ip == p.nextHop &&
    (lsp.props.peer.Some? || lsp.props.chassis.Some?)
  }

  /** Table 55: the MAC of the next hop, or whatever table 100 has learned. */
  ghost predicate ResolveStep(n: Host, p: Packet, v: Verdict) {
    if p.proto.Ip? && exists l, lsp :: Opposite(n, p, l, lsp) then
      exists l, lsp :: Opposite(n, p, l, lsp) && v == Resubmit(p.(ethDst := lsp.props.mac, table := 56))
    else if !KnownRouter(n, p.dp) then v == Dropped
    else v.Resubmit? && v == Resubmit(p.(ethDst := v.next.ethDst, table := 56))
  }

  /** Tables 33..55: address translation, routing, the judgement on bundles and the
      destination MAC. Tables 39 and 50 only pass the packet on. */
  ghost predicate RoutingStep(n: Host, p: Packet, v: Verdict) {
    if p.table == TABLE_IP_ROUTE then RouteStep(n, p, v)
    else if p.table == 38 then JudgeStep(n, p, v)
    else if p.table == 39 || p.table == TABLE_LRP_EGRESS_FIRST then v == Resubmit(p.(table := TableAfter(p.table)))
    else if p.table == 55 then ResolveStep(n, p, v)
    else NatStep(n, p, v)
  }

  ghost predicate PatchOpposite(n: Host, p: Packet) {
    exists b, l :: HasBond(n, b) && IsExchange(b.lsp) && HasLink(n, l) && l.ls == b.ls &&
      l.lr.props.lrId == p.dp && PortId(l.lrp.props.ip) == p.dst
  }

  ghost predicate UnknownDstStep(n: Host, p: Packet, v: Verdict) {
    if !KnownRouter(n, p.dp) then v == Dropped
    else if p.ethDst != ZERO_MAC then v == Resubmit(p.(table := TABLE_LRP_FORWARD))
    else if HasRedirect(p.flags) then v == Dropped
    else if p.proto.Ip? && PatchOpposite(n, p) then v == Dropped
    else if p.proto.Ip? && n.opts.redirect then
      v == Resubmit(Embed(p.(flags := SetRedirect(p.flags))).(table := TABLE_REDIRECT_CHASSIS))
    else v == Dropped
  }

  ghost predicate LeavesBy(n: Host, p: Packet, l: Link) {
    HasLink(n, l) && l.lr.props.lrId == p.dp && PortId(l.lrp.props.ip) == p.dst
  }

  ghost predicate RouterEgressStep(n: Host, p: Packet, v: Verdict) {
    if p.table == TABLE_HANDLE_UNKNOWN then UnknownDstStep(n, p, v)
    else if p.table == TABLE_LRP_FORWARD then
      if exists l :: LeavesBy(n, p, l) then
        exists l :: LeavesBy(n, p, l) &&
          v == Resubmit(p.(dp := l.ls.props.lsId, src := PortId(l.lsp.props.ip), table := TABLE_LRP_EGRESS_LAST))
      else v == Dropped
    else v == Resubmit(p.(table := TABLE_LSP_INGRESS_FIRST))
  }

  /** redirect_other_chassis: bundle_load picks a live gateway port or none. */
  ghost predicate RedirectStep(n: Host, p: Packet, v: Verdict) {
    if exists port :: GatewayPort(n, port) then
      exists port :: (GatewayPort(n, port) || port == OFPORT_NONE) &&
        v == OutputByReg(Embed(p.(flags := SetRedirect(p.flags), outport := port)))
    else v == Dropped
  }

  ghost predicate MiddleStep(n: Host, p: Packet, v: Verdict) {
    if p.table == TABLE_PIPELINE_FORWARD then
      if p.proto.Ip? && p.ethDst == ZERO_MAC && HasRedirect(p.flags) then v == Resubmit(p.(table := TABLE_IP_ROUTE))
      else v == Resubmit(p.(table := TABLE_LSP_EGRESS_FIRST))
    else RedirectStep(n, p, v)
  }

  predicate ValidTable(t: nat) {
    t <= 7 || 20 <= t <= 23 || 30 <= t <= 39 || 50 <= t <= 58 || t == 95 || t == 99
  }

  ghost predicate Step(n: Host, p: Packet, v: Verdict) {
    ValidTable(p.table) &&
    if p.table == TABLE_CONVERT_PHY_LOGICAL then EnterStep(n, p, v)
    else if p.table <= TABLE_UNTUNNEL then SwitchIngressStep(n, p, v)
    else if p.table == TABLE_LOOKUP_DST_PORT then LookupStep(n, p, v)
    else if p.table == TABLE_OUTPUT_DST_PORT then OutputStep(n, p, v)
    else if p.table <= TABLE_PUSHOUT then SwitchEgressStep(n, p, v)
    else if p.table <= TABLE_DROP_UNEXPECT then RouterIngressStep(n, p, v)
    else if p.table < TABLE_HANDLE_UNKNOWN then RoutingStep(n, p, v)
    else if p.table <= TABLE_LRP_EGRESS_LAST then RouterEgressStep(n, p, v)
    else MiddleStep(n, p, v)
  }

  // ----- The lookup resolves its destination -----

  lemma LinkForwards(n: Host, l: Link)
    requires HasLink(n, l)
    ensures l.ls.props.Ls? && l.lsp.props.Lsp? && Resolved(n, l.ls.props.lsId, PortId(l.lsp.props.ip))
  {
    var d := ForwardLink(l);
    var k := FlowKey(TABLE_FORWARD_PACKET, 2, l.ls.props.lsId, RegDst(PortId(l.lsp.props.ip)));
    assert DerivedBy(n.facts, n.sys, d, k, ActionOf(d, n.sys));
    assert Flow(n, k.table, 2, k.datapath, k.m, ActionOf(d, n.sys));
  }

  lemma BondForwards(n: Host, b: Bond)
    requires HasBond(n, b)
    ensures b.ls.props.Ls? && b.lsp.props.Lsp? && Resolved(n, b.ls.props.lsId, PortId(b.lsp.props.ip))
  {
    var d := ForwardBond(b);
    var k := FlowKey(TABLE_FORWARD_PACKET, 3, b.ls.props.lsId, RegDst(PortId(b.lsp.props.ip)));
    assert DerivedBy(n.facts, n.sys, d, k, ActionOf(d, n.sys));
    assert Flow(n, k.table, 3, k.datapath, k.m, ActionOf(d, n.sys));
  }

  /** Whatever table 6 finds locally, table 22 can forward. */
  lemma LocalLookupResolves(n: Host, dp: nat, mac: string, a: Action)
    requires Flow(n, TABLE_LOOKUP_DST_PORT, 4, dp, EthDst(mac), a)
    ensures a.LoadDst? && Resolved(n, dp, a.dst)
  {
    hide LinkOk, BondOk, Resolved;
    var k := FlowKey(TABLE_LOOKUP_DST_PORT, 4, dp, EthDst(mac));
    var d :| DerivedBy(n.facts, n.sys, d, k, a);
    OverParts(d, n.facts);
    hide Over;
    if d.LookupLink? { LinkForwards(n, d.link); }
    if d.LookupBond? { BondForwards(n, d.bond); }
  }

  /** After the lookup a packet either is to be output or cannot fall back to the
      lookup again in this switch pass. */
  lemma LookupSettles(n: Host, p: Packet, v: Verdict)
    requires p.table == TABLE_LOOKUP_DST_PORT && Step(n, p, v) && v.Resubmit?
    ensures v.next.dp == p.dp && v.next.proto == p.proto && v.next.flags == p.flags
    ensures (v.next.table == TABLE_OUTPUT_DST_PORT && v.next.reg5) || Resolved(n, v.next.dp, v.next.dst)
    ensures v.next.table == TABLE_OUTPUT_DST_PORT || v.next.table == TABLE_LSP_EGRESS_FIRST
  {
    hide Resolved, HasLink, HasBond, Flow, KnownSwitch, MacOfIp;
    forall l | NatHit(n, p.dp, p.ethDst, l)
      ensures l.lsp.props.Lsp? && Resolved(n, p.dp, PortId(l.lsp.props.ip))
    {
      LinkForwards(n, l);
    }
    forall a | Flow(n, p.table, 4, p.dp, EthDst(p.ethDst), a) ensures a.LoadDst? && Resolved(n, p.dp, a.dst) {
      LocalLookupResolves(n, p.dp, p.ethDst, a);
    }
    forall b | PatchHit(n, p.dp, b)
      ensures b.lsp.props.Lsp? && Resolved(n, p.dp, PortId(b.lsp.props.ip))
    {
      BondForwards(n, b);
    }
  }

  // ----- Termination -----

  function EchoBit(p: Packet): nat {
    if p.proto.Ip? && p.proto.echoRequest then 1 else 0
  }

  function Ttl(p: Packet): nat {
    if p.proto.Ip? then p.proto.ttl else 0
  }

  /** The order in which a packet can visit the tables while its TTL and echo flag
      stay the same; an unresolved pass through the switch egress comes before the
      lookup, a resolved one after it. */
  ghost function Rank(n: Host, p: Packet): nat {
    if p.table == 0 then 100
    else if p.table == TABLE_PIPELINE_FORWARD then 99
    else if 33 <= p.table <= 58 then 154 - 2 * p.table
    else if p.table < TABLE_LOOKUP_DST_PORT then 37 - p.table
    else if p.table == TABLE_LOOKUP_DST_PORT then 20
    else if p.table == TABLE_OUTPUT_DST_PORT || p.table in {20, 21, 22} then
      (if p.table == TABLE_OUTPUT_DST_PORT then 19 else 36 - p.table) +
      (if Resolved(n, p.dp, p.dst) || (p.table == TABLE_OUTPUT_DST_PORT && p.reg5) then 0 else 10)
    else if p.table == TABLE_PUSHOUT then 9
    else if 30 <= p.table <= 32 then 38 - p.table
    else 1
  }

  ghost function Fuel(n: Host, p: Packet): nat {
    (EchoBit(p) * 256 + Ttl(p)) * 128 + Rank(n, p)
  }

  lemma LookupBurnsFuel(n: Host, p: Packet, v: Verdict)
    requires p.table == TABLE_LOOKUP_DST_PORT && Step(n, p, v) && v.Resubmit?
    ensures Fuel(n, v.next) < Fuel(n, p) && ValidTable(v.next.table)
  {
    hide Step, Resolved;
    LookupSettles(n, p, v);
  }

  lemma EgressBurnsFuel(n: Host, p: Packet, v: Verdict)
    requires 20 <= p.table <= 23 && Step(n, p, v) && v.Resubmit?
    ensures Fuel(n, v.next) < Fuel(n, p) && ValidTable(v.next.table)
  {
    hide HasFlow, Flow, KnownSwitch, SetRedirect, SetLoopback, LookupStep, EnterStep, SwitchIngressStep, OutputStep,
      RouterIngressStep, RoutingStep, RouterEgressStep, MiddleStep, LowMoved;
  }

  lemma RouterIngressBurnsFuel(n: Host, p: Packet, v: Verdict)
    requires 30 <= p.table <= TABLE_DROP_UNEXPECT && RouterIngressStep(n, p, v) && v.Resubmit?
    ensures Fuel(n, v.next) < Fuel(n, p) && ValidTable(v.next.table)
  {
    hide Resolved, KnownRouter, Answers, SetLoopback;
    AnswersEcho(n, p);
  }

  lemma AnswersEcho(n: Host, p: Packet)
    ensures forall l :: Answers(n, p, l) ==> EchoBit(p) == 1 && p.proto.Ip?
  {
  }

  /** None of the tables 33..55 does more than rewrite. */
  lemma RoutingRewrites(n: Host, p: Packet, v: Verdict)
    requires RoutingStep(n, p, v) && (33 <= p.table <= 39 || 50 <= p.table <= 55)
    ensures v == Dropped || (v.Resubmit? && Rewritten(p, v.next) && v.next.table == TableAfter(p.table))
  {
    hide KnownRouter, Translates, PicksRoute, PicksLeg, Judges, Opposite, SetNat;
  }

  lemma RoutingBurnsFuel(n: Host, p: Packet, v: Verdict)
    requires 33 <= p.table <= 39 || 50 <= p.table <= 58
    requires if p.table < TABLE_HANDLE_UNKNOWN then RoutingStep(n, p, v) else RouterEgressStep(n, p, v)
    requires v.Resubmit?
    ensures Fuel(n, v.next) < Fuel(n, p) && ValidTable(v.next.table)
  {
    if p.table < TABLE_HANDLE_UNKNOWN { RoutingRewrites(n, p, v); }
    hide Resolved, KnownRouter, HasLink, SetRedirect, SetNat, PatchOpposite, LeavesBy, RoutingStep;
  }

  lemma RouterBurnsFuel(n: Host, p: Packet, v: Verdict)
    requires 30 <= p.table <= 58 && Step(n, p, v) && v.Resubmit?
    ensures Fuel(n, v.next) < Fuel(n, p) && ValidTable(v.next.table)
  {
    hide Fuel, RouterIngressStep, RoutingStep, RouterEgressStep, EnterStep, SwitchIngressStep, LookupStep, OutputStep,
      SwitchEgressStep, MiddleStep;
    if p.table <= TABLE_DROP_UNEXPECT {
      RouterIngressBurnsFuel(n, p, v);
    } else {
      RoutingBurnsFuel(n, p, v);
    }
  }

  /** Entry, switch ingress, output and the tables 95 and 99. */
  lemma OtherBurnsFuel(n: Host, p: Packet, v: Verdict)
    requires p.table < TABLE_LOOKUP_DST_PORT || p.table == TABLE_OUTPUT_DST_PORT || p.table > 58
    requires Step(n, p, v) && v.Resubmit?
    ensures Fuel(n, v.next) < Fuel(n, p) && ValidTable(v.next.table)
  {
    hide Resolved, KnownSwitch, HasBond, HasRemote, HasRedirect, SetRedirect, SetLoopback, GatewayPort, LookupStep,
      SwitchEgressStep, RouterIngressStep, RoutingStep, RouterEgressStep;
  }

  /** Every resubmission lowers the fuel. */
  lemma StepBurnsFuel(n: Host, p: Packet, v: Verdict)
    requires Step(n, p, v) && v.Resubmit?
    ensures Fuel(n, v.next) < Fuel(n, p) && ValidTable(v.next.table)
  {
    assert ValidTable(p.table);
    hide Step, Fuel;
    if p.table == TABLE_LOOKUP_DST_PORT {
      LookupBurnsFuel(n, p, v);
    } else if 20 <= p.table <= 23 {
      EgressBurnsFuel(n, p, v);
    } else if 30 <= p.table <= 58 {
      RouterBurnsFuel(n, p, v);
    } else {
      OtherBurnsFuel(n, p, v);
    }
  }

  /** A run through the tables: each packet is a resubmission of the one before. */
  ghost predicate Path(n: Host, path: seq<Packet>) {
    path != [] && forall i :: 0 < i < |path| ==> Step(n, path[i - 1], Resubmit(path[i]))
  }

  /** Every packet leaves the pipeline: no run is longer than its fuel. */
  lemma {:induction false} EveryRunEnds(n: Host, path: seq<Packet>)
    requires Path(n, path)
    ensures |path| + Fuel(n, path[|path| - 1]) <= 1 + Fuel(n, path[0])
    decreases |path|
  {
    hide Step, Fuel;
    if |path| > 1 {
      var init := path[..|path| - 1];
      EveryRunEnds(n, init);
      StepBurnsFuel(n, init[|init| - 1], Resubmit(path[|path| - 1]));
    }
  }

  // ----- Progress -----

  lemma FlowActions(n: Host, k: FlowKey, a: Action)
    requires Derived(n.facts, n.sys, k, a)
    ensures k.table == TABLE_LOOKUP_DST_PORT ==>
      (k.priority == 4 && a.LoadDst?) || (k.priority == 3 && a.SendRemote?)
    ensures k.table == TABLE_FORWARD_PACKET ==>
      (k.priority == 3 && a.PushOut?) || (k.priority == 2 && a.EnterRouter?)
  {
    hide LinkOk, BondOk, HopOk, RemoteOk, Over;
    var d :| DerivedBy(n.facts, n.sys, d, k, a);
  }

  lemma LookupProgress(n: Host, p: Packet) returns (v: Verdict)
    requires p.table == TABLE_LOOKUP_DST_PORT
    ensures LookupStep(n, p, v)
  {
    hide Derived, MacOfIp, KnownSwitch;
    var m := EthDst(p.ethDst);
    if l :| NatHit(n, p.dp, p.ethDst, l) {
      v := Resubmit(p.(dst := PortId(l.lsp.props.ip), table := TABLE_OUTPUT_DST_PORT));
    } else if HasFlow(n, p.table, 4, p.dp, m) {
      var a :| Flow(n, p.table, 4, p.dp, m, a);
      FlowActions(n, FlowKey(p.table, 4, p.dp, m), a);
      v := Resubmit(p.(dst := a.dst, table := TABLE_OUTPUT_DST_PORT));
    } else if HasFlow(n, p.table, 3, p.dp, m) {
      var a :| Flow(n, p.table, 3, p.dp, m, a);
      FlowActions(n, FlowKey(p.table, 3, p.dp, m), a);
      v := Resubmit(Towards(p, a.dst, a.ofport));
    } else if b :| PatchHit(n, p.dp, b) {
      v := Resubmit(p.(dst := PortId(b.lsp.props.ip), table := TABLE_LSP_EGRESS_FIRST));
    } else if n.opts.ondemand && KnownSwitch(n, p.dp) {
      v := Resubmit(p.(outport := OFPORT_NONE, reg5 := true, table := TABLE_OUTPUT_DST_PORT));
    } else {
      v := Dropped;
    }
  }

  lemma ForwardProgress(n: Host, p: Packet) returns (v: Verdict)
    requires p.table == TABLE_FORWARD_PACKET
    ensures ForwardStep(n, p, v)
  {
    hide Derived, KnownSwitch, SetRedirect;
    var m := RegDst(p.dst);
    if HasFlow(n, p.table, 3, p.dp, m) {
      var a :| Flow(n, p.table, 3, p.dp, m, a);
      FlowActions(n, FlowKey(p.table, 3, p.dp, m), a);
      v := Resubmit(p.(reg5 := true, outport := a.ofport, table := TABLE_PUSHOUT));
    } else if HasFlow(n, p.table, 2, p.dp, m) {
      var a :| Flow(n, p.table, 2, p.dp, m, a);
      FlowActions(n, FlowKey(p.table, 2, p.dp, m), a);
      v := Resubmit(p.(reg6 := a.router, reg7 := a.src, table := TABLE_PUSHOUT));
    } else if KnownSwitch(n, p.dp) && !p.proto.Other? && (p.proto.Arp? ==> p.proto.request) {
      var q := p.(flags := SetRedirect(p.flags));
      assert ArpFeedback(q, q);
      v := Resubmit(q.(table := TABLE_LOOKUP_DST_PORT));
    } else {
      v := Dropped;
    }
  }

  lemma EnterProgress(n: Host, p: Packet) returns (v: Verdict)
    ensures EnterStep(n, p, v)
  {
    hide SetLoopback, Extract;
    if r :| HasRemote(n, r) && r.port.props.ofport == p.inPort {
      var q := Extract(p);
      v := Resubmit(q.(flags := SetLoopback(q.flags), table := TABLE_PIPELINE_FORWARD));
    } else if b :| HasBond(n, b) && b.port.props.ofport == p.inPort {
      v := Resubmit(p.(src := PortId(b.lsp.props.ip), dp := b.ls.props.lsId, table := TABLE_LSP_INGRESS_FIRST));
    } else {
      v := Dropped;
    }
  }

  lemma SwitchProgress(n: Host, p: Packet) returns (v: Verdict)
    requires 1 <= p.table <= 5 || p.table == TABLE_OUTPUT_DST_PORT || 20 <= p.table <= 23
    ensures Step(n, p, v)
  {
    hide KnownSwitch, SetLoopback, Embed, HasFlow, Flow;
    if 1 <= p.table <= 5 {
      var q := p.(dst := if p.table == 1 then 0 else p.dst, table := p.table + 1);
      assert p.table == TABLE_ARP_RESPONSE ==> ArpFeedback(p, p);
      v := if SwitchIngressStep(n, p, Resubmit(q)) then Resubmit(q) else Dropped;
    } else if p.table == TABLE_OUTPUT_DST_PORT {
      v := if !KnownSwitch(n, p.dp) || (n.opts.redirect && p.reg5 && HasRedirect(p.flags) && p.outport == OFPORT_NONE)
        then Dropped
        else if n.opts.redirect && p.reg5 && p.outport == OFPORT_NONE then Resubmit(p.(table := TABLE_REDIRECT_CHASSIS))
        else if p.reg5 then OutputByReg(Embed(p))
        else Resubmit(p.(table := TABLE_LSP_EGRESS_FIRST));
    } else if p.table == TABLE_FORWARD_PACKET {
      v := ForwardProgress(n, p);
    } else if p.table == TABLE_LSP_EGRESS_FIRST {
      v := Resubmit(p.(table := TABLE_JUDGE_LOOPBACK));
    } else {
      v := if !KnownSwitch(n, p.dp) then Dropped
        else if p.table == TABLE_JUDGE_LOOPBACK then
          Resubmit(p.(inPort := if p.flags % 2 == 1 then OFPORT_NONE else p.inPort, table := TABLE_FORWARD_PACKET))
        else if p.reg5 then OutputByReg(p)
        else Resubmit(p.(dp := LowMoved(p.dp, p.reg6), src := p.reg7, reg6 := 0, reg7 := 0,
          table := TABLE_LRP_INGRESS_FIRST));
    }
  }

  lemma RouteProgress(n: Host, p: Packet) returns (v: Verdict)
    requires p.table == TABLE_IP_ROUTE
    ensures RouteStep(n, p, v)
  {
    hide RoutingFlow, Matches;
    v := Dropped;
    if p.proto.Ip? && !n.opts.gateway {
      if k, a :| PicksRoute(n, p.dp, p.proto.dstIp, k, a) {
        v := SomeVerdict(n, p, k, a);
      }
    }
  }

  lemma SomeVerdict(n: Host, p: Packet, k: FlowKey, a: Action) returns (v: Verdict)
    requires p.proto.Ip? && RoutingFlow(n, k, a)
    ensures TakesRoute(p, a, v)
  {
    RouteActions(n, k, a);
    hide RoutingFlow;
    match a
    case RouteVia(dst, mac, hop, _) =>
      v := Resubmit(p.(dst := dst, ethSrc := mac, table := 38,
        nextHop := if hop.Some? then hop.value else p.proto.dstIp));
    case BundleLoad(ports) =>
      v := Resubmit(p.(outport := OFPORT_NONE, table := 38));
  }

  lemma JudgeProgress(n: Host, p: Packet) returns (v: Verdict)
    requires p.table == 38
    ensures JudgeStep(n, p, v)
  {
    hide KnownRouter, RouterOk, LegAtoms, AllIn;
    v := if !KnownRouter(n, p.dp) || (!n.opts.gateway && p.outport == OFPORT_NONE) then Dropped
      else Resubmit(p.(table := 39));
    if l :| PicksLeg(n, p, l) {
      if !n.opts.gateway {
        v := Resubmit(p.(dst := PortId(l.hop.lrp.props.ip), ethSrc := l.hop.lrp.props.mac,
          nextHop := l.route.props.nextHop, table := 39));
      }
    }
  }

  lemma ResolveProgress(n: Host, p: Packet) returns (v: Verdict)
    requires p.table == 55
    ensures ResolveStep(n, p, v)
  {
    hide KnownRouter, HasLink;
    v := if KnownRouter(n, p.dp) then Resubmit(p.(table := 56)) else Dropped;
    if l, lsp :| Opposite(n, p, l, lsp) {
      if p.proto.Ip? { v := Resubmit(p.(ethDst := lsp.props.mac, table := 56)); }
    }
  }

  lemma RoutingProgress(n: Host, p: Packet) returns (v: Verdict)
    requires 33 <= p.table <= 39 || 50 <= p.table <= 55
    ensures RoutingStep(n, p, v)
  {
    hide RouteStep, JudgeStep, ResolveStep, KnownRouter, Translates, Rewritten;
    if p.table == TABLE_IP_ROUTE {
      v := RouteProgress(n, p);
    } else if p.table == 38 {
      v := JudgeProgress(n, p);
    } else if p.table == 55 {
      v := ResolveProgress(n, p);
    } else {
      v := if RoutingStep(n, p, Dropped) then Dropped else Resubmit(p.(table := TableAfter(p.table)));
    }
  }

  lemma RouteActions(n: Host, k: FlowKey, a: Action)
    requires RoutingFlow(n, k, a)
    ensures a.RouteVia? || a.BundleLoad?
  {
    hide LinkOk, BondOk, HopOk, RemoteOk, Over, HasBundle, Lists;
  }

  lemma RouterProgress(n: Host, p: Packet) returns (v: Verdict)
    requires 30 <= p.table <= 39 || 50 <= p.table <= 58
    ensures Step(n, p, v)
  {
    hide KnownRouter, SetLoopback, SetRedirect, Embed, PatchOpposite;
    if l :| p.table == TABLE_LRP_FORWARD && LeavesBy(n, p, l) {
      v := Resubmit(p.(dp := l.ls.props.lsId, src := PortId(l.lsp.props.ip), table := TABLE_LRP_EGRESS_LAST));
    } else if p.table == TABLE_LRP_EGRESS_LAST {
      v := Resubmit(p.(table := TABLE_LSP_INGRESS_FIRST));
    } else if p.table == TABLE_HANDLE_UNKNOWN {
      var q := Embed(p.(flags := SetRedirect(p.flags))).(table := TABLE_REDIRECT_CHASSIS);
      v := if UnknownDstStep(n, p, Dropped) then Dropped
        else if p.ethDst != ZERO_MAC then Resubmit(p.(table := TABLE_LRP_FORWARD)) else Resubmit(q);
    } else if p.table == TABLE_LRP_FORWARD {
      v := Dropped;
    } else if 33 <= p.table {
      v := RoutingProgress(n, p);
    } else {
      v := if p.table == TABLE_LRP_INGRESS_FIRST then Resubmit(p.(dst := 0, table := TABLE_PKT_RESPONSE))
        else if !KnownRouter(n, p.dp) || !p.proto.Ip? then Dropped
        else if p.table == TABLE_PKT_RESPONSE then
          if exists l :: Answers(n, p, l) then Resubmit(EchoReply(p).(table := TABLE_DROP_UNEXPECT))
          else Resubmit(p.(table := TABLE_DROP_UNEXPECT))
        else if p.proto.ttl <= 1 then Dropped
        else Resubmit(p.(proto := p.proto.(ttl := p.proto.ttl - 1), table := TABLE_DROP_UNEXPECT + 1));
    }
  }

  /** No packet gets stuck: every table has a verdict for every packet. */
  lemma StepIsTotal(n: Host, p: Packet)
    requires ValidTable(p.table)
    ensures exists v :: Step(n, p, v)
  {
    hide Derived, KnownSwitch, KnownRouter, Embed, SetRedirect;
    if p.table == TABLE_CONVERT_PHY_LOGICAL {
      var v := EnterProgress(n, p);
      assert Step(n, p, v);
    } else if p.table == TABLE_LOOKUP_DST_PORT {
      var v := LookupProgress(n, p);
      assert Step(n, p, v);
    } else if p.table <= 23 {
      var v := SwitchProgress(n, p);
    } else if p.table <= 58 {
      var v := RouterProgress(n, p);
    } else if p.table == TABLE_PIPELINE_FORWARD {
      var t := if p.proto.Ip? && p.ethDst == ZERO_MAC && HasRedirect(p.flags) then TABLE_IP_ROUTE
        else TABLE_LSP_EGRESS_FIRST;
      assert Step(n, p, Resubmit(p.(table := t)));
    } else {
      var q := Embed(p.(flags := SetRedirect(p.flags), outport := OFPORT_NONE));
      assert Step(n, p, OutputByReg(q)) || Step(n, p, Dropped);
    }
  }
}
