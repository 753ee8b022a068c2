// ECMP bundles: the routes of one router and network through different ports
// share one flow, maintained by three aggregates.

module Ecmp {
  import opened Common
  import opened Entities
  import opened EntityZoo
  import opened RoutePriority
  import opened FlowRules
  import opened FlowSync

  // ----- Legs and groups -----

  /** A static route, its next hop and the tunnel port towards the next router
      (lroute_array joined with next_hop_ovsport). */
  datatype Leg = Leg(route: Atom, hop: Hop, port: Atom)

  datatype Group = Group(lr: Uuid, ip: nat, prefix: nat)

  function LegAtoms(l: Leg): (s: seq<Atom>)
    ensures |s| >= 8 && s[0] == l.route
  {
    [l.route] + HopAtoms(l.hop) + [l.port]
  }

  predicate LegOk(l: Leg, sys: Uuid) {
    l.route.props.Lsr? && WellTyped(l.route.props) && l.route.props.outport == l.hop.lrp.props.uuid &&
    NextHopOk(l.hop, sys) && l.hop.via.None? &&
    l.port.props.OvsPort? && l.port.props.remote && l.port.props.ofport > 0 &&
    l.hop.next.props.lrChassis == Some(l.port.props.iface)
  }

  function GroupOf(route: Props): Group
    requires route.Lsr?
  {
    Group(route.lr, route.ip, route.prefix)
  }

  predicate SameGroup(p: Props, q: Props) {
    p.Lsr? && q.Lsr? && GroupOf(p) == GroupOf(q)
  }

  /** Two routes of one group that leave through different ports. */
  predicate Mates(p: Props, q: Props) {
    SameGroup(p, q) && p.uuid != q.uuid && p.nextHop == q.nextHop && p.outport != q.outport
  }

  predicate PairOk(a: Leg, b: Leg, g: Group, sys: Uuid) {
    LegOk(a, sys) && LegOk(b, sys) && Mates(a.route.props, b.route.props) && GroupOf(a.route.props) == g
  }

  /** The row of a leg: the route's id orders, the tunnel port is listed. */
  predicate Contributes(l: Leg, u: Uuid, port: nat) {
    l.route.props.uuid == u && l.port.props.OvsPort? && l.port.props.ofport == port
  }

  function PairAtoms(a: Leg, b: Leg): (s: seq<Atom>)
    ensures |s| < 100
  {
    LegAtoms(a) + LegAtoms(b)
  }

  // ----- The aggregates of a round -----

  ghost predicate PairRow(facts: set<Fact>, sys: Uuid, g: Group, a: Leg, b: Leg, states: seq<int>) {
    PairOk(a, b, g, sys) && Stated(facts, PairAtoms(a, b), states) && states[0] + states[|LegAtoms(a)|] >= 0
  }

  /** ecmp_aggregate_outport, 'adding'. */
  ghost predicate AddingRow(facts: set<Fact>, sys: Uuid, g: Group, u: Uuid, port: nat) {
    exists a, b, states :: PairRow(facts, sys, g, a, b, states) && Sum(states) > 0 && Contributes(a, u, port)
  }

  ghost predicate DeletingRow(facts: set<Fact>, sys: Uuid, g: Group, a: Leg, other: Atom, states: seq<int>) {
    LegOk(a, sys) && Mates(a.route.props, other.props) && GroupOf(a.route.props) == g &&
    Stated(facts, LegAtoms(a) + [other], states) && Sum(states) < 0
  }

  /** ecmp_aggregate_outport, 'deleting': the partner needs no live next hop. */
  ghost predicate Deleting(facts: set<Fact>, sys: Uuid, g: Group) {
    exists a, other, states :: DeletingRow(facts, sys, g, a, other, states)
  }

  /** ecmp_aggregate_outport_readd. */
  ghost predicate ReaddingRow(facts: set<Fact>, sys: Uuid, g: Group, u: Uuid, port: nat) {
    Deleting(facts, sys, g) &&
    exists a, b, states :: PairRow(facts, sys, g, a, b, states) && Sum(states) >= 0 && Contributes(a, u, port)
  }

  datatype Kind = AddKind | ReaddKind

  type Rows = iset<(Uuid, nat)>

  ghost function RowsOf(facts: set<Fact>, sys: Uuid, kind: Kind, g: Group): Rows {
    iset u: Uuid, port: nat |
      if kind.AddKind? then AddingRow(facts, sys, g, u, port) else ReaddingRow(facts, sys, g, u, port) :: (u, port)
  }

  /** The order of strings. */
  predicate Before(a: string, b: string) {
    b != "" && (a == "" || a[0] < b[0] || (a[0] == b[0] && Before(a[1..], b[1..])))
  }

  predicate FirstDifference(a: string, b: string, i: nat) {
    i <= |a| && i < |b| && a[..i] == b[..i] && (i == |a| || a[i] < b[i])
  }

  /** The order is the lexicographic one. */
  lemma {:induction false} BeforeIff(a: string, b: string)
    ensures Before(a, b) <==> exists i: nat :: FirstDifference(a, b, i)
  {
    if a != "" && b != "" {
      BeforeIff(a[1..], b[1..]);
      if a[0] == b[0] {
        forall i: nat ensures FirstDifference(a[1..], b[1..], i) ==> FirstDifference(a, b, i + 1) {
          LongerByOne(a, b, i);
        }
        forall i: nat | i > 0 ensures FirstDifference(a, b, i) ==> FirstDifference(a[1..], b[1..], i - 1) {
          LongerByOne(a, b, i - 1);
        }
      } else {
        assert a[0] < b[0] ==> FirstDifference(a, b, 0);
        assert forall i: nat :: FirstDifference(a, b, i) && i > 0 ==> a[..i][0] == b[..i][0];
      }
    } else {
      assert b != "" ==> FirstDifference(a, b, 0);
    }
  }

  lemma LongerByOne(a: string, b: string, i: nat)
    requires a != "" && b != "" && a[0] == b[0]
    ensures FirstDifference(a[1..], b[1..], i) <==> FirstDifference(a, b, i + 1)
  {
    if i + 1 <= |a| && i + 1 < |b| {
      assert a[..i + 1] == [a[0]] + a[1..][..i] && b[..i + 1] == [b[0]] + b[1..][..i];
    }
  }

  /** tuple_(Y, order_by=Z): the ports in the order of the route ids. */
  ghost predicate ListedBy(ports: seq<nat>, ids: seq<Uuid>, rows: Rows) {
    |ids| == |ports| && (forall i, j :: 0 <= i < j < |ids| ==> Before(ids[i], ids[j])) &&
    rows == iset i | 0 <= i < |ids| :: (ids[i], ports[i])
  }

  ghost predicate Lists(ports: seq<nat>, rows: Rows) {
    exists ids :: ListedBy(ports, ids, rows)
  }

  /** The flow of a group on its router (routers and prefixes are what the rows say). */
  function BundleKey(lr: Atom, g: Group): FlowKey {
    FlowKey(TABLE_IP_ROUTE, CalPriority(g.prefix, LEVEL_ECMP, 0), if lr.props.Lr? then lr.props.lrId else 0,
            IpDst(if g.prefix <= 32 then Net(g.ip, g.prefix) else 0, g.prefix))
  }

  function RouterAtoms(lr: Atom, pin: Option<Atom>): seq<Atom> {
    [lr] + OptAtoms(pin)
  }

  /** lr_array for the router of group g. */
  ghost predicate RouterRow(facts: set<Fact>, sys: Uuid, g: Group, lr: Atom, pin: Option<Atom>, states: seq<int>) {
    RouterOk(lr, pin, sys) && Stated(facts, RouterAtoms(lr, pin), states) && lr.props.uuid == g.lr && g.prefix <= 32
  }

  ghost predicate BundleRow(
    facts: set<Fact>, sys: Uuid, g: Group, lr: Atom, pin: Option<Atom>, states: seq<int>, kind: Kind, t: LFlow)
  {
    RouterRow(facts, sys, g, lr, pin, states) && t.key == BundleKey(lr, g) && t.state == Sum(states) + 1 &&
    RowsOf(facts, sys, kind, g) != iset{} && t.action.BundleLoad? && Lists(t.action.ports, RowsOf(facts, sys, kind, g))
  }

  ghost predicate DropRow(
    facts: set<Fact>, sys: Uuid, g: Group, lr: Atom, pin: Option<Atom>, states: seq<int>, t: LFlow)
  {
    RouterRow(facts, sys, g, lr, pin, states) && t.key == BundleKey(lr, g) &&
    t.state == Sum(states) - 100 && Deleting(facts, sys, g)
  }

  /** The rows of ecmp_static_route: each comes from a group and its router, and
      each group that has rows yields one per joined router state. */
  ghost predicate RowsAreSound(lflows: seq<LFlow>, facts: set<Fact>, sys: Uuid) {
    forall t :: t in lflows ==>
      t.state != 0 &&
      ((exists g, lr, pin, states, kind :: BundleRow(facts, sys, g, lr, pin, states, kind, t)) ||
       (exists g, lr, pin, states :: DropRow(facts, sys, g, lr, pin, states, t)))
  }

  ghost predicate YieldsBundles(lflows: seq<LFlow>, facts: set<Fact>, sys: Uuid) {
    forall g, lr, pin, states, kind ::
      (RouterRow(facts, sys, g, lr, pin, states) && RowsOf(facts, sys, kind, g) != iset{} && Sum(states) + 1 != 0) ==>
      exists t :: t in lflows && BundleRow(facts, sys, g, lr, pin, states, kind, t)
  }

  ghost predicate YieldsDrops(lflows: seq<LFlow>, facts: set<Fact>, sys: Uuid) {
    forall g, lr, pin, states ::
      (RouterRow(facts, sys, g, lr, pin, states) && Deleting(facts, sys, g) && Sum(states) - 100 != 0) ==>
      exists t :: t in lflows && DropRow(facts, sys, g, lr, pin, states, t)
  }

  ghost predicate EnumeratesEcmp(lflows: seq<LFlow>, facts: set<Fact>, sys: Uuid) {
    RowsAreSound(lflows, facts, sys) && YieldsBundles(lflows, facts, sys) && YieldsDrops(lflows, facts, sys)
  }

  // ----- What the bundles should be -----

  /** A live route with a live partner through another port. */
  ghost predicate LivePair(s: set<Atom>, sys: Uuid, g: Group, a: Leg, b: Leg) {
    PairOk(a, b, g, sys) && AllIn(LegAtoms(a), s) && AllIn(LegAtoms(b), s)
  }

  ghost predicate LiveRow(s: set<Atom>, sys: Uuid, g: Group, u: Uuid, port: nat) {
    exists a, b :: LivePair(s, sys, g, a, b) && Contributes(a, u, port)
  }

  ghost function LiveRows(s: set<Atom>, sys: Uuid, g: Group): Rows {
    iset u: Uuid, port: nat | LiveRow(s, sys, g, u, port) :: (u, port)
  }

  ghost predicate HasBundle(s: set<Atom>, sys: Uuid, g: Group, lr: Atom, pin: Option<Atom>) {
    RouterOk(lr, pin, sys) && AllIn(RouterAtoms(lr, pin), s) && lr.props.uuid == g.lr && g.prefix <= 32 &&
    LiveRows(s, sys, g) != iset{}
  }

  ghost predicate IsBundle(s: set<Atom>, sys: Uuid, g: Group, lr: Atom, pin: Option<Atom>, k: FlowKey, act: Action) {
    HasBundle(s, sys, g, lr, pin) && k == BundleKey(lr, g) &&
    act.BundleLoad? && Lists(act.ports, LiveRows(s, sys, g))
  }

  /** Every group with two live legs has its flow, listing exactly the ports of its
      live paired routes in route order; there is no other bundle flow. */
  ghost predicate FullBundles(table: FlowTable, s: set<Atom>, sys: Uuid) {
    (forall k :: k in table ==> exists g, lr, pin :: IsBundle(s, sys, g, lr, pin, k, table[k])) &&
    (forall g, lr, pin :: HasBundle(s, sys, g, lr, pin) ==> BundleKey(lr, g) in table)
  }

  /** Routes are stored with network addresses; live routes of one group share a next hop. */
  ghost predicate RoutesAssumed(v: Delta) {
    (forall r :: r in v.no + v.add + v.del && r.props.Lsr? && WellTyped(r.props) ==>
       r.props.ip == Net(r.props.ip, r.props.prefix)) &&
    (forall r, q :: r in v.no + v.add && q in v.no + v.add && SameGroup(r.props, q.props) ==>
       r.props.nextHop == q.props.nextHop)
  }

  // ----- Aggregates in terms of settled, new and deleted facts -----

  lemma AllInAppend(a: seq<Atom>, b: seq<Atom>, s: set<Atom>)
    ensures AllIn(a + b, s) <==> AllIn(a, s) && AllIn(b, s)
  {
    assert forall i :: 0 <= i < |a| ==> (a + b)[i] == a[i];
    assert forall i :: 0 <= i < |b| ==> (a + b)[|a| + i] == b[i];
  }

  lemma AllInLarger(a: seq<Atom>, s: set<Atom>, t: set<Atom>)
    requires AllIn(a, s) && s <= t
    ensures AllIn(a, t)
  {
  }

  /** A positive sum: everything is live and something is new. */
  lemma AddingIsNew(facts: set<Fact>, v: Delta, sys: Uuid, g: Group, a: Leg, b: Leg, states: seq<int>)
    requires Splits(facts, v) && PairRow(facts, sys, g, a, b, states)
    ensures Sum(states) >= 0 ==> LivePair(v.no + v.add, sys, g, a, b)
  {
    StatedIn(facts, v, PairAtoms(a, b), states);
    SumDecodes(states);
    AllInAppend(LegAtoms(a), LegAtoms(b), v.no + v.add);
    hide PairOk, LegAtoms, WithState, AllIn;
  }

  lemma PairStates(facts: set<Fact>, v: Delta, sys: Uuid, g: Group, a: Leg, b: Leg) returns (states: seq<int>)
    requires Splits(facts, v) && LivePair(v.no + v.add, sys, g, a, b)
    ensures PairRow(facts, sys, g, a, b, states) && Sum(states) >= 0
    ensures Meets(PairAtoms(a, b), v.add) ==> Sum(states) > 0
  {
    AllInAppend(LegAtoms(a), LegAtoms(b), v.no + v.add);
    assert v.no + v.add == v.add + v.no;
    hide PairOk, LegAtoms, WithState, AllIn, Meets;
    states := StatesFor(facts, v.add, STATE_ADD, v.no, STATE_NO, PairAtoms(a, b));
    assert STATE_DEL !in states && States(states);
    SumDecodes(states);
  }

  lemma NewPairIsAdding(facts: set<Fact>, v: Delta, sys: Uuid, g: Group, a: Leg, b: Leg)
    requires Splits(facts, v) && LivePair(v.no + v.add, sys, g, a, b) && Meets(PairAtoms(a, b), v.add)
    ensures forall u, port :: Contributes(a, u, port) ==> AddingRow(facts, sys, g, u, port)
  {
    hide LivePair, Splits, Meets;
    var states := PairStates(facts, v, sys, g, a, b);
  }

  lemma AddingPairIsNew(facts: set<Fact>, v: Delta, sys: Uuid, g: Group, a: Leg, b: Leg, states: seq<int>)
    requires Splits(facts, v) && PairRow(facts, sys, g, a, b, states) && Sum(states) > 0
    ensures LivePair(v.no + v.add, sys, g, a, b) && Meets(PairAtoms(a, b), v.add)
  {
    AddingIsNew(facts, v, sys, g, a, b, states);
    StatedIn(facts, v, PairAtoms(a, b), states);
    SumDecodes(states);
    var i :| 0 <= i < |states| && states[i] == STATE_ADD;
    var f := FactFor(PairAtoms(a, b)[i], STATE_ADD);
    assert f in facts && Atom(f.props, f.ilk) == PairAtoms(a, b)[i];
    hide PairOk, LegAtoms, AllIn, Sum, LivePair;
  }

  // ----- One leg per route -----

  predicate LegOver(l: Leg, s: set<Atom>) {
    l.route in s && HopOver(l.hop, s) && l.port in s
  }

  lemma LegParts(l: Leg, s: set<Atom>)
    requires AllIn(LegAtoms(l), s)
    ensures LegOver(l, s)
  {
    var atoms := LegAtoms(l);
    HopParts(l.hop);
    forall a | a in HopAtoms(l.hop) ensures a in s {
      var i :| 0 <= i < |HopAtoms(l.hop)| && HopAtoms(l.hop)[i] == a;
      assert atoms[i + 1] == a;
    }
    assert atoms[0] == l.route && atoms[|atoms| - 1] == l.port;
    hide HopAtoms;
  }

  lemma LegJoins(l: Leg, sys: Uuid)
    requires LegOk(l, sys)
    ensures l.route.props.Lsr? && l.hop.lrp.props.Lrp? && l.hop.lrp.props.uuid == l.route.props.outport
    ensures NextHopOk(l.hop, sys) && l.hop.via.None? && l.hop.next.props.Lr?
    ensures l.port.props.OvsPort? && l.port.props.remote && l.hop.next.props.lrChassis == Some(l.port.props.iface)
  {
    hide RouterOk, WellTyped;
  }

  lemma SameHop(s: set<Atom>, sys: Uuid, r: Atom, h: Hop, g: Hop)
    requires RoutedBy(r, h, s) && Pinned(s, s) && Config(s, sys) && NextHopOk(h, sys) && NextHopOk(g, sys) &&
      HopOver(h, s) && HopOver(g, s)
    requires h.lrp.props.Lrp? && g.lrp.props.Lrp? && h.lrp.props.uuid == g.lrp.props.uuid && h.via.None? && g.via.None?
    ensures h == g
  {
    hide Pinned, Config, NextHopOk;
    SameId(s, s, h.lrp, g.lrp);
    NextHopDetermined(s, s, sys, r, h, g);
  }

  lemma LegDetermined(s: set<Atom>, sys: Uuid, a: Leg, b: Leg)
    requires Pinned(s, s) && Config(s, sys) && LegOk(a, sys) && LegOk(b, sys)
    requires AllIn(LegAtoms(a), s) && AllIn(LegAtoms(b), s)
    ensures a.route == b.route ==> a == b
  {
    hide Pinned, Config, AllIn, LegAtoms, NextHopOk, LegOk;
    if a.route == b.route {
      LegParts(a, s);
      LegParts(b, s);
      LegJoins(a, sys);
      LegJoins(b, sys);
      hide HopOver;
      SameHop(s, sys, a.route, a.hop, b.hop);
      SamePort(s, s, a.port, b.port);
    }
  }

  /** Two different live routes of one group leave through different ports: they
      share the next hop, so the same port would be the same unique key. */
  lemma LiveMates(s: set<Atom>, a: Atom, b: Atom)
    requires Pinned(s, s) && a in s && b in s && a != b && SameGroup(a.props, b.props)
    requires a.props.nextHop == b.props.nextHop
    ensures Mates(a.props, b.props)
  {
    if a.props.uuid == b.props.uuid { SameId(s, s, a, b); }
    if a.props.outport == b.props.outport {
      SameUniqueKey(s, s, a, b, UniqueKeys(a.props)[0]);
    }
  }

  lemma MeetsAppend(a: seq<Atom>, b: seq<Atom>, s: set<Atom>)
    ensures Meets(a + b, s) <==> Meets(a, s) || Meets(b, s)
  {
    assert forall i :: 0 <= i < |a| ==> (a + b)[i] == a[i];
    assert forall i :: 0 <= i < |b| ==> (a + b)[|a| + i] == b[i];
  }

  lemma LegsPair(s: set<Atom>, sys: Uuid, g: Group, l: Leg, x: Leg)
    requires Pinned(s, s) && Config(s, sys) && LegOk(l, sys) && LegOk(x, sys) && l != x
    requires AllIn(LegAtoms(l), s) && AllIn(LegAtoms(x), s)
    requires GroupOf(l.route.props) == g && GroupOf(x.route.props) == g &&
      l.route.props.nextHop == x.route.props.nextHop
    ensures LivePair(s, sys, g, l, x)
  {
    assert l.route in s && x.route in s by {
      assert LegAtoms(l)[0] == l.route && LegAtoms(x)[0] == x.route;
    }
    assert l.route.props.Lsr? && x.route.props.Lsr?;
    hide Pinned, Config, AllIn, LegAtoms, LegOk;
    LegDetermined(s, sys, l, x);
    LiveMates(s, l.route, x.route);
  }

  lemma LiveLeg(v: Delta, sys: Uuid, g: Group, l: Leg, m: Leg, s: set<Atom>)
    requires LivePair(s, sys, g, l, m)
    ensures LegOk(l, sys) && LegOk(m, sys) && AllIn(LegAtoms(l), s) && AllIn(LegAtoms(m), s)
    ensures l.route.props.Lsr? && GroupOf(l.route.props) == g && l.route in s
    ensures m.route.props.Lsr? && GroupOf(m.route.props) == g && m.route in s
  {
    assert LegAtoms(l)[0] == l.route && LegAtoms(m)[0] == m.route;
    hide NextHopOk, WellTyped;
  }

  /** One new pair brings back every row of its group: each live leg pairs with the new one. */
  lemma OldRowIsAdding(facts: set<Fact>, v: Delta, sys: Uuid, g: Group, l: Leg, m: Leg, a: Leg, b: Leg)
    requires Splits(facts, v) && Sound(v, sys) && RoutesAssumed(v)
    requires LivePair(v.no + v.add, sys, g, l, m)
    requires LivePair(v.no + v.add, sys, g, a, b) && Meets(PairAtoms(a, b), v.add)
    ensures forall u, port :: Contributes(l, u, port) ==> AddingRow(facts, sys, g, u, port)
  {
    var s := v.no + v.add;
    hide Splits, Pinned, Config, Meets, LegAtoms, AllIn, LegOk, AddingRow, LivePair;
    LiveLeg(v, sys, g, l, m, s);
    LiveLeg(v, sys, g, a, b, s);
    MeetsAppend(LegAtoms(l), LegAtoms(m), v.add);
    MeetsAppend(LegAtoms(a), LegAtoms(b), v.add);
    if Meets(LegAtoms(l), v.add) {
      NewPairIsAdding(facts, v, sys, g, l, m);
    } else {
      var x := if Meets(LegAtoms(a), v.add) then a else b;
      assert SameGroup(l.route.props, x.route.props);
      LegsPair(s, sys, g, l, x);
      MeetsAppend(LegAtoms(l), LegAtoms(x), v.add);
      NewPairIsAdding(facts, v, sys, g, l, x);
    }
  }

  lemma AddingRowsAreAll(facts: set<Fact>, v: Delta, sys: Uuid, g: Group)
    requires Splits(facts, v) && Sound(v, sys) && RoutesAssumed(v) && RowsOf(facts, sys, AddKind, g) != iset{}
    ensures RowsOf(facts, sys, AddKind, g) == LiveRows(v.no + v.add, sys, g)
  {
    hide Splits, Sound, RoutesAssumed, PairRow, LivePair, Contributes;
    var rows, live := RowsOf(facts, sys, AddKind, g), LiveRows(v.no + v.add, sys, g);
    var u0, p0 :| (u0, p0) in rows;
    assert AddingRow(facts, sys, g, u0, p0);
    var a, b, states :| PairRow(facts, sys, g, a, b, states) && Sum(states) > 0 && Contributes(a, u0, p0);
    AddingPairIsNew(facts, v, sys, g, a, b, states);
    forall u, p | LiveRow(v.no + v.add, sys, g, u, p) ensures AddingRow(facts, sys, g, u, p) {
      var l, m :| LivePair(v.no + v.add, sys, g, l, m) && Contributes(l, u, p);
      OldRowIsAdding(facts, v, sys, g, l, m, a, b);
    }
    forall u, p | AddingRow(facts, sys, g, u, p) ensures LiveRow(v.no + v.add, sys, g, u, p) {
      var l, m, ss :| PairRow(facts, sys, g, l, m, ss) && Sum(ss) > 0 && Contributes(l, u, p);
      AddingPairIsNew(facts, v, sys, g, l, m, ss);
    }
  }

  lemma ReaddingRowsAreAll(facts: set<Fact>, v: Delta, sys: Uuid, g: Group)
    requires Splits(facts, v) && Deleting(facts, sys, g)
    ensures RowsOf(facts, sys, ReaddKind, g) == LiveRows(v.no + v.add, sys, g)
  {
    hide Splits, Deleting, PairRow, LivePair, Contributes;
    forall u, p | LiveRow(v.no + v.add, sys, g, u, p) ensures ReaddingRow(facts, sys, g, u, p) {
      var l, m :| LivePair(v.no + v.add, sys, g, l, m) && Contributes(l, u, p);
      var states := PairStates(facts, v, sys, g, l, m);
    }
    forall u, p | ReaddingRow(facts, sys, g, u, p) ensures LiveRow(v.no + v.add, sys, g, u, p) {
      var l, m, ss :| PairRow(facts, sys, g, l, m, ss) && Sum(ss) >= 0 && Contributes(l, u, p);
      AddingIsNew(facts, v, sys, g, l, m, ss);
    }
  }

  // ----- Deletions -----

  lemma DeletingFor(facts: set<Fact>, v: Delta, sys: Uuid, g: Group, a: Leg, other: Atom)
    requires Splits(facts, v) && LegOk(a, sys) && Mates(a.route.props, other.props) && GroupOf(a.route.props) == g
    requires AllIn(LegAtoms(a) + [other], v.no + v.del) && Meets(LegAtoms(a) + [other], v.del)
    ensures Deleting(facts, sys, g)
  {
    assert v.no + v.del == v.del + v.no;
    hide LegOk, LegAtoms, WithState, AllIn, Meets;
    var states := StatesFor(facts, v.del, STATE_DEL, v.no, STATE_NO, LegAtoms(a) + [other]);
    assert STATE_ADD !in states && States(states);
    SumDecodes(states);
    assert DeletingRow(facts, sys, g, a, other, states);
  }

  lemma NotMeetingIsIn(atoms: seq<Atom>, v: Delta)
    requires AllIn(atoms, v.no + v.del) && !Meets(atoms, v.del)
    ensures AllIn(atoms, v.no)
  {
  }

  /** When nothing of a group is deleted, its pairs are settled. */
  lemma UndeletedLeg(facts: set<Fact>, v: Delta, sys: Uuid, g: Group, a: Leg, b: Leg)
    requires Splits(facts, v) && !Deleting(facts, sys, g) && LivePair(v.no + v.del, sys, g, a, b)
    ensures AllIn(LegAtoms(a), v.no)
  {
    var atoms := LegAtoms(a) + [b.route];
    assert LegAtoms(b)[0] == b.route;
    AllInAppend(LegAtoms(a), [b.route], v.no + v.del);
    MeetsAppend(LegAtoms(a), [b.route], v.del);
    assert !Meets(atoms, v.del) by {
      hide Deleting, AllIn, Meets, LegAtoms, LegOk, Splits;
      if Meets(atoms, v.del) { DeletingFor(facts, v, sys, g, a, b.route); }
    }
    hide Splits, Deleting, LegOk, LegAtoms, AllIn, Meets;
    NotMeetingIsIn(LegAtoms(a), v);
  }

  lemma MatesSwap(a: Leg, b: Leg, g: Group, s: set<Atom>, sys: Uuid)
    requires LivePair(s, sys, g, a, b)
    ensures LivePair(s, sys, g, b, a)
  {
    hide LegOk, AllIn, LegAtoms;
  }

  lemma UndeletedPair(facts: set<Fact>, v: Delta, sys: Uuid, g: Group, a: Leg, b: Leg)
    requires Splits(facts, v) && !Deleting(facts, sys, g) && LivePair(v.no + v.del, sys, g, a, b)
    ensures LivePair(v.no, sys, g, a, b)
  {
    hide Splits, Deleting;
    MatesSwap(a, b, g, v.no + v.del, sys);
    UndeletedLeg(facts, v, sys, g, a, b);
    UndeletedLeg(facts, v, sys, g, b, a);
    hide LegOk, AllIn, LegAtoms;
  }

  // ----- The router of a group -----

  lemma RouterStates(facts: set<Fact>, v: Delta, sys: Uuid, g: Group, lr: Atom, pin: Option<Atom>)
    returns (states: seq<int>)
    requires Splits(facts, v) && RouterOk(lr, pin, sys) && lr.props.uuid == g.lr && g.prefix <= 32
    requires AllIn(RouterAtoms(lr, pin), v.no + v.add)
    ensures RouterRow(facts, sys, g, lr, pin, states) && Sum(states) + 1 > 0
  {
    hide RouterOk, AllIn, WithState;
    states := StatesFor(facts, v.no, STATE_NO, v.add, STATE_ADD, RouterAtoms(lr, pin));
    assert STATE_DEL !in states && States(states);
    SumDecodes(states);
  }

  lemma RouterGoneStates(facts: set<Fact>, v: Delta, sys: Uuid, g: Group, lr: Atom, pin: Option<Atom>)
    returns (states: seq<int>)
    requires Splits(facts, v) && RouterOk(lr, pin, sys) && lr.props.uuid == g.lr && g.prefix <= 32
    requires AllIn(RouterAtoms(lr, pin), v.no + v.del)
    ensures RouterRow(facts, sys, g, lr, pin, states) && IsDeletion(Sum(states) - 100)
  {
    hide RouterOk, AllIn, WithState;
    states := StatesFor(facts, v.no, STATE_NO, v.del, STATE_DEL, RouterAtoms(lr, pin));
    assert STATE_ADD !in states && States(states);
    SumByCounts(states);
    CountedIff(states, STATE_ADD);
  }

  lemma BundleRouterLive(facts: set<Fact>, v: Delta, sys: Uuid, g: Group, lr: Atom, pin: Option<Atom>, states: seq<int>)
    requires Splits(facts, v) && RouterRow(facts, sys, g, lr, pin, states) && Sum(states) + 1 > 0
    ensures AllIn(RouterAtoms(lr, pin), v.no + v.add)
  {
    StatedIn(facts, v, RouterAtoms(lr, pin), states);
    SumDecodes(states);
    hide WithState, RouterOk, Stated;
  }

  lemma DropRouterGone(facts: set<Fact>, v: Delta, sys: Uuid, g: Group, lr: Atom, pin: Option<Atom>, states: seq<int>)
    requires Splits(facts, v) && RouterRow(facts, sys, g, lr, pin, states) && (100 - Sum(states)) % 100 == 0
    ensures AllIn(RouterAtoms(lr, pin), v.no + v.del)
  {
    StatedIn(facts, v, RouterAtoms(lr, pin), states);
    SumByCounts(states);
    CountedIff(states, STATE_ADD);
    var n, d := Count(states, STATE_ADD), Count(states, STATE_DEL);
    assert |states| <= 2;
    hide WithState, RouterOk, Stated, Sum, Count;
    assert 100 - Sum(states) == 100 * (1 + d) - n;
    SmallRemainder(n, 1 + d);
  }

  lemma SmallRemainder(n: nat, d: nat)
    requires n <= 2 && (100 * d - n) % 100 == 0
    ensures n == 0
  {
    assert 100 * d - n == 100 * (d - 1) + (100 - n);
  }

  lemma LegRouter(l: Leg, sys: Uuid)
    requires LegOk(l, sys)
    ensures l.route.props.Lsr? && l.hop.lrp.props.Lrp? && l.hop.lrp.props.uuid == l.route.props.outport
    ensures l.hop.lr.props.Lr? && RouterOk(l.hop.lr, l.hop.pin, sys) && l.hop.lr.props.uuid == l.hop.lrp.props.lr
  {
    hide WellTyped;
  }

  lemma OutportOwn(X: set<Atom>, sys: Uuid, r: Atom, p: Atom)
    requires Config(X, sys) && r in X && p in X && r.props.Lsr? && p.props.Lrp? && p.props.uuid == r.props.outport
    ensures p.props.lr == r.props.lr
  {
  }

  lemma RouterIn(lr: Atom, pin: Option<Atom>, s: set<Atom>)
    ensures AllIn(RouterAtoms(lr, pin), s) <==> lr in s && (pin.Some? ==> pin.value in s)
  {
    var atoms := RouterAtoms(lr, pin);
    assert atoms[0] == lr && (pin.Some? ==> atoms[1] == pin.value);
  }

  lemma LegRouterIn(a: Leg, s: set<Atom>)
    requires AllIn(LegAtoms(a), s)
    ensures a.route in s && a.hop.lrp in s && a.hop.lr in s && (a.hop.pin.Some? ==> a.hop.pin.value in s)
  {
    LegParts(a, s);
    hide LegAtoms;
  }

  lemma SameRouterAndPin(
    N: set<Atom>, X: set<Atom>, sys: Uuid, lr: Atom, pin: Option<Atom>, lr': Atom, pin': Option<Atom>)
    requires Pinned(N, X) && RouterOk(lr, pin, sys) && RouterOk(lr', pin', sys) && lr.props.uuid == lr'.props.uuid
    requires lr in N && (pin.Some? ==> pin.value in N) && lr' in X && (pin'.Some? ==> pin'.value in X)
    ensures lr == lr' && pin == pin'
  {
    assert lr.props.Lr? && lr'.props.Lr?;
    hide Pinned, RouterOk;
    SameId(N, X, lr, lr');
    SamePins(N, X, sys, lr, pin, pin');
  }

  /** A live leg pins its router and the router's chassis. */
  lemma RouterOfLeg(N: set<Atom>, X: set<Atom>, sys: Uuid, a: Leg, lr: Atom, pin: Option<Atom>)
    requires Pinned(N, X) && N <= X && Config(X, sys) && LegOk(a, sys) && AllIn(LegAtoms(a), N)
    requires RouterOk(lr, pin, sys) && AllIn(RouterAtoms(lr, pin), X)
    requires a.route.props.Lsr? && lr.props.uuid == a.route.props.lr
    ensures lr == a.hop.lr && pin == a.hop.pin && AllIn(RouterAtoms(lr, pin), N)
  {
    hide Pinned, Config, LegAtoms, LegOk, RouterOk, AllIn, RouterAtoms;
    LegRouterIn(a, N);
    LegRouter(a, sys);
    RouterIn(lr, pin, X);
    RouterIn(lr, pin, N);
    OutportOwn(X, sys, a.route, a.hop.lrp);
    SameRouterAndPin(N, X, sys, a.hop.lr, a.hop.pin, lr, pin);
  }

  // ----- A round keeps the bundles exact -----

  lemma DropRowDrops(
    lflows: seq<LFlow>, facts: set<Fact>, sys: Uuid, g: Group, lr: Atom, pin: Option<Atom>, states: seq<int>, t: LFlow)
    requires t in lflows && DropRow(facts, sys, g, lr, pin, states, t)
    requires IsDeletion(Sum(states) - 100)
    ensures BundleKey(lr, g) in FlowsToDel(lflows)
  {
    hide RouterOk, Deleting, BundleKey, FlowsToDel, Sum, Stated;
    assert -t.state == 100 - Sum(states);
    DeletedIff(lflows, t.key);
  }

  /** A group with a deletion drops its flow, if its router is not new. */
  lemma DeletingDrops(
    lflows: seq<LFlow>, facts: set<Fact>, v: Delta, sys: Uuid, g: Group, lr: Atom, pin: Option<Atom>)
    requires Splits(facts, v) && EnumeratesEcmp(lflows, facts, sys) && Deleting(facts, sys, g)
    requires RouterOk(lr, pin, sys) && AllIn(RouterAtoms(lr, pin), v.no + v.del) && lr.props.uuid == g.lr &&
      g.prefix <= 32
    ensures BundleKey(lr, g) in FlowsToDel(lflows)
  {
    assert lr.props.Lr?;
    hide Splits, AllIn, Deleting, BundleKey, FlowsToDel, RowsAreSound, YieldsBundles, RouterRow, RouterOk,
      RouterAtoms, Sum;
    var states := RouterGoneStates(facts, v, sys, g, lr, pin);
    var t :| t in lflows && DropRow(facts, sys, g, lr, pin, states, t);
    DropRowDrops(lflows, facts, sys, g, lr, pin, states, t);
  }

  /** A group with rows adds its flow, if its router is live. */
  lemma RowsAdd(
    lflows: seq<LFlow>, facts: set<Fact>, v: Delta, sys: Uuid, g: Group, lr: Atom, pin: Option<Atom>, kind: Kind)
    requires Splits(facts, v) && EnumeratesEcmp(lflows, facts, sys) && RowsOf(facts, sys, kind, g) != iset{}
    requires RouterOk(lr, pin, sys) && AllIn(RouterAtoms(lr, pin), v.no + v.add) && lr.props.uuid == g.lr &&
      g.prefix <= 32
    ensures AddsKey(FlowsToAdd(lflows), BundleKey(lr, g))
  {
    hide Splits, AllIn, BundleKey, RowsOf, Lists, RowsAreSound, YieldsDrops, FlowsToAdd;
    var states := RouterStates(facts, v, sys, g, lr, pin);
    var t :| t in lflows && BundleRow(facts, sys, g, lr, pin, states, kind, t);
    AddedIff(lflows, OvsFlow(t.key, t.action));
    hide RouterRow;
  }

  /** Whatever is added is a bundle of the live facts. */
  lemma AddedIsBundle(lflows: seq<LFlow>, facts: set<Fact>, v: Delta, sys: Uuid, k: FlowKey, act: Action)
    requires Splits(facts, v) && Sound(v, sys) && RoutesAssumed(v) && EnumeratesEcmp(lflows, facts, sys)
    requires OvsFlow(k, act) in FlowsToAdd(lflows)
    ensures exists g, lr, pin :: IsBundle(v.no + v.add, sys, g, lr, pin, k, act)
  {
    AddedIff(lflows, OvsFlow(k, act));
    hide FlowsToAdd, Splits, Sound, RoutesAssumed, BundleKey, RowsOf, LiveRows, Lists, AllIn;
    var t :| t in lflows && t.state > 0 && OvsFlow(k, act) == OvsFlow(t.key, t.action);
    DropIsNegative(lflows, facts, v, sys, t);
    var g, lr, pin, states, kind :| BundleRow(facts, sys, g, lr, pin, states, kind, t);
    BundleRouterLive(facts, v, sys, g, lr, pin, states);
    RowsAreLive(facts, v, sys, g, kind);
    assert IsBundle(v.no + v.add, sys, g, lr, pin, k, act);
  }

  lemma DropIsNegative(lflows: seq<LFlow>, facts: set<Fact>, v: Delta, sys: Uuid, t: LFlow)
    requires Splits(facts, v) && EnumeratesEcmp(lflows, facts, sys) && t in lflows && t.state > 0
    ensures exists g, lr, pin, states, kind :: BundleRow(facts, sys, g, lr, pin, states, kind, t)
  {
    forall g, lr, pin, states | RouterRow(facts, sys, g, lr, pin, states) ensures Sum(states) <= 2 {
      StatedIn(facts, v, RouterAtoms(lr, pin), states);
      SumByCounts(states);
      hide Splits, Stated, Sum, Count, RouterOk;
    }
    hide RouterRow, BundleRow, Deleting, BundleKey;
  }

  lemma RowsAreLive(facts: set<Fact>, v: Delta, sys: Uuid, g: Group, kind: Kind)
    requires Splits(facts, v) && Sound(v, sys) && RoutesAssumed(v) && RowsOf(facts, sys, kind, g) != iset{}
    ensures RowsOf(facts, sys, kind, g) == LiveRows(v.no + v.add, sys, g)
  {
    hide Splits, Sound, RoutesAssumed, LiveRows, AddingRow, Deleting;
    if kind.AddKind? {
      AddingRowsAreAll(facts, v, sys, g);
    } else {
      var u, p :| (u, p) in RowsOf(facts, sys, kind, g);
      assert ReaddingRow(facts, sys, g, u, p);
      ReaddingRowsAreAll(facts, v, sys, g);
    }
  }

  /** In a group without new and deleted facts nothing changed. */
  lemma SettledRows(facts: set<Fact>, v: Delta, sys: Uuid, g: Group)
    requires Splits(facts, v) && v.no <= v.before <= v.no + v.del
    requires !Deleting(facts, sys, g) && RowsOf(facts, sys, AddKind, g) == iset{}
    ensures LiveRows(v.before, sys, g) == LiveRows(v.no + v.add, sys, g)
  {
    hide Splits, Deleting, LivePair, Contributes, AddingRow;
    forall u, p: nat ensures LiveRow(v.before, sys, g, u, p) <==> LiveRow(v.no + v.add, sys, g, u, p) {
      assert (u, p) !in RowsOf(facts, sys, AddKind, g);
      if LiveRow(v.before, sys, g, u, p) {
        var a, b :| LivePair(v.before, sys, g, a, b) && Contributes(a, u, p);
        LargerPair(v.before, v.no + v.del, sys, g, a, b);
        UndeletedPair(facts, v, sys, g, a, b);
        LargerPair(v.no, v.no + v.add, sys, g, a, b);
      }
      if LiveRow(v.no + v.add, sys, g, u, p) {
        var a, b :| LivePair(v.no + v.add, sys, g, a, b) && Contributes(a, u, p);
        UnaddedPair(facts, v, sys, g, a, b, u, p);
        LargerPair(v.no, v.before, sys, g, a, b);
      }
    }
  }

  lemma LargerPair(s: set<Atom>, t: set<Atom>, sys: Uuid, g: Group, a: Leg, b: Leg)
    requires LivePair(s, sys, g, a, b) && s <= t
    ensures LivePair(t, sys, g, a, b)
  {
    AllInLarger(LegAtoms(a), s, t);
    AllInLarger(LegAtoms(b), s, t);
    hide LegAtoms, AllIn, PairOk;
  }

  lemma UnaddedPair(facts: set<Fact>, v: Delta, sys: Uuid, g: Group, a: Leg, b: Leg, u: Uuid, p: nat)
    requires Splits(facts, v) && LivePair(v.no + v.add, sys, g, a, b) && Contributes(a, u, p)
    requires !AddingRow(facts, sys, g, u, p)
    ensures LivePair(v.no, sys, g, a, b)
  {
    hide Splits, PairOk, LegAtoms, AddingRow;
    assert !Meets(PairAtoms(a, b), v.add) by {
      hide Meets, AllIn;
      if Meets(PairAtoms(a, b), v.add) { NewPairIsAdding(facts, v, sys, g, a, b); }
    }
    MeetsAppend(LegAtoms(a), LegAtoms(b), v.add);
  }

  lemma LiveRowsMember(s: set<Atom>, sys: Uuid, g: Group) returns (a: Leg, b: Leg)
    requires LiveRows(s, sys, g) != iset{}
    ensures LivePair(s, sys, g, a, b)
  {
    hide LivePair, Contributes;
    var u, p :| (u, p) in LiveRows(s, sys, g);
    assert LiveRow(s, sys, g, u, p);
    a, b :| LivePair(s, sys, g, a, b) && Contributes(a, u, p);
  }

  lemma NotDropped(
    lflows: seq<LFlow>, facts: set<Fact>, v: Delta, sys: Uuid, g: Group, lr: Atom, pin: Option<Atom>)
    requires Splits(facts, v) && EnumeratesEcmp(lflows, facts, sys)
    requires RouterOk(lr, pin, sys) && AllIn(RouterAtoms(lr, pin), v.no + v.del) && lr.props.uuid == g.lr &&
      g.prefix <= 32
    ensures Deleting(facts, sys, g) ==> BundleKey(lr, g) in FlowsToDel(lflows)
  {
    hide Splits, AllIn, Deleting, BundleKey, FlowsToDel, EnumeratesEcmp, RouterAtoms;
    if Deleting(facts, sys, g) { DeletingDrops(lflows, facts, v, sys, g, lr, pin); }
  }

  lemma NotAdded(
    lflows: seq<LFlow>, facts: set<Fact>, v: Delta, sys: Uuid, g: Group, lr: Atom, pin: Option<Atom>, kind: Kind)
    requires Splits(facts, v) && EnumeratesEcmp(lflows, facts, sys)
    requires RouterOk(lr, pin, sys) && AllIn(RouterAtoms(lr, pin), v.no + v.add) && lr.props.uuid == g.lr &&
      g.prefix <= 32
    ensures RowsOf(facts, sys, kind, g) != iset{} ==> AddsKey(FlowsToAdd(lflows), BundleKey(lr, g))
  {
    hide Splits, AllIn, RowsOf, BundleKey, FlowsToAdd, EnumeratesEcmp, RouterAtoms, AddsKey;
    if RowsOf(facts, sys, kind, g) != iset{} { RowsAdd(lflows, facts, v, sys, g, lr, pin, kind); }
  }

  /** The router of an undeleted group is settled. */
  lemma RouterSettled(facts: set<Fact>, v: Delta, sys: Uuid, g: Group, lr: Atom, pin: Option<Atom>)
    requires Splits(facts, v) && Sound(v, sys) && !Deleting(facts, sys, g) && HasBundle(v.before, sys, g, lr, pin)
    ensures AllIn(RouterAtoms(lr, pin), v.no)
  {
    hide Splits, Pinned, Config, AllIn, RouterAtoms, LiveRows, RouterOk, Deleting, LivePair, LegOk, LegAtoms;
    AllInLarger(RouterAtoms(lr, pin), v.before, v.no + v.del);
    var a, b := LiveRowsMember(v.before, sys, g);
    LargerPair(v.before, v.no + v.del, sys, g, a, b);
    UndeletedPair(facts, v, sys, g, a, b);
    LiveLeg(v, sys, g, a, b, v.no);
    RouterOfLeg(v.no, v.no + v.del, sys, a, lr, pin);
  }

  /** A bundle that is neither deleted nor replaced is still exact. */
  lemma KeptIsBundle(
    lflows: seq<LFlow>, facts: set<Fact>, v: Delta, sys: Uuid, g: Group, lr: Atom, pin: Option<Atom>, k: FlowKey,
    act: Action)
    requires Splits(facts, v) && Sound(v, sys) && EnumeratesEcmp(lflows, facts, sys)
    requires IsBundle(v.before, sys, g, lr, pin, k, act) && k !in FlowsToDel(lflows) && !AddsKey(FlowsToAdd(lflows), k)
    ensures IsBundle(v.no + v.add, sys, g, lr, pin, k, act)
  {
    assert v.no <= v.before <= v.no + v.del;
    hide Splits, Sound, BundleKey, AllIn, RouterAtoms, LiveRows, RouterOk, Lists, AddsKey, FlowsToDel, FlowsToAdd,
      EnumeratesEcmp, Deleting, RowsOf;
    AllInLarger(RouterAtoms(lr, pin), v.before, v.no + v.del);
    NotDropped(lflows, facts, v, sys, g, lr, pin);
    RouterSettled(facts, v, sys, g, lr, pin);
    AllInLarger(RouterAtoms(lr, pin), v.no, v.no + v.add);
    NotAdded(lflows, facts, v, sys, g, lr, pin, AddKind);
    SettledRows(facts, v, sys, g);
  }

  /** A live bundle of a group without additions was there before, and is not dropped. */
  lemma UntouchedStays(
    table: FlowTable, lflows: seq<LFlow>, facts: set<Fact>, v: Delta, sys: Uuid, g: Group, lr: Atom, pin: Option<Atom>)
    requires FullBundles(table, v.before, sys)
    requires Splits(facts, v) && Sound(v, sys) && RoutesAssumed(v) && EnumeratesEcmp(lflows, facts, sys)
    requires HasBundle(v.no + v.add, sys, g, lr, pin) && !Deleting(facts, sys, g)
    requires RowsOf(facts, sys, AddKind, g) == iset{}
    ensures BundleKey(lr, g) in table && BundleKey(lr, g) !in FlowsToDel(lflows)
  {
    hide Splits, Pinned, Config, RoutesAssumed, EnumeratesEcmp, Deleting, RowsOf, AllIn, RouterAtoms, RouterOk,
      FlowsToDel, LiveRows, IsBundle, BundleKey;
    SettledRows(facts, v, sys, g);
    SettledRouter(facts, v, sys, g, lr, pin);
    AllInLarger(RouterAtoms(lr, pin), v.no, v.before);
    DropsOtherGroup(lflows, facts, v, sys, g, lr, pin);
    assert HasBundle(v.before, sys, g, lr, pin);
  }

  /** The router of a live group that gained nothing is settled. */
  lemma SettledRouter(facts: set<Fact>, v: Delta, sys: Uuid, g: Group, lr: Atom, pin: Option<Atom>)
    requires Splits(facts, v) && Sound(v, sys) && RowsOf(facts, sys, AddKind, g) == iset{}
    requires HasBundle(v.no + v.add, sys, g, lr, pin)
    ensures AllIn(RouterAtoms(lr, pin), v.no)
  {
    hide Splits, Pinned, Config, AllIn, RouterAtoms, RouterOk, LivePair, LiveRows, RowsOf, LegOk, LegAtoms;
    var s := v.no + v.add;
    var a, b := SettledPair(facts, v, sys, g);
    LiveLeg(v, sys, g, a, b, v.no);
    AllInLarger(LegAtoms(a), v.no, s);
    RouterOfLeg(s, s, sys, a, lr, pin);
    LegRouterIn(a, v.no);
    RouterIn(lr, pin, v.no);
  }

  lemma SettledPair(facts: set<Fact>, v: Delta, sys: Uuid, g: Group) returns (a: Leg, b: Leg)
    requires Splits(facts, v) && RowsOf(facts, sys, AddKind, g) == iset{} && LiveRows(v.no + v.add, sys, g) != iset{}
    ensures LivePair(v.no, sys, g, a, b)
  {
    hide Splits, LivePair, Contributes, AddingRow;
    var u: Uuid, p: nat :| (u, p) in LiveRows(v.no + v.add, sys, g);
    assert (u, p) !in RowsOf(facts, sys, AddKind, g);
    a, b :| LivePair(v.no + v.add, sys, g, a, b) && Contributes(a, u, p);
    UnaddedPair(facts, v, sys, g, a, b, u, p);
  }

  predicate Canonical(g: Group) {
    g.prefix <= 32 && g.ip == Net(g.ip, g.prefix)
  }

  lemma LiveGroupIsCanonical(v: Delta, sys: Uuid, g: Group)
    requires RoutesAssumed(v) && LiveRows(v.no + v.add, sys, g) != iset{}
    ensures Canonical(g)
  {
    hide LiveRows, LivePair, Net;
    var a, b := LiveRowsMember(v.no + v.add, sys, g);
    LiveLeg(v, sys, g, a, b, v.no + v.add);
    LegIsTyped(a, sys);
    hide LegOk, LegAtoms;
  }

  lemma LegIsTyped(a: Leg, sys: Uuid)
    requires LegOk(a, sys)
    ensures a.route.props.Lsr? && WellTyped(a.route.props)
  {
    hide NextHopOk;
  }

  lemma DeletingGroupIsCanonical(facts: set<Fact>, v: Delta, sys: Uuid, g: Group)
    requires Splits(facts, v) && RoutesAssumed(v) && Deleting(facts, sys, g)
    ensures Canonical(g)
  {
    var a, other, states :| DeletingRow(facts, sys, g, a, other, states);
    StatedIn(facts, v, LegAtoms(a) + [other], states);
    assert (LegAtoms(a) + [other])[0] == a.route;
    LegIsTyped(a, sys);
    hide LegOk, LegAtoms, Net, Stated, Sum, Splits;
  }

  lemma KeyNamesGroup(
    N: set<Atom>, X: set<Atom>, sys: Uuid, g: Group, lr: Atom, pin: Option<Atom>, h: Group, lr': Atom,
      pin': Option<Atom>)
    requires Pinned(N, X) && RouterOk(lr, pin, sys) && RouterOk(lr', pin', sys) && Canonical(g) && Canonical(h)
    requires AllIn(RouterAtoms(lr, pin), N) && AllIn(RouterAtoms(lr', pin'), X)
    requires lr.props.uuid == g.lr && lr'.props.uuid == h.lr
    requires BundleKey(lr, g) == BundleKey(lr', h)
    ensures g == h
  {
    assert lr.props.Lr? && lr'.props.Lr?;
    CalPriorityInjective(g.prefix, LEVEL_ECMP, 0, h.prefix, LEVEL_ECMP, 0);
    hide Pinned, RouterOk, AllIn, RouterAtoms, Net, CalPriority;
    RouterIn(lr, pin, N);
    RouterIn(lr', pin', X);
    SameRouter(N, X, lr, lr');
  }

  /** A bundle row never looks like a deletion. */
  lemma BundleIsNoDrop(
    facts: set<Fact>, v: Delta, sys: Uuid, g: Group, lr: Atom, pin: Option<Atom>, states: seq<int>, kind: Kind,
      t: LFlow)
    requires Splits(facts, v) && BundleRow(facts, sys, g, lr, pin, states, kind, t)
    ensures !IsDeletion(t.state)
  {
    hide Splits, RouterOk, RouterAtoms, Sum, Count, RowsOf, BundleKey, Lists, AllIn;
    RouterRowStates(facts, v, sys, g, lr, pin, states);
    SumByCounts(states);
    RemainderOf(Count(states, STATE_ADD) + 1, Count(states, STATE_DEL));
  }

  lemma RouterRowStates(
    facts: set<Fact>, v: Delta, sys: Uuid, g: Group, lr: Atom, pin: Option<Atom>, states: seq<int>)
    requires Splits(facts, v) && RouterRow(facts, sys, g, lr, pin, states)
    ensures States(states) && |states| <= 2
  {
    hide Splits, RouterOk;
    StatedIn(facts, v, RouterAtoms(lr, pin), states);
    assert |RouterAtoms(lr, pin)| <= 2;
  }

  lemma RemainderOf(n: nat, d: nat)
    requires 0 < n < 100
    ensures d > 0 ==> (100 * d - n) % 100 == 100 - n
  {
    assert 100 * d - n == 100 * (d - 1) + (100 - n);
  }

  lemma DropRowIsOther(
    facts: set<Fact>, v: Delta, sys: Uuid, g: Group, lr: Atom, pin: Option<Atom>, t: LFlow,
    h: Group, lr': Atom, pin': Option<Atom>, states: seq<int>)
    requires Splits(facts, v) && Sound(v, sys) && RoutesAssumed(v)
    requires HasBundle(v.no + v.add, sys, g, lr, pin) && !Deleting(facts, sys, g) && AllIn(RouterAtoms(lr, pin), v.no)
    requires DropRow(facts, sys, h, lr', pin', states, t) && IsDeletion(t.state)
    ensures t.key != BundleKey(lr, g)
  {
    hide Splits, Pinned, Config, RoutesAssumed, Deleting, BundleKey, AllIn, RouterAtoms, Canonical, LiveRows,
      RouterOk, Stated, Sum;
    assert -t.state == 100 - Sum(states);
    LiveGroupIsCanonical(v, sys, g);
    DeletingGroupIsCanonical(facts, v, sys, h);
    DropRouterGone(facts, v, sys, h, lr', pin', states);
    assert g != h;
    if BundleKey(lr, g) == BundleKey(lr', h) {
      KeyNamesGroup(v.no, v.no + v.del, sys, g, lr, pin, h, lr', pin');
    }
  }

  lemma DropIsOther(
    lflows: seq<LFlow>, facts: set<Fact>, v: Delta, sys: Uuid, g: Group, lr: Atom, pin: Option<Atom>, t: LFlow)
    requires Splits(facts, v) && Sound(v, sys) && RoutesAssumed(v) && EnumeratesEcmp(lflows, facts, sys)
    requires HasBundle(v.no + v.add, sys, g, lr, pin) && !Deleting(facts, sys, g) && AllIn(RouterAtoms(lr, pin), v.no)
    requires t in lflows && IsDeletion(t.state)
    ensures t.key != BundleKey(lr, g)
  {
    hide Splits, Sound, RoutesAssumed, Deleting, BundleKey, AllIn, RouterAtoms, HasBundle, BundleRow, DropRow,
      YieldsBundles, YieldsDrops;
    forall h, lr', pin', states, kind ensures !BundleRow(facts, sys, h, lr', pin', states, kind, t) {
      if BundleRow(facts, sys, h, lr', pin', states, kind, t) {
        BundleIsNoDrop(facts, v, sys, h, lr', pin', states, kind, t);
      }
    }
    var h, lr', pin', states :| DropRow(facts, sys, h, lr', pin', states, t);
    DropRowIsOther(facts, v, sys, g, lr, pin, t, h, lr', pin', states);
  }

  /** Another group does not drop this group's flow: networks are canonical and the
      router's id is its own. */
  lemma DropsOtherGroup(
    lflows: seq<LFlow>, facts: set<Fact>, v: Delta, sys: Uuid, g: Group, lr: Atom, pin: Option<Atom>)
    requires Splits(facts, v) && Sound(v, sys) && RoutesAssumed(v) && EnumeratesEcmp(lflows, facts, sys)
    requires HasBundle(v.no + v.add, sys, g, lr, pin) && !Deleting(facts, sys, g) && AllIn(RouterAtoms(lr, pin), v.no)
    ensures BundleKey(lr, g) !in FlowsToDel(lflows)
  {
    var k := BundleKey(lr, g);
    DeletedIff(lflows, k);
    hide FlowsToDel, Splits, Sound, RoutesAssumed, HasBundle, Deleting, BundleKey, AllIn, RouterAtoms;
    forall t | t in lflows && IsDeletion(t.state) ensures t.key != k {
      DropIsOther(lflows, facts, v, sys, g, lr, pin, t);
    }
  }

  /** Every live bundle is installed after the round. */
  lemma LiveIsInstalled(
    table: FlowTable, lflows: seq<LFlow>, facts: set<Fact>, v: Delta, sys: Uuid, g: Group, lr: Atom, pin: Option<Atom>)
    requires FullBundles(table, v.before, sys)
    requires Splits(facts, v) && Sound(v, sys) && RoutesAssumed(v) && EnumeratesEcmp(lflows, facts, sys)
    requires HasBundle(v.no + v.add, sys, g, lr, pin)
    ensures BundleKey(lr, g) in Commit(table, lflows)
  {
    var k, kept := BundleKey(lr, g), DelFlows(table, FlowsToDel(lflows));
    hide Splits, Sound, RoutesAssumed, EnumeratesEcmp, Deleting, RowsOf, AllIn, RouterAtoms, RouterOk, LiveRows,
      BundleKey, FullBundles, FlowsToDel, FlowsToAdd;
    AddFlowsAt(kept, FlowsToAdd(lflows), k);
    if Deleting(facts, sys, g) {
      ReaddingRowsAreAll(facts, v, sys, g);
      NotAdded(lflows, facts, v, sys, g, lr, pin, ReaddKind);
    } else if RowsOf(facts, sys, AddKind, g) != iset{} {
      NotAdded(lflows, facts, v, sys, g, lr, pin, AddKind);
    } else {
      UntouchedStays(table, lflows, facts, v, sys, g, lr, pin);
    }
  }

  lemma InstalledIsBundle(table: FlowTable, lflows: seq<LFlow>, facts: set<Fact>, v: Delta, sys: Uuid, k: FlowKey)
    requires FullBundles(table, v.before, sys)
    requires Splits(facts, v) && Sound(v, sys) && RoutesAssumed(v) && EnumeratesEcmp(lflows, facts, sys)
    requires k in Commit(table, lflows)
    ensures exists g, lr, pin :: IsBundle(v.no + v.add, sys, g, lr, pin, k, Commit(table, lflows)[k])
  {
    var kept := DelFlows(table, FlowsToDel(lflows));
    hide Splits, Sound, RoutesAssumed, EnumeratesEcmp, IsBundle, FlowsToDel, FlowsToAdd;
    AddFlowsAt(kept, FlowsToAdd(lflows), k);
    if AddsKey(FlowsToAdd(lflows), k) {
      AddedIsBundle(lflows, facts, v, sys, k, Commit(table, lflows)[k]);
    } else {
      var g, lr, pin :| IsBundle(v.before, sys, g, lr, pin, k, table[k]);
      KeptIsBundle(lflows, facts, v, sys, g, lr, pin, k, table[k]);
    }
  }

  /** Through any mix of adding, deleting and readding, a round turns the exact
      bundles of the settled and deleted facts into those of the live ones. */
  lemma RoundKeepsBundlesExact(table: FlowTable, lflows: seq<LFlow>, facts: set<Fact>, v: Delta, sys: Uuid)
    requires FullBundles(table, v.before, sys)
    requires Splits(facts, v) && Sound(v, sys) && RoutesAssumed(v) && EnumeratesEcmp(lflows, facts, sys)
    ensures FullBundles(Commit(table, lflows), v.no + v.add, sys)
  {
    hide Splits, Sound, RoutesAssumed, EnumeratesEcmp, IsBundle, HasBundle, Commit, BundleKey;
    forall k | k in Commit(table, lflows)
      ensures exists g, lr, pin :: IsBundle(v.no + v.add, sys, g, lr, pin, k, Commit(table, lflows)[k])
    {
      hide FullBundles;
      InstalledIsBundle(table, lflows, facts, v, sys, k);
    }
    forall g, lr, pin | HasBundle(v.no + v.add, sys, g, lr, pin) ensures BundleKey(lr, g) in Commit(table, lflows) {
      hide FullBundles;
      LiveIsInstalled(table, lflows, facts, v, sys, g, lr, pin);
    }
  }

  // ----- The listed order is unique -----

  lemma {:induction false} BeforeIsStrict(a: string, b: string, c: string)
    ensures !Before(a, a) && (Before(a, b) && Before(b, c) ==> Before(a, c))
    decreases |a|
  {
    if a != "" {
      BeforeIsStrict(a[1..], if b == "" then b else b[1..], if c == "" then c else c[1..]);
    }
  }

  /** The i-th id of one listing is the i-th id of the other. */
  lemma ListedAlike(p: seq<nat>, ids: seq<Uuid>, q: seq<nat>, jds: seq<Uuid>, rows: Rows, i: nat)
    requires ListedBy(p, ids, rows) && ListedBy(q, jds, rows) && i < |ids|
    requires forall j :: 0 <= j < i ==> j < |jds| && ids[j] == jds[j]
    ensures i < |jds| && (ids[i] == jds[i] || Before(jds[i], ids[i])) &&
      exists k :: 0 <= k < |jds| && jds[k] == ids[i] && q[k] == p[i]
  {
    assert (ids[i], p[i]) in rows;
    var k :| 0 <= k < |jds| && (jds[k], q[k]) == (ids[i], p[i]);
    BeforeIsStrict(ids[i], ids[i], ids[i]);
    assert forall j :: 0 <= j < i ==> Before(ids[j], ids[i]) && jds[j] != ids[i];
  }

  lemma {:induction false} SameIds(p: seq<nat>, ids: seq<Uuid>, q: seq<nat>, jds: seq<Uuid>, rows: Rows, n: nat)
    requires ListedBy(p, ids, rows) && ListedBy(q, jds, rows) && n <= |ids| && n <= |jds|
    ensures forall j :: 0 <= j < n ==> ids[j] == jds[j]
  {
    if n > 0 {
      SameIds(p, ids, q, jds, rows, n - 1);
      ListedAlike(p, ids, q, jds, rows, n - 1);
      ListedAlike(q, jds, p, ids, rows, n - 1);
      BeforeIsStrict(ids[n - 1], jds[n - 1], ids[n - 1]);
    }
  }

  lemma SameLength(p: seq<nat>, ids: seq<Uuid>, q: seq<nat>, jds: seq<Uuid>, rows: Rows)
    requires ListedBy(p, ids, rows) && ListedBy(q, jds, rows)
    ensures |ids| <= |jds|
  {
    if |jds| < |ids| {
      SameIds(p, ids, q, jds, rows, |jds|);
      ListedAlike(p, ids, q, jds, rows, |jds|);
    }
  }

  /** The rows fix the bundle: there is one list in route order. */
  lemma BundleIsUnique(p: seq<nat>, q: seq<nat>, rows: Rows)
    requires Lists(p, rows) && Lists(q, rows)
    ensures p == q
  {
    var ids :| ListedBy(p, ids, rows);
    var jds :| ListedBy(q, jds, rows);
    SameLength(p, ids, q, jds, rows);
    SameLength(q, jds, p, ids, rows);
    SameIds(p, ids, q, jds, rows, |ids|);
    forall i | 0 <= i < |p| ensures p[i] == q[i] {
      assert (ids[i], p[i]) in rows;
      var k :| 0 <= k < |jds| && (jds[k], q[k]) == (ids[i], p[i]);
      OneIndex(jds, i, k);
    }
  }

  lemma OneIndex(ids: seq<Uuid>, i: nat, k: nat)
    requires forall i, j :: 0 <= i < j < |ids| ==> Before(ids[i], ids[j])
    requires i < |ids| && k < |ids| && ids[i] == ids[k]
    ensures i == k
  {
    BeforeIsStrict(ids[i], ids[i], ids[i]);
  }
}
