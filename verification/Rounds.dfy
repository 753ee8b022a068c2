// One round over all rules: the lookup, forwarding and routing flows and the ECMP
// bundles share one flow table and one list of rows. Their keys never meet.

module Rounds {
  import opened Common
  import opened Entities
  import opened RoutePriority
  import opened FlowRules
  import opened FlowSync
  import opened Ecmp

  /** Keys of level 2 in the routing table. */
  predicate IsBundleKey(k: FlowKey) {
    k.table == TABLE_IP_ROUTE && k.m.IpDst? && k.priority == CalPriority(k.m.prefix, LEVEL_ECMP, 0)
  }

  function Part(table: FlowTable, bundles: bool): FlowTable {
    map k | k in table && IsBundleKey(k) == bundles :: table[k]
  }

  function RowsPart(lflows: seq<LFlow>, bundles: bool): seq<LFlow> {
    if lflows == [] then []
    else
      var last := lflows[|lflows| - 1];
      RowsPart(lflows[..|lflows| - 1], bundles) + if IsBundleKey(last.key) == bundles then [last] else []
  }

  function FlowsPart(adds: seq<OvsFlow>, bundles: bool): seq<OvsFlow> {
    if adds == [] then []
    else
      var last := adds[|adds| - 1];
      FlowsPart(adds[..|adds| - 1], bundles) + if IsBundleKey(last.key) == bundles then [last] else []
  }

  /** The rows of a round come from the join rules and from the bundle aggregates. */
  ghost predicate EnumeratesRules(lflows: seq<LFlow>, facts: set<Fact>, sys: Uuid) {
    Enumerates(RowsPart(lflows, false), facts, sys) && EnumeratesEcmp(RowsPart(lflows, true), facts, sys)
  }

  /** The table holds exactly what s derives, bundles included. */
  ghost predicate TableExact(table: FlowTable, s: set<Atom>, sys: Uuid) {
    IsFullTable(Part(table, false), s, sys) && FullBundles(Part(table, true), s, sys)
  }

  lemma RowStep(lflows: seq<LFlow>, t: LFlow)
    ensures FlowsToAdd(lflows + [t]) == FlowsToAdd(lflows) + if t.state > 0 then [OvsFlow(t.key, t.action)] else []
    ensures forall k :: k in FlowsToDel(lflows + [t]) <==>
      k in FlowsToDel(lflows) || (IsDeletion(t.state) && k == t.key)
  {
    assert (lflows + [t])[..|lflows|] == lflows;
  }

  lemma FlowsPartStep(adds: seq<OvsFlow>, f: OvsFlow, bundles: bool)
    ensures FlowsPart(adds + [f], bundles) ==
      FlowsPart(adds, bundles) + if IsBundleKey(f.key) == bundles then [f] else []
  {
    assert (adds + [f])[..|adds|] == adds;
  }

  lemma AddFlowsStep(table: FlowTable, adds: seq<OvsFlow>, f: OvsFlow)
    ensures AddFlows(table, adds + [f]) == AddFlows(table, adds)[f.key := f.action]
  {
    assert (adds + [f])[..|adds|] == adds;
  }

  lemma NothingAppended<T>(s: seq<T>)
    ensures s + [] == s
  {
  }

  lemma {:induction false} PartAdds(lflows: seq<LFlow>, bundles: bool)
    ensures FlowsToAdd(RowsPart(lflows, bundles)) == FlowsPart(FlowsToAdd(lflows), bundles)
    ensures forall k :: k in FlowsToDel(RowsPart(lflows, bundles)) <==>
      k in FlowsToDel(lflows) && IsBundleKey(k) == bundles
  {
    if lflows != [] {
      var init, last := lflows[..|lflows| - 1], lflows[|lflows| - 1];
      var rest := RowsPart(init, bundles);
      assert RowsPart(lflows, bundles) == rest + if IsBundleKey(last.key) == bundles then [last] else [];
      assert init + [last] == lflows;
      hide IsBundleKey, FlowsToAdd, FlowsToDel, FlowsPart, RowsPart;
      PartAdds(init, bundles);
      RowStep(init, last);
      RowStep(rest, last);
      FlowsPartStep(FlowsToAdd(init), OvsFlow(last.key, last.action), bundles);
      NothingAppended(rest);
      NothingAppended(FlowsToAdd(init));
      NothingAppended(FlowsToAdd(rest));
    }
  }

  lemma PartOfUpdate(table: FlowTable, f: OvsFlow, bundles: bool)
    ensures Part(table[f.key := f.action], bundles) ==
      if IsBundleKey(f.key) == bundles then Part(table, bundles)[f.key := f.action] else Part(table, bundles)
  {
    hide IsBundleKey;
  }

  lemma {:induction false} PartOfAdded(table: FlowTable, adds: seq<OvsFlow>, bundles: bool)
    ensures Part(AddFlows(table, adds), bundles) == AddFlows(Part(table, bundles), FlowsPart(adds, bundles))
  {
    if adds != [] {
      var init, last := adds[..|adds| - 1], adds[|adds| - 1];
      assert init + [last] == adds;
      hide IsBundleKey, AddFlows, FlowsPart, Part;
      PartOfAdded(table, init, bundles);
      AddFlowsStep(table, init, last);
      FlowsPartStep(init, last, bundles);
      AddFlowsStep(Part(table, bundles), FlowsPart(init, bundles), last);
      PartOfUpdate(AddFlows(table, init), last, bundles);
      NothingAppended(FlowsPart(init, bundles));
    }
  }

  /** A commit works on the two kinds of flows separately. */
  lemma PartOfCommit(table: FlowTable, lflows: seq<LFlow>, bundles: bool)
    ensures Part(Commit(table, lflows), bundles) == Commit(Part(table, bundles), RowsPart(lflows, bundles))
  {
    hide IsBundleKey, FlowsToAdd, FlowsToDel, AddFlows, FlowsPart, RowsPart;
    PartAdds(lflows, bundles);
    PartOfAdded(DelFlows(table, FlowsToDel(lflows)), FlowsToAdd(lflows), bundles);
    assert Part(DelFlows(table, FlowsToDel(lflows)), bundles) ==
      DelFlows(Part(table, bundles), FlowsToDel(RowsPart(lflows, bundles)));
  }

  /** One round: from the exact table of the last round to the exact table of now. */
  lemma RoundIsExact(table: FlowTable, lflows: seq<LFlow>, facts: set<Fact>, v: Delta, sys: Uuid)
    requires TableExact(table, v.before, sys) && EnumeratesRules(lflows, facts, sys)
    requires Splits(facts, v) && Sound(v, sys) && RoutesAssumed(v)
    ensures TableExact(Commit(table, lflows), v.no + v.add, sys)
  {
    PartOfCommit(table, lflows, false);
    PartOfCommit(table, lflows, true);
    hide Splits, Sound, RoutesAssumed, Part, RowsPart, Commit, IsFullTable, FullBundles, Enumerates, EnumeratesEcmp;
    RoundIsFullRecompute(Part(table, false), RowsPart(lflows, false), facts, v, sys);
    RoundKeepsBundlesExact(Part(table, true), RowsPart(lflows, true), facts, v, sys);
  }

  // ----- A round over settled facts -----

  ghost predicate AllSettled(facts: set<Fact>) {
    forall f :: f in facts ==> f.state == STATE_NO
  }

  lemma {:induction false} SettledSum(states: seq<int>)
    requires forall i :: 0 <= i < |states| ==> states[i] == STATE_NO
    ensures Sum(states) == 0
  {
    if states != [] { SettledSum(states[1..]); }
  }

  lemma StatedSettled(facts: set<Fact>, atoms: seq<Atom>, states: seq<int>)
    requires AllSettled(facts) && Stated(facts, atoms, states)
    ensures Sum(states) == 0
  {
    forall i | 0 <= i < |states| ensures states[i] == STATE_NO {
      assert FactFor(atoms[i], states[i]) in facts;
    }
    SettledSum(states);
  }

  lemma NoRuleRows(facts: set<Fact>, sys: Uuid, lflows: seq<LFlow>)
    requires AllSettled(facts) && Enumerates(lflows, facts, sys)
    ensures lflows == []
  {
    hide Joins, Key, ActionOf, Atoms, Sum;
    if lflows != [] {
      var t := lflows[0];
      assert Yields(facts, sys, t);
      var d, states :| RowOf(facts, d, states, sys, t);
      StatedSettled(facts, Atoms(d), states);
    }
  }

  lemma NoAggregates(facts: set<Fact>, sys: Uuid, g: Group)
    requires AllSettled(facts)
    ensures !Deleting(facts, sys, g) && forall kind :: RowsOf(facts, sys, kind, g) == iset{}
  {
    hide LegOk, Mates, PairOk, LegAtoms, Sum, Contributes;
    forall a, other, states | DeletingRow(facts, sys, g, a, other, states) ensures false {
      StatedSettled(facts, LegAtoms(a) + [other], states);
    }
    forall u, port: nat ensures !AddingRow(facts, sys, g, u, port) {
      forall a, b, states | PairRow(facts, sys, g, a, b, states) ensures Sum(states) == 0 {
        StatedSettled(facts, PairAtoms(a, b), states);
      }
    }
    hide DeletingRow, PairRow, AddingRow;
    assert !Deleting(facts, sys, g);
  }

  lemma NoBundleRow(facts: set<Fact>, sys: Uuid, t: LFlow)
    requires AllSettled(facts)
    ensures forall g, lr, pin, states, kind :: !BundleRow(facts, sys, g, lr, pin, states, kind, t)
    ensures forall g, lr, pin, states :: !DropRow(facts, sys, g, lr, pin, states, t)
  {
    hide RouterRow, RowsOf, Deleting, Lists, BundleKey, AllSettled;
    forall g, lr, pin, states, kind ensures !BundleRow(facts, sys, g, lr, pin, states, kind, t) {
      NoAggregates(facts, sys, g);
    }
    forall g, lr, pin, states ensures !DropRow(facts, sys, g, lr, pin, states, t) {
      NoAggregates(facts, sys, g);
    }
  }

  lemma NoBundleRows(facts: set<Fact>, sys: Uuid, lflows: seq<LFlow>)
    requires AllSettled(facts) && EnumeratesEcmp(lflows, facts, sys)
    ensures lflows == []
  {
    hide BundleRow, DropRow, YieldsBundles, YieldsDrops;
    if lflows != [] {
      var t := lflows[0];
      assert t in lflows;
      NoBundleRow(facts, sys, t);
    }
  }

  lemma {:induction false} NoPartsNoRows(lflows: seq<LFlow>)
    requires RowsPart(lflows, false) == [] && RowsPart(lflows, true) == []
    ensures lflows == []
  {
  }

  /** A round over settled facts touches nothing: the rules return no row. */
  lemma QuietRound(lflows: seq<LFlow>, facts: set<Fact>, sys: Uuid)
    requires AllSettled(facts) && EnumeratesRules(lflows, facts, sys)
    ensures lflows == []
  {
    hide AllSettled, Enumerates, EnumeratesEcmp, RowsPart;
    NoRuleRows(facts, sys, RowsPart(lflows, false));
    NoBundleRows(facts, sys, RowsPart(lflows, true));
    NoPartsNoRows(lflows);
  }

  // ----- The routing table is looked up by longest prefix -----

  /** The route that a key of the routing table stands for. */
  function RouteOf(k: FlowKey): Route
    requires k.m.IpDst? && k.priority >= k.m.prefix * 1024
  {
    Route(k.m.net, k.m.prefix, (k.priority - k.m.prefix * 1024) / 64, (k.priority - k.m.prefix * 1024) % 64)
  }

  /** A key of table 37 is the flow of a route with the priority of that route. */
  predicate IsRouteKey(k: FlowKey) {
    k.m.IpDst? && k.priority >= k.m.prefix * 1024 && IsRoute(RouteOf(k)) && Priority(RouteOf(k)) == k.priority
  }

  /** A packet for dst on the router matches this flow. */
  predicate Matches(k: FlowKey, router: nat, dst: nat) {
    k.table == TABLE_IP_ROUTE && k.datapath == router && k.m.IpDst? && k.m.prefix <= 32 &&
    Net(dst, k.m.prefix) == k.m.net
  }

  ghost function RoutesOn(table: FlowTable, router: nat): set<Route> {
    set k | k in table && k.table == TABLE_IP_ROUTE && k.datapath == router && IsRouteKey(k) :: RouteOf(k)
  }

  lemma RouteKeyFor(k: FlowKey, level: nat, idx: nat)
    requires k.m.IpDst? && k.priority == CalPriority(k.m.prefix, level, idx) && level <= LEVEL_ECMP && idx < 64
    requires k.m.prefix <= 32 && (level == LEVEL_ECMP ==> idx == 0)
    ensures IsRouteKey(k) && RouteOf(k) == Route(k.m.net, k.m.prefix, level, idx)
  {
  }

  lemma DerivedRouteKey(s: set<Atom>, sys: Uuid, k: FlowKey, a: Action)
    requires Derived(s, sys, k, a) && IndicesFit(s) && k.table == TABLE_IP_ROUTE
    ensures IsRouteKey(k)
  {
    var d :| DerivedBy(s, sys, d, k, a);
    OverParts(d, s);
    hide Over, LinkOk, HopOk, Net, CalPriority, IsRouteKey, RemoteOk, BondOk;
    if d.AutoRoute? {
      RouteKeyFor(k, LEVEL_AUTO, d.link.lrp.ilk);
    } else {
      RouteKeyFor(k, LEVEL_STATIC, d.route.ilk);
    }
  }

  /** All keys of table 37 are route keys. */
  lemma ExactRouteKeys(table: FlowTable, s: set<Atom>, sys: Uuid, k: FlowKey)
    requires TableExact(table, s, sys) && IndicesFit(s) && k in table && k.table == TABLE_IP_ROUTE
    ensures IsRouteKey(k)
  {
    hide IndicesFit, IsRouteKey, IsBundle, HasBundle;
    if IsBundleKey(k) {
      assert k in Part(table, true);
      var g, lr, pin :| IsBundle(s, sys, g, lr, pin, k, table[k]);
      BundleIsTyped(s, sys, g, lr, pin, k, table[k]);
      RouteKeyFor(k, LEVEL_ECMP, 0);
    } else {
      assert k in Part(table, false) && Part(table, false)[k] == table[k];
      assert Derived(s, sys, k, table[k]);
      DerivedRouteKey(s, sys, k, table[k]);
    }
  }

  lemma BundleIsTyped(s: set<Atom>, sys: Uuid, g: Group, lr: Atom, pin: Option<Atom>, k: FlowKey, a: Action)
    requires IsBundle(s, sys, g, lr, pin, k, a)
    ensures k.m.IpDst? && k.m.prefix <= 32
  {
  }

  /** The flow that the switch picks for a destination on a router is the flow of the
      longest matching route among all its routes: automatic, static and ECMP. */
  lemma InstalledLookupIsLongestMatch(table: FlowTable, s: set<Atom>, sys: Uuid, router: nat, dst: nat, k: FlowKey)
    requires TableExact(table, s, sys) && IndicesFit(s)
    requires k in table && k.table == TABLE_IP_ROUTE && k.datapath == router
    ensures IsRouteKey(k)
    ensures LongestMatch(RoutesOn(table, router), dst, RouteOf(k)) <==>
      Matches(k, router, dst) && forall j :: j in table && Matches(j, router, dst) ==> j.priority <= k.priority
  {
    forall j | j in table && j.table == TABLE_IP_ROUTE ensures IsRouteKey(j) {
      ExactRouteKeys(table, s, sys, j);
    }
    var routes := RoutesOn(table, router);
    PriorityLookupIsLongestMatch(routes, dst, RouteOf(k));
    hide TableExact, IndicesFit, Priority, LongestMatch, IsRoute, Net;
    assert RouteOf(k) in routes;
    assert forall j :: j in table && j.table == TABLE_IP_ROUTE && j.datapath == router ==> RouteOf(j) in routes;
  }

  // ----- Ports on unknown chassis -----

  /** A port of another chassis that no chassis in t matches joins nothing. */
  predicate Inert(x: Atom, t: set<Atom>, sys: Uuid) {
    x.props.Lsp? && x.props.peer.None? && x.props.chassis != Some(sys) &&
    forall c :: c in t && c.props.Chassis? ==> x.props.chassis != Some(c.props.uuid)
  }

  lemma LinkNotInert(l: Link, t: set<Atom>, sys: Uuid)
    requires LinkOk(l, sys)
    ensures forall a :: a in LinkAtoms(l) ==> !Inert(a, t, sys)
  {
    forall a | a in LinkAtoms(l) ensures !(a.props.Lsp? && a.props.peer.None?) {
    }
  }

  lemma BondNotInert(b: Bond, t: set<Atom>, sys: Uuid)
    requires BondOk(b, sys)
    ensures forall a :: a in [b.lsp, b.ls, b.port] ==> !Inert(a, t, sys)
  {
  }

  lemma HopNotInert(h: Hop, t: set<Atom>, sys: Uuid)
    requires NextHopOk(h, sys) && (h.via.Some? ==> RemoteOk(h.via.value))
    ensures forall a :: a in HopAtoms(h) ==> !Inert(a, t, sys)
  {
    forall a | a in HopAtoms(h) ensures !(a.props.Lsp? && a.props.peer.None?) {
    }
  }

  lemma DerivationNotInert(d: Derivation, t: set<Atom>, sys: Uuid)
    requires Joins(d, sys) && Over(d, t)
    ensures forall a :: a in Atoms(d) ==> !Inert(a, t, sys)
  {
    OverParts(d, t);
    hide LinkOk, BondOk, NextHopOk, Over, LinkAtoms, HopAtoms, WellTyped;
    match d
    case LookupLink(l) => LinkNotInert(l, t, sys);
    case LookupBond(b) => BondNotInert(b, t, sys);
    case LookupRemoteLsp(lsp, ls, r) => assert r.chassis in t;
    case LookupRemoteLink(l, r) => LinkNotInert(l, t, sys);
    case ForwardBond(b) => BondNotInert(b, t, sys);
    case ForwardLink(l) => LinkNotInert(l, t, sys);
    case AutoRoute(l) => LinkNotInert(l, t, sys);
    case StaticRoute(route, h) => HopNotInert(h, t, sys);
  }

  lemma LegNotInert(l: Leg, t: set<Atom>, sys: Uuid)
    requires LegOk(l, sys)
    ensures forall a :: a in LegAtoms(l) ==> !Inert(a, t, sys)
  {
    HopNotInert(l.hop, t, sys);
    hide NextHopOk, WellTyped, HopAtoms;
  }

  ghost predicate OnlyInertAdded(s: set<Atom>, t: set<Atom>, sys: Uuid) {
    s <= t && forall x :: x in t && x !in s ==> Inert(x, t, sys)
  }

  lemma InertDerivation(s: set<Atom>, t: set<Atom>, sys: Uuid, d: Derivation)
    requires OnlyInertAdded(s, t, sys) && Joins(d, sys)
    ensures Over(d, s) <==> Over(d, t)
  {
    hide Joins, Atoms, Inert;
    if Over(d, t) {
      DerivationNotInert(d, t, sys);
    }
  }

  lemma InertLeg(s: set<Atom>, t: set<Atom>, sys: Uuid, l: Leg)
    requires OnlyInertAdded(s, t, sys) && LegOk(l, sys)
    ensures AllIn(LegAtoms(l), s) <==> AllIn(LegAtoms(l), t)
  {
    hide LegOk, LegAtoms, Inert;
    LegNotInert(l, t, sys);
  }

  lemma InertRows(s: set<Atom>, t: set<Atom>, sys: Uuid, g: Group)
    requires OnlyInertAdded(s, t, sys)
    ensures LiveRows(s, sys, g) == LiveRows(t, sys, g)
  {
    hide OnlyInertAdded, LegOk, LegAtoms, AllIn, Contributes, Mates;
    forall a, b ensures LivePair(s, sys, g, a, b) <==> LivePair(t, sys, g, a, b) {
      if PairOk(a, b, g, sys) {
        InertLeg(s, t, sys, a);
        InertLeg(s, t, sys, b);
      }
    }
    hide LivePair;
    forall u, p: nat ensures LiveRow(s, sys, g, u, p) <==> LiveRow(t, sys, g, u, p) {
    }
  }

  lemma InertRouter(s: set<Atom>, t: set<Atom>, sys: Uuid, lr: Atom, pin: Option<Atom>)
    requires OnlyInertAdded(s, t, sys) && RouterOk(lr, pin, sys)
    ensures AllIn(RouterAtoms(lr, pin), s) <==> AllIn(RouterAtoms(lr, pin), t)
  {
    RouterIn(lr, pin, s);
    RouterIn(lr, pin, t);
    hide AllIn, RouterAtoms;
  }

  /** Touching such a port changes no flow. */
  lemma InertKeepsTable(table: FlowTable, s: set<Atom>, t: set<Atom>, sys: Uuid)
    requires OnlyInertAdded(s, t, sys) && TableExact(table, s, sys)
    ensures TableExact(table, t, sys)
  {
    hide OnlyInertAdded, Part, Over;
    forall k, a ensures Derived(s, sys, k, a) <==> Derived(t, sys, k, a) {
      forall d ensures DerivedBy(s, sys, d, k, a) <==> DerivedBy(t, sys, d, k, a) {
        if Joins(d, sys) { InertDerivation(s, t, sys, d); }
      }
      hide DerivedBy;
    }
    forall g, lr, pin ensures HasBundle(s, sys, g, lr, pin) <==> HasBundle(t, sys, g, lr, pin) {
      InertRows(s, t, sys, g);
      if RouterOk(lr, pin, sys) { InertRouter(s, t, sys, lr, pin); }
      hide RouterOk, AllIn, RouterAtoms, LiveRows;
    }
    forall g, lr, pin, k, a ensures IsBundle(s, sys, g, lr, pin, k, a) <==> IsBundle(t, sys, g, lr, pin, k, a) {
      InertRows(s, t, sys, g);
      hide HasBundle, LiveRows, Lists, BundleKey;
    }
    hide HasBundle, IsBundle, Derived, BundleKey;
  }
}
