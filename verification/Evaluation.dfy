// The rules always have an answer: every fact base that a round meets has a list of
// rows, bundles included, so every reachable state can go through a round.

module Evaluation {
  import opened Common
  import opened Entities
  import opened EntityZoo
  import opened RoutePriority
  import opened FlowRules
  import opened FlowSync
  import opened Ecmp
  import opened Rounds
  import opened Agent

  // ----- Finitely many joins -----

  function AtomsIn(facts: set<Fact>): set<Atom> {
    set f | f in facts :: Atom(f.props, f.ilk)
  }

  function Maybe(s: set<Atom>): set<Option<Atom>> {
    {None} + set a | a in s :: Some(a)
  }

  function Links(s: set<Atom>): set<Link> {
    set lsp, lrp, ls, lr, pin | lsp in s && lrp in s && ls in s && lr in s && pin in Maybe(s) ::
      Link(lsp, lrp, ls, lr, pin)
  }

  function Bonds(s: set<Atom>): set<Bond> {
    set lsp, ls, port | lsp in s && ls in s && port in s :: Bond(lsp, ls, port)
  }

  function Remotes(s: set<Atom>): set<Remote> {
    set port, chassis | port in s && chassis in s :: Remote(port, chassis)
  }

  function Vias(s: set<Atom>): set<Option<Remote>> {
    {None} + set r | r in Remotes(s) :: Some(r)
  }

  function Hops(s: set<Atom>): set<Hop> {
    set lrp, lsp, farLsp, farLrp, lr, pin, next, nextPin, via |
      lrp in s && lsp in s && farLsp in s && farLrp in s && lr in s && pin in Maybe(s) && next in s &&
      nextPin in Maybe(s) && via in Vias(s) ::
      Hop(lrp, lsp, farLsp, farLrp, lr, pin, next, nextPin, via)
  }

  function Joinable(s: set<Atom>): set<Derivation> {
    (set l | l in Links(s) :: LookupLink(l)) +
    (set b | b in Bonds(s) :: LookupBond(b)) +
    (set lsp, ls, r | lsp in s && ls in s && r in Remotes(s) :: LookupRemoteLsp(lsp, ls, r)) +
    (set l, r | l in Links(s) && r in Remotes(s) :: LookupRemoteLink(l, r)) +
    (set b | b in Bonds(s) :: ForwardBond(b)) +
    (set l | l in Links(s) :: ForwardLink(l)) +
    (set l | l in Links(s) :: AutoRoute(l)) +
    (set route, h | route in s && h in Hops(s) :: StaticRoute(route, h))
  }

  lemma LinkIsListed(l: Link, s: set<Atom>)
    requires LinkOver(l, s)
    ensures l in Links(s)
  {
    assert l.pin in Maybe(s);
  }

  lemma HopIsListed(h: Hop, s: set<Atom>)
    requires HopOver(h, s)
    ensures h in Hops(s)
  {
    assert h.pin in Maybe(s) && h.nextPin in Maybe(s);
    assert h.via in Vias(s) by { hide Maybe; }
    hide Maybe, Vias;
    assert h == Hop(h.lrp, h.lsp, h.farLsp, h.farLrp, h.lr, h.pin, h.next, h.nextPin, h.via);
  }

  lemma OverIsJoinable(d: Derivation, s: set<Atom>)
    requires Over(d, s)
    ensures d in Joinable(s)
  {
    hide Over, Atoms, LinkAtoms, HopAtoms, Links, Hops, LinkOver, HopOver;
    OverParts(d, s);
    match d
    case LookupLink(l) => LinkIsListed(l, s);
    case LookupBond(b) => assert b in Bonds(s);
    case LookupRemoteLsp(_, _, r) => assert r in Remotes(s);
    case LookupRemoteLink(l, r) => LinkIsListed(l, s); assert r in Remotes(s);
    case ForwardBond(b) => assert b in Bonds(s);
    case ForwardLink(l) => LinkIsListed(l, s);
    case AutoRoute(l) => LinkIsListed(l, s);
    case StaticRoute(_, h) => HopIsListed(h, s);
  }

  const ALL_STATES := {STATE_NO, STATE_ADD, STATE_DEL}

  function StateSeqs(n: nat): set<seq<int>> {
    if n == 0 then {[]} else set init, x | init in StateSeqs(n - 1) && x in ALL_STATES :: init + [x]
  }

  lemma {:induction false} StatesListed(states: seq<int>)
    requires States(states)
    ensures states in StateSeqs(|states|)
  {
    if states != [] {
      var n := |states| - 1;
      StatesListed(states[..n]);
      assert states == states[..n] + [states[n]];
    }
  }

  ghost predicate KnownStates(facts: set<Fact>) {
    forall f :: f in facts ==> f.state in ALL_STATES
  }

  lemma StatedIsListed(facts: set<Fact>, atoms: seq<Atom>, states: seq<int>)
    requires KnownStates(facts) && Stated(facts, atoms, states)
    ensures states in StateSeqs(|atoms|) && AllIn(atoms, AtomsIn(facts))
  {
    hide StateSeqs;
    forall i | 0 <= i < |states| ensures states[i] in ALL_STATES && atoms[i] in AtomsIn(facts) {
      var f := FactFor(atoms[i], states[i]);
      assert f in facts && atoms[i] == Atom(f.props, f.ilk);
    }
    StatesListed(states);
  }

  ghost function JoinRows(facts: set<Fact>, sys: Uuid): set<LFlow> {
    set d, states | d in Joinable(AtomsIn(facts)) && states in StateSeqs(|Atoms(d)|) &&
      Instance(facts, d, states, sys) && Sum(states) != 0 ::
      LFlow(Key(d, sys), ActionOf(d, sys), Sum(states))
  }

  lemma JoinRowsYield(facts: set<Fact>, sys: Uuid, t: LFlow)
    requires KnownStates(facts)
    ensures t in JoinRows(facts, sys) <==> Yields(facts, sys, t)
  {
    hide Joinable, StateSeqs, Joins, Key, ActionOf, Sum, Atoms, KnownStates, Stated;
    if t in JoinRows(facts, sys) {
      var d, states :| d in Joinable(AtomsIn(facts)) && states in StateSeqs(|Atoms(d)|) &&
        Instance(facts, d, states, sys) && Sum(states) != 0 &&
        t == LFlow(Key(d, sys), ActionOf(d, sys), Sum(states));
      assert RowOf(facts, d, states, sys, t);
    }
    if Yields(facts, sys, t) {
      var d, states :| RowOf(facts, d, states, sys, t);
      StatedIsListed(facts, Atoms(d), states);
      OverIsJoinable(d, AtomsIn(facts));
      assert t == LFlow(Key(d, sys), ActionOf(d, sys), Sum(states));
    }
  }

  lemma {:induction false} Sequence<T>(s: set<T>) returns (q: seq<T>)
    ensures forall x :: x in q <==> x in s
    decreases |s|
  {
    if s == {} {
      q := [];
    } else {
      var x :| x in s;
      var rest := Sequence(s - {x});
      q := [x] + rest;
    }
  }

  // ----- Rows have an order -----

  lemma {:induction false} BeforeIsTotal(a: string, b: string)
    ensures a == b || Before(a, b) || Before(b, a)
    decreases |a|
  {
    if a != "" && b != "" {
      BeforeIsTotal(a[1..], b[1..]);
      assert a == [a[0]] + a[1..] && b == [b[0]] + b[1..];
    }
  }

  ghost predicate Ascending(ids: seq<Uuid>) {
    forall i, j :: 0 <= i < j < |ids| ==> Before(ids[i], ids[j])
  }

  lemma {:induction false} Inserted(ids: seq<Uuid>, x: Uuid) returns (r: seq<Uuid>)
    requires Ascending(ids) && x !in ids
    ensures Ascending(r) && forall y :: y in r <==> y == x || y in ids
    decreases |ids|
  {
    hide Before;
    if ids == [] {
      r := [x];
    } else {
      BeforeIsTotal(x, ids[0]);
      if Before(x, ids[0]) {
        forall i | 0 <= i < |ids| ensures Before(x, ids[i]) {
          BeforeIsStrict(x, ids[0], ids[i]);
        }
        r := [x] + ids;
      } else {
        var rest := Inserted(ids[1..], x);
        assert forall y :: y in ids <==> y == ids[0] || y in ids[1..];
        assert forall y :: y in ids[1..] ==> Before(ids[0], y);
        r := [ids[0]] + rest;
      }
    }
  }

  lemma {:induction false} Sorted(s: set<Uuid>) returns (ids: seq<Uuid>)
    ensures Ascending(ids) && forall u :: u in ids <==> u in s
    decreases |s|
  {
    if s == {} {
      ids := [];
    } else {
      var x :| x in s;
      var rest := Sorted(s - {x});
      ids := Inserted(rest, x);
    }
  }

  // ----- Bundles -----

  /** A live route id has one tunnel port. */
  lemma OnePort(s: set<Atom>, sys: Uuid, g: Group, u: Uuid, p: nat, q: nat)
    requires Pinned(s, s) && Config(s, sys) && LiveRow(s, sys, g, u, p) && LiveRow(s, sys, g, u, q)
    ensures p == q
  {
    hide Pinned, Config, AllIn, LegAtoms;
    var a, a' :| LivePair(s, sys, g, a, a') && Contributes(a, u, p);
    var b, b' :| LivePair(s, sys, g, b, b') && Contributes(b, u, q);
    LegParts(a, s);
    LegParts(b, s);
    hide HopOver, NextHopOk;
    SameId(s, s, a.route, b.route);
    LegDetermined(s, sys, a, b);
  }

  /** The ids of the live routes of a group that have a partner. */
  ghost function LiveIds(s: set<Atom>, sys: Uuid, g: Group): set<Uuid> {
    set r | r in s && exists port :: LiveRow(s, sys, g, r.props.uuid, port) :: r.props.uuid
  }

  ghost function PortOfRoute(s: set<Atom>, sys: Uuid, g: Group, u: Uuid): nat
    requires exists port :: LiveRow(s, sys, g, u, port)
  {
    var port :| LiveRow(s, sys, g, u, port);
    port
  }

  lemma LiveRowIsListed(s: set<Atom>, sys: Uuid, g: Group, u: Uuid, port: nat)
    requires LiveRow(s, sys, g, u, port)
    ensures u in LiveIds(s, sys, g)
  {
    hide LegAtoms, HopOver, NextHopOk;
    var a, b :| LivePair(s, sys, g, a, b) && Contributes(a, u, port);
    assert a.route in s by { LegParts(a, s); }
    hide LivePair;
  }

  lemma LiveIdHasPort(s: set<Atom>, sys: Uuid, g: Group, u: Uuid)
    requires u in LiveIds(s, sys, g)
    ensures exists port :: LiveRow(s, sys, g, u, port)
  {
    hide LiveRow;
  }

  /** The rows of a live group can be listed in route order. */
  lemma LiveRowsListed(s: set<Atom>, sys: Uuid, g: Group) returns (ports: seq<nat>)
    requires Pinned(s, s) && Config(s, sys)
    ensures Lists(ports, LiveRows(s, sys, g))
  {
    hide Pinned, Config, LiveRow, LiveIds, Before;
    var ids := Sorted(LiveIds(s, sys, g));
    forall i | 0 <= i < |ids| ensures exists port :: LiveRow(s, sys, g, ids[i], port) {
      LiveIdHasPort(s, sys, g, ids[i]);
    }
    ports := seq(|ids|, i requires 0 <= i < |ids| => PortOfRoute(s, sys, g, ids[i]));
    var rows := iset i | 0 <= i < |ids| :: (ids[i], ports[i]);
    forall u: Uuid, p: nat ensures (u, p) in rows <==> LiveRow(s, sys, g, u, p) {
      if LiveRow(s, sys, g, u, p) {
        LiveRowIsListed(s, sys, g, u, p);
        var i :| 0 <= i < |ids| && ids[i] == u;
        OnePort(s, sys, g, u, p, ports[i]);
      }
    }
    assert rows == LiveRows(s, sys, g);
    assert ListedBy(ports, ids, LiveRows(s, sys, g));
  }

  lemma RowsListed(facts: set<Fact>, v: Delta, sys: Uuid, kind: Kind, g: Group) returns (ports: seq<nat>)
    requires Splits(facts, v) && Sound(v, sys) && RoutesAssumed(v) && RowsOf(facts, sys, kind, g) != iset{}
    ensures Lists(ports, RowsOf(facts, sys, kind, g))
  {
    RowsAreLive(facts, v, sys, g, kind);
    hide RowsOf, Lists, Pinned, Config;
    ports := LiveRowsListed(v.no + v.add, sys, g);
  }

  /** Why a round has a bundle row: a group, its router with its states, and the aggregate. */
  datatype Cause = Cause(g: Group, lr: Atom, pin: Option<Atom>, states: seq<int>, kind: Kind)

  function Groups(s: set<Atom>): set<Group> {
    set r | r in s && r.props.Lsr? :: Ecmp.GroupOf(r.props)
  }

  function Causes(facts: set<Fact>): set<Cause> {
    var s := AtomsIn(facts);
    set g, lr, pin, states, kind |
      g in Groups(s) && lr in s && pin in Maybe(s) && states in StateSeqs(|RouterAtoms(lr, pin)|) &&
      kind in {AddKind, ReaddKind} ::
      Cause(g, lr, pin, states, kind)
  }

  ghost predicate Bundles(facts: set<Fact>, sys: Uuid, c: Cause) {
    RouterRow(facts, sys, c.g, c.lr, c.pin, c.states) && RowsOf(facts, sys, c.kind, c.g) != iset{} &&
    Sum(c.states) + 1 != 0
  }

  ghost predicate Drops(facts: set<Fact>, sys: Uuid, c: Cause) {
    RouterRow(facts, sys, c.g, c.lr, c.pin, c.states) && Deleting(facts, sys, c.g) && Sum(c.states) - 100 != 0
  }

  ghost function PortsOf(rows: Rows): seq<nat>
    requires exists ports :: Lists(ports, rows)
  {
    var ports :| Lists(ports, rows);
    ports
  }

  ghost predicate AllListed(facts: set<Fact>, sys: Uuid) {
    forall kind, g :: RowsOf(facts, sys, kind, g) != iset{} ==>
      exists ports :: Lists(ports, RowsOf(facts, sys, kind, g))
  }

  ghost function BundleRows(facts: set<Fact>, sys: Uuid): set<LFlow>
    requires AllListed(facts, sys)
  {
    set c | c in Causes(facts) && Bundles(facts, sys, c) ::
      LFlow(BundleKey(c.lr, c.g), BundleLoad(PortsOf(RowsOf(facts, sys, c.kind, c.g))), Sum(c.states) + 1)
  }

  ghost function DropRows(facts: set<Fact>, sys: Uuid): set<LFlow> {
    set c | c in Causes(facts) && Drops(facts, sys, c) ::
      LFlow(BundleKey(c.lr, c.g), BundleLoad([]), Sum(c.states) - 100)
  }

  lemma CauseIsListed(facts: set<Fact>, sys: Uuid, c: Cause)
    requires KnownStates(facts) && RouterRow(facts, sys, c.g, c.lr, c.pin, c.states) && c.g in Groups(AtomsIn(facts))
    ensures c in Causes(facts)
  {
    hide StateSeqs, RouterOk, Groups, AtomsIn, Stated;
    StatedIsListed(facts, RouterAtoms(c.lr, c.pin), c.states);
    RouterIn(c.lr, c.pin, AtomsIn(facts));
    hide RouterAtoms;
    assert c.pin in Maybe(AtomsIn(facts));
    assert c.kind == AddKind || c.kind == ReaddKind;
    assert c == Cause(c.g, c.lr, c.pin, c.states, c.kind);
  }

  lemma PairGroupIsListed(facts: set<Fact>, sys: Uuid, g: Group, a: Leg, b: Leg, states: seq<int>)
    requires PairRow(facts, sys, g, a, b, states)
    ensures g in Groups(AtomsIn(facts))
  {
    hide LegAtoms, NextHopOk;
    assert PairAtoms(a, b)[0] == a.route;
    var f := FactFor(a.route, states[0]);
    assert f in facts && Atom(f.props, f.ilk) == a.route;
  }

  lemma DeletingGroupIsListed(facts: set<Fact>, sys: Uuid, g: Group)
    requires Deleting(facts, sys, g)
    ensures g in Groups(AtomsIn(facts))
  {
    hide LegAtoms, NextHopOk;
    var a, other, states :| DeletingRow(facts, sys, g, a, other, states);
    assert (LegAtoms(a) + [other])[0] == a.route;
    var f := FactFor(a.route, states[0]);
    assert f in facts && Atom(f.props, f.ilk) == a.route;
  }

  lemma RowGroupIsListed(facts: set<Fact>, sys: Uuid, kind: Kind, g: Group)
    requires RowsOf(facts, sys, kind, g) != iset{}
    ensures g in Groups(AtomsIn(facts))
  {
    hide PairRow, Groups, AtomsIn, Contributes, Deleting;
    var u, port :| (u, port) in RowsOf(facts, sys, kind, g);
    if kind.AddKind? {
      var a, b, states :| PairRow(facts, sys, g, a, b, states) && Sum(states) > 0 && Contributes(a, u, port);
      PairGroupIsListed(facts, sys, g, a, b, states);
    } else {
      DeletingGroupIsListed(facts, sys, g);
    }
  }

  lemma BundleRowsYield(facts: set<Fact>, sys: Uuid, c: Cause)
    requires KnownStates(facts) && AllListed(facts, sys) && Bundles(facts, sys, c)
    ensures exists t :: t in BundleRows(facts, sys) && BundleRow(facts, sys, c.g, c.lr, c.pin, c.states, c.kind, t)
  {
    hide RouterRow, RowsOf, Sum, Causes, BundleKey, Lists, KnownStates;
    RowGroupIsListed(facts, sys, c.kind, c.g);
    CauseIsListed(facts, sys, c);
    var t :=
      LFlow(BundleKey(c.lr, c.g), BundleLoad(PortsOf(RowsOf(facts, sys, c.kind, c.g))), Sum(c.states) + 1);
    assert t in BundleRows(facts, sys);
  }

  lemma DropRowsYield(facts: set<Fact>, sys: Uuid, c: Cause)
    requires KnownStates(facts) && Drops(facts, sys, c)
    ensures exists t :: t in DropRows(facts, sys) && DropRow(facts, sys, c.g, c.lr, c.pin, c.states, t)
  {
    hide RouterRow, Deleting, Sum, Causes, BundleKey, KnownStates;
    DeletingGroupIsListed(facts, sys, c.g);
    CauseIsListed(facts, sys, c);
    var t := LFlow(BundleKey(c.lr, c.g), BundleLoad([]), Sum(c.states) - 100);
    assert t in DropRows(facts, sys);
  }

  lemma BundleRowsAreSound(facts: set<Fact>, sys: Uuid, t: LFlow)
    requires AllListed(facts, sys) && t in BundleRows(facts, sys) + DropRows(facts, sys)
    ensures t.state != 0 && IsBundleKey(t.key)
    ensures (exists g, lr, pin, states, kind :: BundleRow(facts, sys, g, lr, pin, states, kind, t)) ||
      (exists g, lr, pin, states :: DropRow(facts, sys, g, lr, pin, states, t))
  {
    hide RouterRow, RowsOf, Deleting, Sum, Causes, Lists, CalPriority;
    if t in BundleRows(facts, sys) {
      var c :| c in Causes(facts) && Bundles(facts, sys, c) && t ==
        LFlow(BundleKey(c.lr, c.g), BundleLoad(PortsOf(RowsOf(facts, sys, c.kind, c.g))), Sum(c.states) + 1);
      assert BundleRow(facts, sys, c.g, c.lr, c.pin, c.states, c.kind, t);
    } else {
      var c :| c in Causes(facts) && Drops(facts, sys, c) && t ==
        LFlow(BundleKey(c.lr, c.g), BundleLoad([]), Sum(c.states) - 100);
      assert DropRow(facts, sys, c.g, c.lr, c.pin, c.states, t);
    }
  }

  lemma BundlesEnumerated(lflows: seq<LFlow>, facts: set<Fact>, sys: Uuid)
    requires KnownStates(facts) && AllListed(facts, sys)
    requires forall t :: t in lflows <==> t in BundleRows(facts, sys) + DropRows(facts, sys)
    ensures EnumeratesEcmp(lflows, facts, sys)
  {
    hide KnownStates, AllListed, RouterRow, RowsOf, Deleting, Sum, BundleRows, DropRows, BundleRow, DropRow;
    forall t | t in lflows
      ensures t.state != 0
      ensures (exists g, lr, pin, states, kind :: BundleRow(facts, sys, g, lr, pin, states, kind, t)) ||
        (exists g, lr, pin, states :: DropRow(facts, sys, g, lr, pin, states, t))
    {
      BundleRowsAreSound(facts, sys, t);
    }
    forall g, lr, pin, states, kind |
      RouterRow(facts, sys, g, lr, pin, states) && RowsOf(facts, sys, kind, g) != iset{} && Sum(states) + 1 != 0
      ensures exists t :: t in lflows && BundleRow(facts, sys, g, lr, pin, states, kind, t)
    {
      BundleRowsYield(facts, sys, Cause(g, lr, pin, states, kind));
    }
    forall g, lr, pin, states |
      RouterRow(facts, sys, g, lr, pin, states) && Deleting(facts, sys, g) && Sum(states) - 100 != 0
      ensures exists t :: t in lflows && DropRow(facts, sys, g, lr, pin, states, t)
    {
      DropRowsYield(facts, sys, Cause(g, lr, pin, states, AddKind));
    }
  }

  // ----- Both kinds of rows in one list -----

  /** A join rule never uses the key of a bundle. */
  lemma JoinKeyIsOther(facts: set<Fact>, sys: Uuid, t: LFlow)
    requires Yields(facts, sys, t) && IndicesFit(AtomsIn(facts))
    ensures !IsBundleKey(t.key)
  {
    hide KnownStates, HopOk, BondOk, RemoteOk, Net, LinkAtoms, HopAtoms, RouterOk;
    var d, states :| RowOf(facts, d, states, sys, t);
    assert Over(d, AtomsIn(facts)) by { StatedIsOver(facts, d, states); }
    OverParts(d, AtomsIn(facts));
    hide Over, Stated, Sum;
    if d.AutoRoute? {
      assert SlotOf(d.link.lrp.props, d.link.lrp.ilk).Some?;
    } else if d.StaticRoute? {
      assert SlotOf(d.route.props, d.route.ilk).Some?;
    }
  }

  lemma StatedIsOver(facts: set<Fact>, d: Derivation, states: seq<int>)
    requires Stated(facts, Atoms(d), states)
    ensures Over(d, AtomsIn(facts))
  {
    hide Atoms;
    forall i | 0 <= i < |Atoms(d)| ensures Atoms(d)[i] in AtomsIn(facts) {
      var f := FactFor(Atoms(d)[i], states[i]);
      assert f in facts && Atom(f.props, f.ilk) == Atoms(d)[i];
    }
  }

  lemma RowsPartStep(lflows: seq<LFlow>, bundles: bool)
    requires lflows != []
    ensures var init, last := lflows[..|lflows| - 1], lflows[|lflows| - 1];
      RowsPart(lflows, bundles) ==
        if IsBundleKey(last.key) == bundles then RowsPart(init, bundles) + [last] else RowsPart(init, bundles)
  {
    hide IsBundleKey;
  }

  lemma {:induction false} RowsPartOfAll(lflows: seq<LFlow>, bundles: bool)
    requires forall t :: t in lflows ==> IsBundleKey(t.key) == bundles
    ensures RowsPart(lflows, bundles) == lflows && RowsPart(lflows, !bundles) == []
  {
    hide IsBundleKey;
    if lflows != [] {
      hide RowsPart;
      var init, last := lflows[..|lflows| - 1], lflows[|lflows| - 1];
      assert last in lflows;
      RowsPartOfAll(init, bundles);
      RowsPartStep(lflows, bundles);
      RowsPartStep(lflows, !bundles);
      assert lflows == init + [last];
    }
  }

  lemma {:induction false} RowsPartAppend(a: seq<LFlow>, b: seq<LFlow>, bundles: bool)
    ensures RowsPart(a + b, bundles) == RowsPart(a, bundles) + RowsPart(b, bundles)
  {
    hide IsBundleKey;
    if b == [] {
      assert a + b == a;
    } else {
      var n := |b| - 1;
      RowsPartAppend(a, b[..n], bundles);
      assert (a + b)[..|a + b| - 1] == a + b[..n];
    }
  }

  lemma SoundIndicesFit(facts: set<Fact>, v: Delta, sys: Uuid)
    requires Splits(facts, v) && Sound(v, sys)
    ensures IndicesFit(AtomsIn(facts)) && KnownStates(facts)
  {
    hide NoClash, OneNextHop, Config;
    forall a | a in AtomsIn(facts) && SlotOf(a.props, a.ilk).Some? ensures a.ilk < MAX_ILK {
      var f :| f in facts && a == Atom(f.props, f.ilk);
      assert a in v.no + v.del || a in v.no + v.add;
    }
  }

  /** Whatever a round meets, its rules have an answer. */
  lemma RowsExist(facts: set<Fact>, v: Delta, sys: Uuid) returns (lflows: seq<LFlow>)
    requires Splits(facts, v) && Sound(v, sys) && RoutesAssumed(v)
    ensures EnumeratesRules(lflows, facts, sys)
  {
    hide Splits, Sound, RoutesAssumed, RowsOf, Lists, Yields, JoinRows, BundleRows, DropRows, RowsPart, IsBundleKey,
      KnownStates, EnumeratesEcmp, IndicesFit;
    SoundIndicesFit(facts, v, sys);
    forall kind, g | RowsOf(facts, sys, kind, g) != iset{}
      ensures exists ports :: Lists(ports, RowsOf(facts, sys, kind, g))
    {
      var ports := RowsListed(facts, v, sys, kind, g);
    }
    var joins := Sequence(JoinRows(facts, sys));
    var bundles := Sequence(BundleRows(facts, sys) + DropRows(facts, sys));
    lflows := joins + bundles;
    forall t ensures t in joins <==> Yields(facts, sys, t) {
      JoinRowsYield(facts, sys, t);
    }
    forall t | t in joins ensures !IsBundleKey(t.key) {
      JoinKeyIsOther(facts, sys, t);
    }
    forall t | t in bundles ensures IsBundleKey(t.key) {
      BundleRowsAreSound(facts, sys, t);
    }
    BundlesEnumerated(bundles, facts, sys);
    BothParts(joins, bundles);
  }

  lemma BothParts(joins: seq<LFlow>, bundles: seq<LFlow>)
    requires (forall t :: t in joins ==> !IsBundleKey(t.key)) && forall t :: t in bundles ==> IsBundleKey(t.key)
    ensures RowsPart(joins + bundles, false) == joins && RowsPart(joins + bundles, true) == bundles
  {
    hide IsBundleKey;
    RowsPartAppend(joins, bundles, false);
    RowsPartAppend(joins, bundles, true);
    RowsPartOfAll(joins, false);
    RowsPartOfAll(bundles, true);
    hide RowsPart;
    assert joins + [] == joins && [] + bundles == bundles;
  }

  lemma RoundHasRows(a: AgentState, opts: Options) returns (lflows: seq<LFlow>)
    requires ZooInv(a, opts) && Assumed(a.zoo, opts.systemId)
    ensures EnumeratesRules(lflows, a.zoo.facts, opts.systemId)
  {
    SeenBelow(a, opts);
    hide Assumed, Sound, Splits, RoutesAssumed, EnumeratesRules, ZooInv, Inv, Apart, BirthOk, Published;
    RoundIsSound(a.zoo, a.installed, opts.systemId);
    lflows := RowsExist(a.zoo.facts, DeltaOf(a.zoo, a.installed), opts.systemId);
  }

  /** After any run another round can be taken, and it leaves exactly the flows of the
      live, touched entities: the run theorems speak about rounds that exist. */
  lemma RunCanGoOn(a: AgentState, steps: seq<Agent.Step>, b: AgentState, opts: Options) returns (lflows: seq<LFlow>)
    requires Initial(a) && Runs(a, steps, b, opts) && Assumed(b.zoo, opts.systemId)
    ensures Enabled(b, ForceStep(lflows), opts) && Enabled(b, PollStep(lflows), opts)
    ensures TableExact(Round(b, lflows).table, Published(b.zoo.live), opts.systemId)
  {
    hide Initial, Runs, Assumed, EnumeratesRules, TableExact, Round, ZooInv, Published, Searched;
    InitialAgentInv(a, opts);
    RunKeepsAgentInv(a, steps, b, opts);
    lflows := RoundHasRows(b, opts);
    ForcedRoundInstallsExactly(a, steps, b, lflows, opts);
  }
}
