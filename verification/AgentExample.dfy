// A start-up run of the agent with a switch, a port of this host and the interface
// it is bound to: the conditions of the run theorems can be met with flows to install.

module AgentExample {
  import opened Common
  import opened Entities
  import opened EntityZoo
  import opened FlowRules
  import opened FlowSync
  import opened Ecmp
  import opened Rounds
  import opened Agent
  import opened Resync

  const LOCAL := Options("host", false)
  const SWITCH := Ls("s", 1)
  const PORT := Lsp("p", 0x0a00_0002, "mac", "s", Some("host"), None)
  const TAP := OvsPort("tap", "p", 7, false)

  const LOOKUP_KEY := FlowKey(TABLE_LOOKUP_DST_PORT, 4, 1, EthDst("mac"))
  const FORWARD_KEY := FlowKey(TABLE_FORWARD_PACKET, 3, 1, RegDst(2))

  function FirstRows(): seq<LFlow> {
    [LFlow(LOOKUP_KEY, LoadDst(2), 3), LFlow(FORWARD_KEY, PushOut(7), 3)]
  }

  function FirstFacts(): set<Fact> {
    {Fact(SWITCH, 0, STATE_ADD), Fact(PORT, 0, STATE_ADD), Fact(TAP, 0, STATE_ADD)}
  }

  function FirstBond(): Bond {
    Bond(Atom(PORT, 0), Atom(SWITCH, 0), Atom(TAP, 0))
  }

  // ----- Adding an entity whose keys are free -----

  ghost predicate FreshKeys(m: map<UniqueKey, Props>, keys: seq<UniqueKey>) {
    forall k :: k in keys ==> k !in m
  }

  lemma PlainAddTouchesNone(z: ZooState, p: Props)
    requires WellTyped(p)
    ensures AddAndTouch(z, p, 0, LOCAL) == AddEntity(z, p, 0, LOCAL)
  {
    hide AddEntity, WellTyped, TouchAll;
    TouchNone(AddEntity(z, p, 0, LOCAL));
  }

  lemma PlainAdd(z: ZooState, p: Props)
    requires IdOf(p) !in z.live && !IsIlk(p) && WellTyped(p) && FreshKeys(z.idxmap, UniqueKeys(p))
    ensures var y := AddAndTouch(z, p, 0, LOCAL);
      y.live == z.live[IdOf(p) := NewEntity(p, 0, LOCAL)] && y.sink == z.sink && y.ver == z.ver + 1 &&
      y.facts == z.facts + {Fact(p, 0, STATE_ADD)} && y.idxmap.Keys == z.idxmap.Keys + set k | k in UniqueKeys(p)
  {
    hide UniqueKeys, InsertKeys, WellTyped, TouchAll;
    KeysOfOneDiffer(p);
    InsertFreeKeys(z.idxmap, UniqueKeys(p), p);
    PlainAddTouchesNone(z, p);
    hide AddAndTouch;
  }

  // ----- The zoo after the three additions -----

  function AfterSwitch(): ZooState {
    AddAndTouch(EmptyZoo(), SWITCH, 0, LOCAL)
  }

  function AfterPort(): ZooState {
    AddAndTouch(AfterSwitch(), PORT, 0, LOCAL)
  }

  function AfterTap(): ZooState {
    AddAndTouch(AfterPort(), TAP, 0, LOCAL)
  }

  /** Only the three entities, none of them deleted. */
  ghost predicate OnlyFirst(z: ZooState) {
    z.sink == [] && z.facts <= FirstFacts() &&
    forall id :: id in z.live ==> id == IdOf(z.live[id].props) && z.live[id].props in {SWITCH, PORT, TAP}
  }

  lemma KeysOfFirst()
    ensures FreshKeys(map[], UniqueKeys(SWITCH))
    ensures forall m: map<UniqueKey, Props> ::
      (m.Keys == set k | k in UniqueKeys(SWITCH)) ==> FreshKeys(m, UniqueKeys(PORT))
    ensures forall m: map<UniqueKey, Props> ::
      (m.Keys == (set k | k in UniqueKeys(SWITCH)) + set k | k in UniqueKeys(PORT)) ==> FreshKeys(m, UniqueKeys(TAP))
  {
    assert |"global_view_id"| == 14 && |"ls_view_ip"| == 10 && |"ls_view_mac"| == 11 && |"host_view_ovsport"| == 17;
  }

  lemma AddKeepsFirst(z: ZooState, p: Props)
    requires OnlyFirst(z) && p in {SWITCH, PORT, TAP} && IdOf(p) !in z.live && FreshKeys(z.idxmap, UniqueKeys(p))
    ensures OnlyFirst(AddAndTouch(z, p, 0, LOCAL))
  {
    hide UniqueKeys, AddAndTouch, FreshKeys, NewEntity;
    PlainAdd(z, p);
    NewEntityIs(p);
  }

  lemma ZooAfterAdds()
    ensures OnlyFirst(EmptyZoo()) && OnlyFirst(AfterSwitch()) && OnlyFirst(AfterPort()) && OnlyFirst(AfterTap())
    ensures AfterTap().facts == FirstFacts() && AfterTap().ver == 3
  {
    hide UniqueKeys, AddAndTouch, FreshKeys, NewEntity, OnlyFirst;
    KeysOfFirst();
    assert OnlyFirst(EmptyZoo()) by { EmptyIsFirst(); }
    PlainAdd(EmptyZoo(), SWITCH);
    AddKeepsFirst(EmptyZoo(), SWITCH);
    PlainAdd(AfterSwitch(), PORT);
    AddKeepsFirst(AfterSwitch(), PORT);
    PlainAdd(AfterPort(), TAP);
    AddKeepsFirst(AfterPort(), TAP);
  }

  lemma EmptyIsFirst()
    ensures OnlyFirst(EmptyZoo())
  {
  }

  lemma NewEntityIs(p: Props)
    ensures NewEntity(p, 0, LOCAL).props == p
  {
  }

  lemma PresentIsFirst(z: ZooState)
    requires OnlyFirst(z)
    ensures forall a :: a in Present(z) ==> a.props in {SWITCH, PORT, TAP}
  {
  }

  lemma FirstIsLiveAssumed(z: ZooState)
    requires OnlyFirst(z)
    ensures LiveAssumed(z.live)
  {
    hide PortId;
  }

  lemma FirstIsAssumed(z: ZooState)
    requires OnlyFirst(z)
    ensures Assumed(z, LOCAL.systemId)
  {
    hide PortId, Net, WellTyped;
    PresentIsFirst(z);
    FirstIsLiveAssumed(z);
    hide Present, OnlyFirst, LiveAssumed;
  }

  // ----- The rows of the first round -----

  lemma OnlyStates(atoms: seq<Atom>, states: seq<int>)
    requires Stated(FirstFacts(), atoms, states)
    ensures |states| == |atoms|
    ensures forall i :: 0 <= i < |atoms| ==>
      states[i] == 1 && atoms[i].ilk == 0 && atoms[i].props in {SWITCH, PORT, TAP}
  {
    forall i | 0 <= i < |atoms|
      ensures states[i] == 1 && atoms[i].ilk == 0 && atoms[i].props in {SWITCH, PORT, TAP}
    {
      assert FactFor(atoms[i], states[i]) in FirstFacts();
    }
  }

  /** All derivations but the two of a bond join a router port, a route or a tunnel. */
  lemma OtherThanBond(d: Derivation) returns (i: nat)
    requires Joins(d, LOCAL.systemId) && !d.LookupBond? && !d.ForwardBond?
    ensures i < |Atoms(d)|
    ensures var p := Atoms(d)[i].props; p.Lrp? || p.Lsr? || (p.OvsPort? && p.remote)
  {
    hide Net, WellTyped, RouterOk;
    i := if d.StaticRoute? then 0 else if d.LookupRemoteLsp? then 2 else 1;
  }

  /** The one way to join these facts is the bond of the port. */
  lemma OnlyBond(d: Derivation, states: seq<int>)
    requires Instance(FirstFacts(), d, states, LOCAL.systemId)
    ensures d == LookupBond(FirstBond()) || d == ForwardBond(FirstBond())
    ensures states == [1, 1, 1] && Sum(states) == 3
  {
    OnlyStates(Atoms(d), states);
    if !d.LookupBond? && !d.ForwardBond? {
      var i := OtherThanBond(d);
    }
    var b := d.bond;
    assert b == FirstBond() by {
      assert Atoms(d)[0] == b.lsp && Atoms(d)[1] == b.ls && Atoms(d)[2] == b.port;
    }
    assert states == [1, 1, 1];
    SumOfOnes();
  }

  lemma SumOfOnes()
    ensures Sum([1, 1, 1]) == 3
  {
    assert [1, 1, 1][1..] == [1, 1] && [1, 1][1..] == [1] && [1][1..] == [];
  }

  lemma BondRows()
    ensures RowOf(FirstFacts(), LookupBond(FirstBond()), [1, 1, 1], LOCAL.systemId, FirstRows()[0])
    ensures RowOf(FirstFacts(), ForwardBond(FirstBond()), [1, 1, 1], LOCAL.systemId, FirstRows()[1])
  {
    SumOfOnes();
  }

  lemma RowsOfFirst(t: LFlow)
    ensures t in FirstRows() <==> Yields(FirstFacts(), LOCAL.systemId, t)
  {
    hide Joins, Instance, Sum;
    BondRows();
    if Yields(FirstFacts(), LOCAL.systemId, t) {
      var d, states :| RowOf(FirstFacts(), d, states, LOCAL.systemId, t);
      OnlyBond(d, states);
      assert t == FirstRows()[0] || t == FirstRows()[1];
    }
  }

  lemma NoRouters(g: Group, lr: Atom, pin: Option<Atom>, states: seq<int>)
    ensures !RouterRow(FirstFacts(), LOCAL.systemId, g, lr, pin, states)
  {
    assert RouterAtoms(lr, pin)[0] == lr;
    if RouterRow(FirstFacts(), LOCAL.systemId, g, lr, pin, states) {
      OnlyStates(RouterAtoms(lr, pin), states);
    }
  }

  lemma NoBundles()
    ensures EnumeratesEcmp([], FirstFacts(), LOCAL.systemId)
  {
    hide RouterRow, RowsOf, Deleting, Sum;
    forall g, lr, pin, states ensures !RouterRow(FirstFacts(), LOCAL.systemId, g, lr, pin, states) {
      NoRouters(g, lr, pin, states);
    }
  }

  lemma FirstParts()
    ensures RowsPart(FirstRows(), false) == FirstRows() && RowsPart(FirstRows(), true) == []
  {
    var rows := FirstRows();
    assert rows[..1] == [rows[0]] && rows[..1][..0] == [];
    assert !IsBundleKey(rows[0].key) && !IsBundleKey(rows[1].key);
  }

  lemma FirstRowsEnumerate()
    ensures EnumeratesRules(FirstRows(), FirstFacts(), LOCAL.systemId)
  {
    hide Yields, RowsPart, EnumeratesEcmp, FirstRows, FirstFacts;
    FirstParts();
    NoBundles();
    forall t ensures t in FirstRows() <==> Yields(FirstFacts(), LOCAL.systemId, t) {
      RowsOfFirst(t);
    }
  }

  // ----- The run -----

  function Start(): AgentState {
    AgentState(EmptyZoo(), map[], false, 0, {})
  }

  function Adds(): seq<Step> {
    [AddStep(SWITCH, 0), AddStep(PORT, 0), AddStep(TAP, 0)]
  }

  function Populated(): AgentState {
    Start().(zoo := AfterTap())
  }

  lemma RunOneMore(a: AgentState, step: Step, rest: seq<Step>, b: AgentState)
    requires Assumed(a.zoo, LOCAL.systemId) && Enabled(a, step, LOCAL) && Runs(Next(a, step, LOCAL), rest, b, LOCAL)
    ensures Runs(a, [step] + rest, b, LOCAL)
  {
    hide Assumed, Next;
    assert ([step] + rest)[1..] == rest;
  }

  lemma RunAdd(a: AgentState, p: Props, rest: seq<Step>, b: AgentState)
    requires OnlyFirst(a.zoo) && WellTyped(p) && !IsIlk(p)
    requires Runs(a.(zoo := AddAndTouch(a.zoo, p, 0, LOCAL)), rest, b, LOCAL)
    ensures Runs(a, [AddStep(p, 0)] + rest, b, LOCAL)
  {
    hide Assumed, AddAndTouch, Runs, OnlyFirst, Enabled, Next, WellTyped;
    FirstIsAssumed(a.zoo);
    AddIsEnabled(a, p);
    RunOneMore(a, AddStep(p, 0), rest, b);
  }

  lemma AddIsEnabled(a: AgentState, p: Props)
    requires WellTyped(p) && !IsIlk(p)
    ensures Enabled(a, AddStep(p, 0), LOCAL)
    ensures Next(a, AddStep(p, 0), LOCAL) == a.(zoo := AddAndTouch(a.zoo, p, 0, LOCAL))
  {
    hide AddAndTouch, EnumeratesRules, Searched, UnknownDst, Poll, Round, IlkExhausted;
  }

  lemma AddsRun(rest: seq<Step>, b: AgentState)
    requires Runs(Populated(), rest, b, LOCAL)
    ensures Runs(Start(), Adds() + rest, b, LOCAL)
  {
    hide AddAndTouch, Runs, OnlyFirst;
    ZooAfterAdds();
    RunAdd(Start().(zoo := AfterPort()), TAP, rest, b);
    RunAdd(Start().(zoo := AfterSwitch()), PORT, [AddStep(TAP, 0)] + rest, b);
    RunAdd(Start(), SWITCH, [AddStep(PORT, 0)] + ([AddStep(TAP, 0)] + rest), b);
    assert Adds() + rest == [AddStep(SWITCH, 0)] + ([AddStep(PORT, 0)] + ([AddStep(TAP, 0)] + rest));
  }

  /** The agent learns a switch, its own port and the interface; the first poll then
      installs the lookup and the forwarding flow of the port, whatever was there. */
  lemma FirstPoll()
    ensures Initial(Start()) && Runs(Start(), Adds(), Populated(), LOCAL)
    ensures Assumed(Populated().zoo, LOCAL.systemId)
    ensures EnumeratesRules(FirstRows(), Populated().zoo.facts, LOCAL.systemId)
    ensures Runs(Start(), Adds() + [PollStep(FirstRows())], Poll(Populated(), FirstRows()), LOCAL)
    ensures Poll(Populated(), FirstRows()).table == map[LOOKUP_KEY := LoadDst(2), FORWARD_KEY := PushOut(7)]
  {
    hide Assumed, AddAndTouch, OnlyFirst, EnumeratesRules, SweepZoo, FlowsToAdd, AddFlows, FirstRows, FirstFacts;
    ZooAfterAdds();
    FirstIsAssumed(AfterTap());
    FirstRowsEnumerate();
    AddsRun([], Populated());
    assert Adds() + [] == Adds();
    var b := Poll(Populated(), FirstRows());
    assert Runs(b, [], b, LOCAL);
    assert [PollStep(FirstRows())] + [] == [PollStep(FirstRows())];
    RunOneMore(Populated(), PollStep(FirstRows()), [], b);
    AddsRun([PollStep(FirstRows())], b);
    FirstTable();
  }

  lemma FirstTable()
    ensures AddFlows(map[], FlowsToAdd(FirstRows())) == map[LOOKUP_KEY := LoadDst(2), FORWARD_KEY := PushOut(7)]
  {
    var rows := FirstRows();
    assert rows[..1] == [rows[0]] && rows[..1][..0] == [];
    var adds := FlowsToAdd(rows);
    assert FlowsToAdd([rows[0]]) == [OvsFlow(LOOKUP_KEY, LoadDst(2))];
    assert adds == [OvsFlow(LOOKUP_KEY, LoadDst(2)), OvsFlow(FORWARD_KEY, PushOut(7))];
    assert adds[..1] == [adds[0]] && adds[..1][..0] == [];
  }
}
