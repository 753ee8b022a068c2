// Whole runs of the agent: after every round the switch holds exactly the flows
// that a recomputation from the live, touched entities would install.

module Agent {
  import opened Common
  import opened Entities
  import opened EntityZoo
  import opened FlowRules
  import opened FlowSync
  import opened Ecmp
  import opened Rounds

  function AtomOf(e: Entity): Atom {
    Atom(e.props, e.ilk)
  }

  /** The live entities that contribute facts. */
  function Published(live: map<Id, Entity>): set<Atom> {
    set id | id in live && live[id].touched :: AtomOf(live[id])
  }

  // ----- Assumptions on the configuration, at every state of a run -----

  function Present(z: ZooState): set<Atom> {
    (set id | id in z.live :: AtomOf(z.live[id])) + (set i | 0 <= i < |z.sink| :: AtomOf(z.sink[i]))
  }

  /** One live port per interface id and per chassis tunnel, low 16 address bits
      unique on a switch, and one next hop behind every port that a static route names. */
  ghost predicate LiveAssumed(live: map<Id, Entity>) {
    (forall id, jd :: id in live && jd in live && id != jd ==> !AssumedClash(live[id].props, live[jd].props)) &&
    LiveOneNextHop(live)
  }

  ghost predicate LiveOneNextHop(live: map<Id, Entity>) {
    forall rd, id, jd, kd {:trigger ThirdEnd(live[rd].props, live[id].props, live[jd].props, live[kd].props)} ::
      rd in live && id in live && jd in live && kd in live ==>
        !ThirdEnd(live[rd].props, live[id].props, live[jd].props, live[kd].props)
  }

  /** Routes are stored with network addresses; live routes of one router and
      network share their next hop. */
  ghost predicate RoutesConfigured(z: ZooState) {
    (forall r :: r in Present(z) && r.props.Lsr? && WellTyped(r.props) ==>
      r.props.ip == Net(r.props.ip, r.props.prefix)) &&
    (forall id, jd :: id in z.live && jd in z.live && SameGroup(z.live[id].props, z.live[jd].props) ==>
       z.live[id].props.nextHop == z.live[jd].props.nextHop)
  }

  ghost predicate Assumed(z: ZooState, sys: Uuid) {
    LiveAssumed(z.live) && Config(Present(z), sys) && RoutesConfigured(z)
  }

  /** DelNoSeparate for the properties of LiveAssumed. */
  ghost predicate Apart(z: ZooState) {
    (forall id, i :: id in z.live && z.live[id].state == STATE_NO && 0 <= i < |z.sink| ==>
       !AssumedClash(z.live[id].props, z.sink[i].props)) &&
    (forall i :: 0 <= i < |z.sink| ==> NoNewEnd(z.live, z.sink[i].props))
  }

  /** The settled entities never saw x as a third end. */
  ghost predicate NoNewEnd(live: map<Id, Entity>, x: Props) {
    forall rd, id, jd {:trigger ThirdEnd(live[rd].props, live[id].props, live[jd].props, x)} ::
      (rd in live && id in live && jd in live && live[rd].state == live[id].state == live[jd].state == STATE_NO) ==>
        !ThirdEnd(live[rd].props, live[id].props, live[jd].props, x)
  }

  lemma MoveKeepsApart(z: ZooState, id: Id)
    requires LiveOk(z.live) && LiveAssumed(z.live) && Apart(z)
    ensures Apart(MoveToSink(z, id))
  {
    hide AssumedClash, ThirdEnd, UniqueKeys, RemoveKeys;
  }

  lemma AddKeepsApart(z: ZooState, p: Props, idx: nat, opts: Options)
    requires Inv(z) && WellTyped(p) && LiveAssumed(z.live) && Apart(z)
    ensures Apart(AddEntity(z, p, idx, opts))
  {
    hide AssumedClash, ThirdEnd, UniqueKeys, MoveToSink, InsertKeys, TakeIndex, IlkExhausted, TouchedAtBirth;
    var z1 := z.(ilk := TakeIndex(z.ilk, p, idx));
    MoveKeepsApart(z1, IdOf(p));
  }

  lemma TouchKeepsApart(z: ZooState, id: Id)
    requires Apart(z)
    ensures Apart(Touch(z, id)) && Touch(z, id).ver == z.ver
  {
    hide AssumedClash, ThirdEnd;
  }

  // ----- A round always meets the conditions of the full-recompute lemma -----

  ghost function DeltaOf(z: ZooState, before: set<Atom>): Delta {
    Delta(WithState(z.facts, STATE_NO), WithState(z.facts, STATE_ADD), WithState(z.facts, STATE_DEL), before)
  }

  lemma FactOrigin(z: ZooState, a: Atom, state: int)
    requires Inv(z) && a in WithState(z.facts, state)
    ensures state == STATE_DEL ==> exists i :: 0 <= i < |z.sink| && AtomOf(z.sink[i]) == a && z.sink[i].touched
    ensures state != STATE_DEL ==>
      exists id :: id in z.live && AtomOf(z.live[id]) == a && z.live[id].state == state && z.live[id].touched
  {
    hide UniqueKeys, SlotOf, OwnsKeys, DelNoSeparate, IlkSeparate;
    var f :| f in z.facts && f.state == state && a == Atom(f.props, f.ilk);
  }

  lemma PublishedIs(z: ZooState)
    requires Inv(z)
    ensures Published(z.live) == WithState(z.facts, STATE_NO) + WithState(z.facts, STATE_ADD)
  {
    hide UniqueKeys, SlotOf, OwnsKeys, DelNoSeparate, IlkSeparate;
    forall a | a in Published(z.live)
      ensures a in WithState(z.facts, STATE_NO) + WithState(z.facts, STATE_ADD)
    {
      var id :| id in z.live && z.live[id].touched && a == AtomOf(z.live[id]);
      assert z.live[id].row in z.facts;
    }
    forall a | a in WithState(z.facts, STATE_NO) + WithState(z.facts, STATE_ADD) ensures a in Published(z.live) {
      FactOrigin(z, a, if a in WithState(z.facts, STATE_NO) then STATE_NO else STATE_ADD);
    }
  }

  lemma LivePairApart(z: ZooState, id: Id, jd: Id)
    requires Inv(z) && LiveAssumed(z.live) && id in z.live && jd in z.live && id != jd
    ensures !Clash(AtomOf(z.live[id]), AtomOf(z.live[jd]))
  {
    LiveKeysDistinct(z.live, z.idxmap);
    assert !SameIndex(z.live[id], z.live[jd]);
    hide SharesKey, SlotOf, AssumedClash;
  }

  lemma LiveDeadApart(z: ZooState, id: Id, i: nat)
    requires Inv(z) && Apart(z) && id in z.live && z.live[id].state == STATE_NO && i < |z.sink|
    ensures !Clash(AtomOf(z.live[id]), AtomOf(z.sink[i])) && AtomOf(z.live[id]) != AtomOf(z.sink[i])
  {
    assert !SharesKey(z.live[id].props, z.sink[i].props);
    assert !SameIndex(z.live[id], z.sink[i]);
    hide UniqueKeys, SlotOf, AssumedClash;
  }

  lemma SettledAndGone(z: ZooState, a: Atom, x: Atom)
    requires Inv(z) && Apart(z) && a in WithState(z.facts, STATE_NO) && x in WithState(z.facts, STATE_DEL)
    ensures !Clash(a, x) && a != x
  {
    FactOrigin(z, a, STATE_NO);
    FactOrigin(z, x, STATE_DEL);
    var id :| id in z.live && AtomOf(z.live[id]) == a && z.live[id].state == STATE_NO;
    var i :| 0 <= i < |z.sink| && AtomOf(z.sink[i]) == x;
    hide Inv, Apart, Clash, WithState;
    LiveDeadApart(z, id, i);
  }

  lemma NoThirdEnd(z: ZooState, r: Atom, a: Atom, b: Atom, x: Atom)
    requires Inv(z) && Apart(z) && {r, a, b} <= WithState(z.facts, STATE_NO) && x in WithState(z.facts, STATE_DEL)
    ensures !ThirdEnd(r.props, a.props, b.props, x.props)
  {
    hide Inv, ThirdEnd, WithState, AssumedClash;
    FactOrigin(z, r, STATE_NO);
    FactOrigin(z, a, STATE_NO);
    FactOrigin(z, b, STATE_NO);
    FactOrigin(z, x, STATE_DEL);
  }

  /** What the allocator handed out is below 64. */
  lemma PresentFits(z: ZooState)
    requires Inv(z)
    ensures IndicesFit(Present(z))
  {
    hide UniqueKeys, OwnsKeys, DelNoSeparate, FactsAgree, LiveOk, SinkOk, SameIndex, Entities.GroupOf;
    forall a | a in Present(z) && SlotOf(a.props, a.ilk).Some? ensures a.ilk < MAX_ILK {
      if id :| id in z.live && a == AtomOf(z.live[id]) {
        assert HoldsIndex(z.ilk, z.live[id]);
      } else {
        var i :| 0 <= i < |z.sink| && a == AtomOf(z.sink[i]);
        assert HoldsIndex(z.ilk, z.sink[i]);
      }
    }
  }

  lemma SettledPinned(z: ZooState)
    requires Inv(z) && LiveAssumed(z.live) && Apart(z)
    ensures var v := DeltaOf(z, {}); v.no !! v.del && Pinned(v.no, v.no + v.del)
  {
    hide Inv, Clash, ThirdEnd, Apart, LiveAssumed, WithState, Published, Present;
    var v := DeltaOf(z, {});
    forall a, x | a in v.no && x in v.del ensures !Clash(a, x) && a != x {
      SettledAndGone(z, a, x);
    }
    forall r, a, b, x | r in v.no && a in v.no && b in v.no && x in v.del
      ensures !ThirdEnd(r.props, a.props, b.props, x.props)
    {
      NoThirdEnd(z, r, a, b, x);
    }
    PublishedIs(z);
    PublishedPinned(z);
    PresentFits(z);
    DeltaIsPresent(z);
    assert v.no <= Published(z.live);
  }

  lemma PublishedPinned(z: ZooState)
    requires Inv(z) && LiveAssumed(z.live)
    ensures Pinned(Published(z.live), Published(z.live))
  {
    hide Inv, Clash, ThirdEnd, SlotOf;
    var s := Published(z.live);
    forall a, x | a in s && x in s && a != x ensures !Clash(a, x) {
      var id :| id in z.live && a == AtomOf(z.live[id]);
      var jd :| jd in z.live && x == AtomOf(z.live[jd]);
      LivePairApart(z, id, jd);
    }
    PresentFits(z);
    PublishedIsPresent(z);
  }

  lemma PublishedIsPresent(z: ZooState)
    ensures Published(z.live) <= Present(z)
  {
  }

  lemma DeltaIsPresent(z: ZooState)
    requires Inv(z)
    ensures var v := DeltaOf(z, {}); v.no + v.add + v.del <= Present(z)
  {
    hide Inv;
    var v := DeltaOf(z, {});
    forall a | a in v.no + v.add + v.del ensures a in Present(z) {
      FactOrigin(z, a, if a in v.no then STATE_NO else if a in v.add then STATE_ADD else STATE_DEL);
    }
  }

  lemma RoundIsSound(z: ZooState, before: set<Atom>, sys: Uuid)
    requires Inv(z) && Assumed(z, sys) && Apart(z)
    requires WithState(z.facts, STATE_NO) <= before <= WithState(z.facts, STATE_NO) + WithState(z.facts, STATE_DEL)
    ensures Splits(z.facts, DeltaOf(z, before)) && Sound(DeltaOf(z, before), sys)
    ensures RoutesAssumed(DeltaOf(z, before))
    ensures DeltaOf(z, before).no + DeltaOf(z, before).add == Published(z.live)
  {
    hide Inv, Pinned, Config, Present, Published, WithState, LiveAssumed, Apart, RoutesConfigured, RoutesAssumed;
    var v := DeltaOf(z, before);
    SettledPinned(z);
    PublishedPinned(z);
    PublishedIs(z);
    FactStates(z);
    DeltaIsPresent(z);
    ConfigSmaller(Present(z), v.no + v.del, sys);
    ConfigSmaller(Present(z), v.no + v.add, sys);
    RoutesAreAssumed(z, v);
  }

  lemma RoutesAreAssumed(z: ZooState, v: Delta)
    requires RoutesConfigured(z) && v.no + v.add == Published(z.live) && v.no + v.add + v.del <= Present(z)
    ensures RoutesAssumed(v)
  {
    hide SameGroup, WellTyped, Net;
    forall r, q | r in Published(z.live) && q in Published(z.live) && SameGroup(r.props, q.props)
      ensures r.props.Lsr? && q.props.Lsr? && r.props.nextHop == q.props.nextHop
    {
      var id :| id in z.live && r == AtomOf(z.live[id]);
      var jd :| jd in z.live && q == AtomOf(z.live[jd]);
      GroupedAreRoutes(r.props, q.props);
    }
  }

  lemma GroupedAreRoutes(p: Props, q: Props)
    requires SameGroup(p, q)
    ensures p.Lsr? && q.Lsr?
  {
  }

  lemma FactStates(z: ZooState)
    requires Inv(z)
    ensures forall f :: f in z.facts ==> f.state in {STATE_NO, STATE_ADD, STATE_DEL}
  {
    hide UniqueKeys, SlotOf, OwnsKeys, DelNoSeparate, IlkSeparate;
  }

  lemma ConfigSmaller(X: set<Atom>, Y: set<Atom>, sys: Uuid)
    requires Config(X, sys) && Y <= X
    ensures Config(Y, sys)
  {
  }

  // ----- Runs -----

  /** `installed` records what the last round published. */
  datatype AgentState = AgentState(zoo: ZooState, table: FlowTable, started: bool, seen: nat, installed: set<Atom>)

  datatype Step =
    | AddStep(p: Props, idx: nat)
    | DeleteStep(id: Id)
    | UnknownDstStep(ip: nat, lsps: seq<Id>, chassis: seq<Id>, lflows: seq<LFlow>)
    | PollStep(lflows: seq<LFlow>)
    | ForceStep(lflows: seq<LFlow>)

  function TouchAll(z: ZooState, ids: seq<Id>): ZooState {
    if ids == [] then z else Touch(TouchAll(z, ids[..|ids| - 1]), ids[|ids| - 1])
  }

  /** What add_entity touches after it accepted an entity: the chassis of a new
      router, or a new chassis that some router is pinned on. */
  function GatewayOf(z: ZooState, p: Props, opts: Options): seq<Id> {
    if !opts.ondemand || IdOf(p) !in z.live || z.live[IdOf(p)].props != p then []
    else if p.Lr? && p.lrChassis.Some? then [Id(TypeChassis, p.lrChassis.value)]
    else if p.Chassis? &&
      exists id :: id in z.live && z.live[id].props.Lr? && z.live[id].props.lrChassis == Some(p.uuid)
    then [IdOf(p)]
    else []
  }

  /** add_entity as a whole: nothing is touched unless the entity was accepted. */
  function AddAndTouch(z: ZooState, p: Props, idx: nat, opts: Options): ZooState
    requires WellTyped(p)
  {
    var z1 := AddEntity(z, p, idx, opts);
    if z1.ver == z.ver then z1 else TouchAll(z1, GatewayOf(z1, p, opts))
  }

  /** update_ovs_side: the first round replaces whatever the switch held. */
  function Round(a: AgentState, lflows: seq<LFlow>): AgentState {
    a.(table := if a.started then Commit(a.table, lflows) else AddFlows(map[], FlowsToAdd(lflows)),
       started := true, zoo := SweepZoo(a.zoo), installed := Published(a.zoo.live))
  }

  /** need_recompute: a round runs only when the zoo's version moved. */
  function Poll(a: AgentState, lflows: seq<LFlow>): AgentState {
    if a.zoo.ver == a.seen then a else Round(a.(seen := a.zoo.ver), lflows)
  }

  /** process_unknow_dst: touch the ports with the address and the chassis that they
      are on; a round runs only if one of these chassis is known. */
  function UnknownDst(a: AgentState, lsps: seq<Id>, chassis: seq<Id>, lflows: seq<LFlow>): AgentState {
    var b := a.(zoo := TouchAll(TouchAll(a.zoo, lsps), chassis));
    if chassis == [] then b else Round(b, lflows)
  }

  function Next(a: AgentState, step: Step, opts: Options): AgentState
    requires step.AddStep? ==> WellTyped(step.p)
  {
    match step
    case AddStep(p, idx) => a.(zoo := AddAndTouch(a.zoo, p, idx, opts))
    case DeleteStep(id) => a.(zoo := MoveToSink(a.zoo, id))
    case UnknownDstStep(_, lsps, chassis, lflows) => UnknownDst(a, lsps, chassis, lflows)
    case PollStep(lflows) => Poll(a, lflows)
    case ForceStep(lflows) => Round(a, lflows)
  }

  /** The ports with this address, and the known chassis that they are on. */
  ghost predicate Searched(z: ZooState, ip: nat, lsps: seq<Id>, chassis: seq<Id>) {
    (forall id :: id in lsps <==> id in z.live && z.live[id].props.Lsp? && z.live[id].props.ip == ip) &&
    (forall c :: c in chassis <==>
       c in z.live && c.etype == TypeChassis && exists id :: id in lsps && z.live[id].props.chassis == Some(c.uuid))
  }

  /** The allocator hands out a free index, and the rules are evaluated on the fact base. */
  ghost predicate Enabled(a: AgentState, step: Step, opts: Options) {
    match step
    case AddStep(p, idx) => WellTyped(p) && (ValidChoice(a.zoo.ilk, p, idx) || IlkExhausted(a.zoo.ilk, p))
    case DeleteStep(_) => true
    case UnknownDstStep(ip, lsps, chassis, lflows) =>
      (forall id :: id in lsps ==> id in a.zoo.live && a.zoo.live[id].props.Lsp?) &&
      Searched(a.zoo, ip, lsps, chassis) &&
      EnumeratesRules(lflows, TouchAll(TouchAll(a.zoo, lsps), chassis).facts, opts.systemId)
    case PollStep(lflows) => EnumeratesRules(lflows, a.zoo.facts, opts.systemId)
    case ForceStep(lflows) => EnumeratesRules(lflows, a.zoo.facts, opts.systemId)
  }

  /** The switch may hold anything before the agent starts. */
  ghost predicate Initial(a: AgentState) {
    a.zoo == EmptyZoo() && !a.started && a.seen == 0 && a.installed == {}
  }

  ghost predicate Runs(a: AgentState, steps: seq<Step>, b: AgentState, opts: Options)
    decreases |steps|
  {
    if steps == [] then a == b
    else
      Assumed(a.zoo, opts.systemId) && Enabled(a, steps[0], opts) && Runs(Next(a, steps[0], opts), steps[1..], b, opts)
  }

  ghost predicate Installed(a: AgentState) {
    var z := a.zoo;
    WithState(z.facts, STATE_NO) <= a.installed <= WithState(z.facts, STATE_NO) + WithState(z.facts, STATE_DEL)
  }

  /** An entity is untouched only if its class left it so. */
  ghost predicate BirthOk(live: map<Id, Entity>, opts: Options) {
    forall id :: id in live && TouchedAtBirth(live[id].props, opts) ==> live[id].touched
  }

  /** Everything but the table: what add, delete and touch keep by themselves. */
  ghost predicate ZooInv(a: AgentState, opts: Options) {
    Inv(a.zoo) && Apart(a.zoo) && Installed(a) && BirthOk(a.zoo.live, opts) && a.seen <= a.zoo.ver
  }

  /** When no round is due the table is exact for what is live now. */
  ghost predicate AgentInv(a: AgentState, opts: Options) {
    ZooInv(a, opts) && TableExact(if a.started then a.table else map[], a.installed, opts.systemId) &&
    (a.seen == a.zoo.ver && a.started ==> TableExact(a.table, Published(a.zoo.live), opts.systemId))
  }

  lemma MoveKeepsInstalled(a: AgentState, id: Id)
    requires Inv(a.zoo) && Installed(a)
    ensures Installed(a.(zoo := MoveToSink(a.zoo, id)))
  {
    hide UniqueKeys, RemoveKeys, OwnsKeys, DelNoSeparate, IlkSeparate;
    if id in a.zoo.live && a.zoo.live[id].touched {
      var e := a.zoo.live[id];
      var facts := MoveToSink(a.zoo, id).facts;
      var gone := Fact(e.props, e.ilk, STATE_DEL);
      assert facts == a.zoo.facts - {e.row} + {gone};
      forall x | x in a.installed ensures x in WithState(facts, STATE_NO) + WithState(facts, STATE_DEL) {
        var s := if x in WithState(a.zoo.facts, STATE_NO) then STATE_NO else STATE_DEL;
        var f :| f in a.zoo.facts && f.state == s && x == Atom(f.props, f.ilk);
        assert f == e.row || f in facts;
        assert gone in facts;
      }
    }
  }

  lemma NewFactKeepsInstalled(a: AgentState, f: Fact)
    requires Installed(a) && f.state == STATE_ADD
    ensures Installed(a.(zoo := a.zoo.(facts := a.zoo.facts + {f})))
  {
    var facts := a.zoo.facts + {f};
    assert WithState(facts, STATE_NO) == WithState(a.zoo.facts, STATE_NO);
    assert WithState(facts, STATE_DEL) == WithState(a.zoo.facts, STATE_DEL);
  }

  lemma AdmitKeepsInstalled(a: AgentState, e: Entity)
    requires Inv(a.zoo) && Installed(a) && e.row.state == STATE_ADD
    ensures Installed(a.(zoo := Admit(a.zoo, e)))
  {
    hide Inv, WithState, MoveToSink, InsertKeys, UniqueKeys;
    MoveKeepsInstalled(a, IdOf(e.props));
    NewFactKeepsInstalled(a.(zoo := MoveToSink(a.zoo, IdOf(e.props))), e.row);
  }

  lemma AddKeepsInstalled(a: AgentState, p: Props, idx: nat, opts: Options)
    requires Inv(a.zoo) && WellTyped(p) && Installed(a)
    requires ValidChoice(a.zoo.ilk, p, idx) || IlkExhausted(a.zoo.ilk, p)
    ensures Installed(a.(zoo := AddEntity(a.zoo, p, idx, opts)))
  {
    hide Inv, ValidChoice, IlkExhausted, SameAsLive, TakeIndex, Admit, WithState, TouchedAtBirth;
    if !SameAsLive(a.zoo, p) && !IlkExhausted(a.zoo.ilk, p) {
      TakeIndexIsFresh(a.zoo, p, idx, opts);
      AdmitKeepsInstalled(a.(zoo := a.zoo.(ilk := TakeIndex(a.zoo.ilk, p, idx))), NewEntity(p, idx, opts));
    }
  }

  lemma VersionGrows(z: ZooState, p: Props, idx: nat, opts: Options)
    requires WellTyped(p)
    ensures var z' := AddEntity(z, p, idx, opts);
      z'.ver > z.ver || (z'.ver == z.ver && z'.live == z.live && z'.sink == z.sink)
  {
    hide InsertKeys, UniqueKeys, TakeIndex, TouchedAtBirth, RemoveKeys, IlkExhausted, SameAsLive, Mark;
  }

  lemma RoundTable(a: AgentState, lflows: seq<LFlow>, sys: Uuid)
    requires Inv(a.zoo) && Apart(a.zoo) && Installed(a) && Assumed(a.zoo, sys)
    requires TableExact(if a.started then a.table else map[], a.installed, sys)
    requires EnumeratesRules(lflows, a.zoo.facts, sys)
    ensures TableExact(Round(a, lflows).table, Published(a.zoo.live), sys)
  {
    hide Inv, Pinned, Config, SweepZoo, Sound, Splits, AddFlows;
    RoundIsSound(a.zoo, a.installed, sys);
    assert DelFlows(map[], FlowsToDel(lflows)) == map[];
    RoundIsExact(if a.started then a.table else map[], lflows, a.zoo.facts, DeltaOf(a.zoo, a.installed), sys);
  }

  lemma SweepKeepsPublished(z: ZooState)
    requires Inv(z)
    ensures Published(SweepZoo(z).live) == Published(z.live)
  {
    hide Inv, SweepZoo;
    SweepKeepsInv(z);
    SameAtomsPublished(z.live, SweepZoo(z).live);
  }

  lemma SameAtomsPublished(live: map<Id, Entity>, live': map<Id, Entity>)
    requires live'.Keys == live.Keys
    requires forall id :: id in live ==>
      AtomOf(live'[id]) == AtomOf(live[id]) && live'[id].touched == live[id].touched
    ensures Published(live') == Published(live)
  {
    hide AtomOf;
    forall x | x in Published(live) ensures x in Published(live') {
      var id :| id in live && live[id].touched && x == AtomOf(live[id]);
      assert id in live' && AtomOf(live'[id]) == x;
    }
  }

  lemma TouchKeepsZooInv(a: AgentState, id: Id, opts: Options)
    requires ZooInv(a, opts)
    ensures ZooInv(a.(zoo := Touch(a.zoo, id)), opts) && Touch(a.zoo, id).ver == a.zoo.ver
  {
    hide Inv, Apart, Installed, Touch, BirthOk;
    TouchKeepsInv(a.zoo, id);
    TouchKeepsApart(a.zoo, id);
    TouchKeepsInstalled(a, id);
    TouchKeepsBirth(a.zoo, id, opts);
  }

  lemma TouchKeepsBirth(z: ZooState, id: Id, opts: Options)
    requires BirthOk(z.live, opts)
    ensures BirthOk(Touch(z, id).live, opts)
  {
    hide TouchedAtBirth;
  }

  lemma TouchKeepsInstalled(a: AgentState, id: Id)
    requires Inv(a.zoo) && Installed(a)
    ensures Installed(a.(zoo := Touch(a.zoo, id)))
  {
    hide Inv, WithState;
    if id in a.zoo.live && !a.zoo.live[id].touched {
      NewFactKeepsInstalled(a, Touch(a.zoo, id).live[id].row);
    }
  }

  lemma {:induction false} TouchAllKeepsZooInv(a: AgentState, ids: seq<Id>, opts: Options)
    requires ZooInv(a, opts)
    ensures ZooInv(a.(zoo := TouchAll(a.zoo, ids)), opts) && TouchAll(a.zoo, ids).ver == a.zoo.ver
  {
    hide ZooInv, Touch;
    if ids != [] {
      var init := ids[..|ids| - 1];
      TouchAllKeepsZooInv(a, init, opts);
      TouchKeepsZooInv(a.(zoo := TouchAll(a.zoo, init)), ids[|ids| - 1], opts);
    }
  }

  lemma AddKeepsBirth(z: ZooState, p: Props, idx: nat, opts: Options)
    requires WellTyped(p) && BirthOk(z.live, opts)
    ensures BirthOk(AddEntity(z, p, idx, opts).live, opts)
  {
    hide InsertKeys, UniqueKeys, TakeIndex, TouchedAtBirth, RemoveKeys, IlkExhausted, SameAsLive, Mark;
  }

  lemma AddKeepsZooInv(a: AgentState, p: Props, idx: nat, opts: Options)
    requires ZooInv(a, opts) && Assumed(a.zoo, opts.systemId)
    requires WellTyped(p) && (ValidChoice(a.zoo.ilk, p, idx) || IlkExhausted(a.zoo.ilk, p))
    ensures ZooInv(a.(zoo := AddEntity(a.zoo, p, idx, opts)), opts)
  {
    assert LiveAssumed(a.zoo.live);
    hide Inv, Apart, Installed, BirthOk, AddEntity, Assumed, ValidChoice, IlkExhausted, WellTyped;
    AddKeepsInv(a.zoo, p, idx, opts);
    AddKeepsApart(a.zoo, p, idx, opts);
    AddKeepsInstalled(a, p, idx, opts);
    AddKeepsBirth(a.zoo, p, idx, opts);
    VersionGrows(a.zoo, p, idx, opts);
  }

  lemma AddAndTouchVersion(z: ZooState, p: Props, idx: nat, opts: Options)
    requires WellTyped(p)
    ensures var y := AddAndTouch(z, p, idx, opts);
      y.ver >= AddEntity(z, p, idx, opts).ver ==> y.ver > z.ver || (y.ver == z.ver && y.live == z.live)
  {
    hide AddEntity, WellTyped, GatewayOf, TouchAll;
    VersionGrows(z, p, idx, opts);
  }

  lemma AddAndTouchKeepsZooInv(a: AgentState, p: Props, idx: nat, opts: Options)
    requires ZooInv(a, opts) && Assumed(a.zoo, opts.systemId) && Enabled(a, AddStep(p, idx), opts)
    ensures var z := AddAndTouch(a.zoo, p, idx, opts);
      ZooInv(a.(zoo := z), opts) && z.ver >= AddEntity(a.zoo, p, idx, opts).ver
  {
    hide ZooInv, AddEntity, ValidChoice, IlkExhausted, GatewayOf, WellTyped, TouchAll, Assumed;
    var b := a.(zoo := AddEntity(a.zoo, p, idx, opts));
    AddKeepsZooInv(a, p, idx, opts);
    TouchAllKeepsZooInv(b, GatewayOf(b.zoo, p, opts), opts);
  }

  lemma AddStepKeepsAgentInv(a: AgentState, p: Props, idx: nat, opts: Options)
    requires AgentInv(a, opts) && Assumed(a.zoo, opts.systemId) && Enabled(a, AddStep(p, idx), opts)
    ensures AgentInv(Next(a, AddStep(p, idx), opts), opts)
  {
    assert WellTyped(p);
    hide ZooInv, AddAndTouch, AddEntity, TableExact, Assumed, WellTyped, Published, Enabled;
    AddAndTouchKeepsZooInv(a, p, idx, opts);
    AddAndTouchVersion(a.zoo, p, idx, opts);
    SeenBelow(a, opts);
  }

  lemma SeenBelow(a: AgentState, opts: Options)
    requires ZooInv(a, opts)
    ensures a.seen <= a.zoo.ver && Inv(a.zoo) && Apart(a.zoo) && Installed(a)
  {
  }

  lemma DeleteKeepsZooInv(a: AgentState, id: Id, opts: Options)
    requires ZooInv(a, opts) && Assumed(a.zoo, opts.systemId)
    ensures ZooInv(a.(zoo := MoveToSink(a.zoo, id)), opts)
  {
    ZooInvParts(a, opts);
    assert LiveAssumed(a.zoo.live);
    hide Inv, Apart, Installed, BirthOk, Assumed, MoveToSink, LiveOk, LiveAssumed;
    MoveKeepsInv(a.zoo, id);
    MoveKeepsApart(a.zoo, id);
    MoveKeepsInstalled(a, id);
    MoveKeepsBirth(a.zoo, id, opts);
    MoveVersion(a.zoo, id);
  }

  lemma MoveKeepsBirth(z: ZooState, id: Id, opts: Options)
    requires BirthOk(z.live, opts)
    ensures BirthOk(MoveToSink(z, id).live, opts)
  {
    hide RemoveKeys, UniqueKeys, Mark, TouchedAtBirth;
  }

  lemma DeleteStepKeepsAgentInv(a: AgentState, id: Id, opts: Options)
    requires AgentInv(a, opts) && Assumed(a.zoo, opts.systemId)
    ensures AgentInv(Next(a, DeleteStep(id), opts), opts)
  {
    hide ZooInv, TableExact, Assumed, MoveToSink, Published;
    DeleteKeepsZooInv(a, id, opts);
    MoveVersion(a.zoo, id);
    SeenBelow(a, opts);
  }

  lemma MoveVersion(z: ZooState, id: Id)
    ensures MoveToSink(z, id).ver >= z.ver && (MoveToSink(z, id).ver == z.ver ==> MoveToSink(z, id) == z)
  {
    hide RemoveKeys, UniqueKeys, Mark;
  }

  lemma SweptIsApart(z: ZooState)
    requires z.sink == []
    ensures Apart(z)
  {
  }

  lemma SweptIsSettled(z: ZooState)
    requires Inv(z) && forall id :: id in z.live ==> z.live[id].state == STATE_NO
    ensures Published(z.live) == WithState(z.facts, STATE_NO)
  {
    hide Inv, WithState, Published;
    PublishedIs(z);
    forall x ensures x !in WithState(z.facts, STATE_ADD) {
      if x in WithState(z.facts, STATE_ADD) { FactOrigin(z, x, STATE_ADD); }
    }
  }

  lemma SweepKeepsVersion(z: ZooState)
    ensures SweepZoo(z).ver == z.ver
  {
    hide FactsWithout, IlkWithout, LiveFacts;
  }

  lemma SweepKeepsAll(z: ZooState, opts: Options)
    requires Inv(z) && BirthOk(z.live, opts)
    ensures var y := SweepZoo(z);
      Inv(y) && Apart(y) && BirthOk(y.live, opts) && y.ver == z.ver && Published(z.live) == WithState(y.facts, STATE_NO)
  {
    hide Inv, WithState, SweepZoo, Published, BirthOk, Apart;
    SweepKeepsVersion(z);
    SweepKeepsInv(z);
    SweepKeepsPublished(z);
    SweptIsApart(SweepZoo(z));
    SweptIsSettled(SweepZoo(z));
    SweepKeepsBirth(z, SweepZoo(z), opts);
  }

  lemma RoundKeepsZooInv(a: AgentState, lflows: seq<LFlow>, opts: Options)
    requires ZooInv(a, opts)
    ensures ZooInv(Round(a, lflows), opts)
  {
    hide Inv, WithState, Commit, AddFlows, FlowsToAdd, SweepZoo, Published, BirthOk, Apart;
    SweepKeepsAll(a.zoo, opts);
  }

  lemma SweepKeepsBirth(z: ZooState, y: ZooState, opts: Options)
    requires BirthOk(z.live, opts) && y.live.Keys == z.live.Keys
    requires forall id :: id in z.live ==> y.live[id] == UpdateDupData(z.live[id].(state := STATE_NO))
    ensures BirthOk(y.live, opts)
  {
    hide TouchedAtBirth;
  }

  lemma RoundKeepsAgentInv(a: AgentState, lflows: seq<LFlow>, opts: Options)
    requires ZooInv(a, opts) && Assumed(a.zoo, opts.systemId) && EnumeratesRules(lflows, a.zoo.facts, opts.systemId)
    requires TableExact(if a.started then a.table else map[], a.installed, opts.systemId)
    ensures AgentInv(Round(a, lflows), opts) && TableExact(Round(a, lflows).table, Published(a.zoo.live), opts.systemId)
  {
    RoundKeepsZooInv(a, lflows, opts);
    SeenBelow(a, opts);
    hide ZooInv, TableExact, Inv, Commit, EnumeratesRules, Assumed, Apart, Installed, Published, FactsWithout,
      IlkWithout;
    RoundTable(a, lflows, opts.systemId);
    SweepKeepsPublished(a.zoo);
  }

  // ----- Touched ports whose chassis is not known -----

  lemma {:induction false} TouchAllAt(z: ZooState, ids: seq<Id>)
    ensures var z' := TouchAll(z, ids);
      forall id :: (id in z'.live <==> id in z.live) &&
        (id in z.live ==>
           z'.live[id].props == z.live[id].props && z'.live[id].ilk == z.live[id].ilk &&
           (z'.live[id].touched <==> z.live[id].touched || id in ids))
  {
    if ids != [] {
      TouchAllAt(z, ids[..|ids| - 1]);
      assert forall id :: id in ids <==> id in ids[..|ids| - 1] || id == ids[|ids| - 1];
    }
  }

  /** The gateway of p: the chassis that the router p is pinned on, or the chassis p itself when
      a live router is pinned on it. */
  predicate IsGatewayOf(live: map<Id, Entity>, p: Props, id: Id) {
    id.etype == TypeChassis &&
    ((p.Lr? && p.lrChassis == Some(id.uuid)) ||
     (p.Chassis? && p.uuid == id.uuid &&
      exists j :: j in live && live[j].props.Lr? && live[j].props.lrChassis == Some(id.uuid)))
  }

  /** The add was not a repetition, and p is live after it. */
  predicate Accepts(z: ZooState, y: ZooState, p: Props) {
    !(IdOf(p) in z.live && z.live[IdOf(p)].props == p) && IdOf(p) in y.live && y.live[IdOf(p)].props == p
  }

  /** An on-demand agent touches the gateway of what it accepted, if it knows it, and nothing else. */
  lemma AddTouchesGateway(z: ZooState, p: Props, idx: nat, opts: Options)
    requires WellTyped(p)
    ensures var y, w := AddEntity(z, p, idx, opts), AddAndTouch(z, p, idx, opts);
      forall id :: (id in w.live <==> id in y.live) &&
        (id in y.live ==>
           w.live[id].props == y.live[id].props && w.live[id].ilk == y.live[id].ilk &&
           (w.live[id].touched <==>
              y.live[id].touched || (opts.ondemand && Accepts(z, y, p) && IsGatewayOf(y.live, p, id))))
  {
    hide AddEntity, WellTyped, TouchAll, IdOf, GatewayOf, IsGatewayOf;
    var y := AddEntity(z, p, idx, opts);
    AcceptsMeans(z, p, idx, opts);
    GatewayIs(y, p, opts);
    TouchAllAt(y, GatewayOf(y, p, opts));
  }

  lemma AcceptsMeans(z: ZooState, p: Props, idx: nat, opts: Options)
    requires WellTyped(p)
    ensures var y := AddEntity(z, p, idx, opts);
      Accepts(z, y, p) <==> y.ver != z.ver && IdOf(p) in y.live && y.live[IdOf(p)].props == p
  {
    hide AddEntity, WellTyped, MoveToSink, KeysFree, IlkExhausted, TouchedAtBirth, IdOf;
    AddInstalls(z, p, idx, opts);
    MoveVersion(z, IdOf(p));
  }

  lemma GatewayIs(z: ZooState, p: Props, opts: Options)
    ensures forall id :: id in GatewayOf(z, p, opts) <==>
      opts.ondemand && IdOf(p) in z.live && z.live[IdOf(p)].props == p && IsGatewayOf(z.live, p, id)
  {
  }

  /** A touched port without a known chassis adds nothing to any flow. */
  lemma TouchedAreInert(z: ZooState, ip: nat, lsps: seq<Id>, opts: Options)
    requires LiveOk(z.live) && BirthOk(z.live, opts)
    requires (forall id :: id in lsps ==> id in z.live && z.live[id].props.Lsp?) && Searched(z, ip, lsps, [])
    ensures OnlyInertAdded(Published(z.live), Published(TouchAll(z, lsps).live), opts.systemId)
  {
    var z' := TouchAll(z, lsps);
    TouchAllAt(z, lsps);
    var s, t := Published(z.live), Published(z'.live);
    forall x | x in s ensures x in t {
      var id :| id in z.live && z.live[id].touched && x == AtomOf(z.live[id]);
      assert id in z'.live && z'.live[id].touched && AtomOf(z'.live[id]) == x;
    }
    forall x | x in t && x !in s ensures Inert(x, t, opts.systemId) {
      var id :| id in z'.live && z'.live[id].touched && x == AtomOf(z'.live[id]);
      assert id in lsps && !z.live[id].touched;
      forall c | c in t && c.props.Chassis? ensures x.props.chassis != Some(c.props.uuid) {
        var jd :| jd in z'.live && z'.live[jd].touched && c == AtomOf(z'.live[jd]);
        assert jd == Id(TypeChassis, c.props.uuid) && jd !in [];
      }
    }
  }

  /** A port with the searched address, or a chassis that such a port is on. */
  predicate IsSearched(live: map<Id, Entity>, ip: nat, id: Id)
    requires id in live
  {
    (live[id].props.Lsp? && live[id].props.ip == ip) ||
    (id.etype == TypeChassis &&
     exists j :: j in live && live[j].props.Lsp? && live[j].props.ip == ip && live[j].props.chassis == Some(id.uuid))
  }

  lemma SweepKeepsTouched(z: ZooState)
    ensures var y := SweepZoo(z);
      forall id :: (id in y.live <==> id in z.live) && (id in z.live ==> y.live[id].touched == z.live[id].touched)
  {
  }

  /** An unknown destination touches the ports with its address and their known chassis,
      and nothing else. */
  lemma UnknownDstTouches(
    a: AgentState, ip: nat, lsps: seq<Id>, chassis: seq<Id>, lflows: seq<LFlow>, opts: Options)
    requires Enabled(a, UnknownDstStep(ip, lsps, chassis, lflows), opts)
    ensures var b := UnknownDst(a, lsps, chassis, lflows);
      forall id :: (id in b.zoo.live <==> id in a.zoo.live) &&
        (id in a.zoo.live ==>
           (b.zoo.live[id].touched <==> a.zoo.live[id].touched || IsSearched(a.zoo.live, ip, id)))
  {
    hide TouchAll, EnumeratesRules, SweepZoo;
    var z := TouchAll(a.zoo, lsps);
    TouchAllAt(a.zoo, lsps);
    TouchAllAt(z, chassis);
    SweepKeepsTouched(TouchAll(z, chassis));
    forall id | id in a.zoo.live ensures id in lsps || id in chassis <==> IsSearched(a.zoo.live, ip, id) {
    }
  }

  lemma UnknownDstKeepsAgentInv(
    a: AgentState, ip: nat, lsps: seq<Id>, chassis: seq<Id>, lflows: seq<LFlow>, opts: Options)
    requires AgentInv(a, opts) && Enabled(a, UnknownDstStep(ip, lsps, chassis, lflows), opts)
    requires Assumed(a.zoo, opts.systemId)
    ensures AgentInv(UnknownDst(a, lsps, chassis, lflows), opts)
  {
    var b := a.(zoo := TouchAll(a.zoo, lsps));
    var c := b.(zoo := TouchAll(b.zoo, chassis));
    hide ZooInv, TableExact, Assumed, EnumeratesRules, Round, Searched, TouchAll, Published;
    TouchAllKeepsZooInv(a, lsps, opts);
    TouchAllKeepsZooInv(b, chassis, opts);
    if chassis == [] {
      TouchNone(b.zoo);
      if a.seen == a.zoo.ver && a.started {
        ZooInvParts(a, opts);
        TouchedAreInert(a.zoo, ip, lsps, opts);
        InertKeepsTable(a.table, Published(a.zoo.live), Published(b.zoo.live), opts.systemId);
      }
    } else {
      TouchKeepsAssumed(a.zoo, lsps, opts.systemId);
      TouchKeepsAssumed(b.zoo, chassis, opts.systemId);
      RoundKeepsAgentInv(c, lflows, opts);
    }
  }

  lemma TouchNone(z: ZooState)
    ensures TouchAll(z, []) == z
  {
  }

  lemma ZooInvParts(a: AgentState, opts: Options)
    requires ZooInv(a, opts)
    ensures LiveOk(a.zoo.live) && BirthOk(a.zoo.live, opts)
  {
    hide UniqueKeys, SlotOf, TouchedAtBirth;
  }

  ghost predicate SameProps(live: map<Id, Entity>, live': map<Id, Entity>) {
    forall id :: (id in live' <==> id in live) && (id in live ==> live'[id].props == live[id].props)
  }

  lemma SamePropsKeepLive(live: map<Id, Entity>, live': map<Id, Entity>)
    requires SameProps(live, live') && LiveAssumed(live)
    ensures LiveAssumed(live')
  {
    hide AssumedClash, ThirdEnd;
  }

  lemma SamePropsKeepRoutes(z: ZooState, z': ZooState)
    requires SameProps(z.live, z'.live) && Present(z') == Present(z) && RoutesConfigured(z)
    ensures RoutesConfigured(z')
  {
    hide Present, WellTyped, Net;
  }

  /** Touching changes neither properties nor indices, which the assumptions are about. */
  lemma TouchKeepsAssumed(z: ZooState, ids: seq<Id>, sys: Uuid)
    requires Assumed(z, sys)
    ensures Assumed(TouchAll(z, ids), sys)
  {
    hide Config, LiveAssumed, RoutesConfigured, Present, TouchAll;
    var z' := TouchAll(z, ids);
    TouchAllAt(z, ids);
    TouchAllSink(z, ids);
    SamePresent(z, z');
    SamePropsKeepLive(z.live, z'.live);
    SamePropsKeepRoutes(z, z');
  }

  lemma {:induction false} TouchAllSink(z: ZooState, ids: seq<Id>)
    ensures TouchAll(z, ids).sink == z.sink
  {
    if ids != [] { TouchAllSink(z, ids[..|ids| - 1]); }
  }

  lemma SamePresent(z: ZooState, z': ZooState)
    requires z'.sink == z.sink
    requires forall id :: id in z'.live <==> id in z.live
    requires forall id :: id in z.live ==> AtomOf(z'.live[id]) == AtomOf(z.live[id])
    ensures Present(z') == Present(z)
  {
    var l, l' := set id | id in z.live :: AtomOf(z.live[id]), set id | id in z'.live :: AtomOf(z'.live[id]);
    forall x | x in l ensures x in l' {
      var id :| id in z.live && x == AtomOf(z.live[id]);
      assert id in z'.live && AtomOf(z'.live[id]) == x;
    }
    forall x | x in l' ensures x in l {
      var id :| id in z'.live && x == AtomOf(z'.live[id]);
      assert id in z.live && AtomOf(z.live[id]) == x;
    }
  }

  // ----- The invariant along a run -----

  lemma PollStepKeepsAgentInv(a: AgentState, lflows: seq<LFlow>, opts: Options)
    requires AgentInv(a, opts) && Assumed(a.zoo, opts.systemId) && EnumeratesRules(lflows, a.zoo.facts, opts.systemId)
    ensures AgentInv(Poll(a, lflows), opts)
    ensures Poll(a, lflows).started ==> TableExact(Poll(a, lflows).table, Published(a.zoo.live), opts.systemId)
  {
    SeenMoves(a, opts);
    hide ZooInv, TableExact, Assumed, EnumeratesRules, Round, Published;
    if a.zoo.ver != a.seen { RoundKeepsAgentInv(a.(seen := a.zoo.ver), lflows, opts); }
  }

  lemma SeenMoves(a: AgentState, opts: Options)
    requires ZooInv(a, opts)
    ensures ZooInv(a.(seen := a.zoo.ver), opts)
  {
    hide Inv, Apart, BirthOk;
  }

  lemma ForceStepKeepsAgentInv(a: AgentState, lflows: seq<LFlow>, opts: Options)
    requires AgentInv(a, opts) && Assumed(a.zoo, opts.systemId) && EnumeratesRules(lflows, a.zoo.facts, opts.systemId)
    ensures AgentInv(Round(a, lflows), opts)
  {
    hide ZooInv, TableExact, Assumed, EnumeratesRules, Round, Published;
    RoundKeepsAgentInv(a, lflows, opts);
  }

  lemma StepKeepsAgentInv(a: AgentState, step: Step, opts: Options)
    requires AgentInv(a, opts) && Assumed(a.zoo, opts.systemId) && Enabled(a, step, opts)
    ensures AgentInv(Next(a, step, opts), opts)
  {
    hide AgentInv, Assumed, EnumeratesRules, Searched, AddAndTouch, MoveToSink, UnknownDst, Poll, Round, TouchAll,
      WellTyped, ValidChoice, IlkExhausted;
    match step
    case AddStep(p, idx) => AddStepKeepsAgentInv(a, p, idx, opts);
    case DeleteStep(id) => DeleteStepKeepsAgentInv(a, id, opts);
    case UnknownDstStep(ip, lsps, chassis, lflows) => UnknownDstKeepsAgentInv(a, ip, lsps, chassis, lflows, opts);
    case PollStep(lflows) => PollStepKeepsAgentInv(a, lflows, opts);
    case ForceStep(lflows) => ForceStepKeepsAgentInv(a, lflows, opts);
  }

  lemma {:induction false} RunKeepsAgentInv(a: AgentState, steps: seq<Step>, b: AgentState, opts: Options)
    requires AgentInv(a, opts) && Runs(a, steps, b, opts)
    ensures AgentInv(b, opts)
    decreases |steps|
  {
    hide AgentInv, Next, Assumed, EnumeratesRules, ValidChoice, IlkExhausted, Searched, WellTyped;
    if steps != [] {
      StepKeepsAgentInv(a, steps[0], opts);
      RunKeepsAgentInv(Next(a, steps[0], opts), steps[1..], b, opts);
    }
  }

  lemma InitialAgentInv(a: AgentState, opts: Options)
    requires Initial(a)
    ensures AgentInv(a, opts)
  {
    NothingFromNothing(a.installed);
    NoBundleFromNothing(a.installed, opts.systemId);
  }

  lemma NothingFromNothing(s: set<Atom>)
    requires s == {}
    ensures forall d :: !Over(d, s)
  {
    forall d: Derivation ensures !Over(d, s) {
      assert Atoms(d)[0] !in s;
    }
  }

  lemma NoBundleFromNothing(s: set<Atom>, sys: Uuid)
    requires s == {}
    ensures forall g, lr, pin :: !HasBundle(s, sys, g, lr, pin)
  {
    forall g, lr, pin ensures !HasBundle(s, sys, g, lr, pin) {
      assert RouterAtoms(lr, pin)[0] !in s;
    }
  }

  /** Incremental equals full recompute. After any run from an empty zoo, a round
      leaves exactly the flows that the live, touched entities derive. */
  lemma ForcedRoundInstallsExactly(a: AgentState, steps: seq<Step>, b: AgentState, lflows: seq<LFlow>, opts: Options)
    requires Initial(a) && Runs(a, steps, b, opts)
    requires Assumed(b.zoo, opts.systemId) && EnumeratesRules(lflows, b.zoo.facts, opts.systemId)
    ensures TableExact(Round(b, lflows).table, Published(b.zoo.live), opts.systemId)
  {
    InitialAgentInv(a, opts);
    hide ZooInv, Assumed, EnumeratesRules, TableExact, Initial, Runs;
    RunKeepsAgentInv(a, steps, b, opts);
    RoundKeepsAgentInv(b, lflows, opts);
  }

  /** The same for a poll, whether it runs a round or skips it because the version did
      not move: once the agent has started, the table is exact after every poll. */
  lemma PollInstallsExactly(a: AgentState, steps: seq<Step>, b: AgentState, lflows: seq<LFlow>, opts: Options)
    requires Initial(a) && Runs(a, steps, b, opts)
    requires Assumed(b.zoo, opts.systemId) && EnumeratesRules(lflows, b.zoo.facts, opts.systemId)
    requires Poll(b, lflows).started
    ensures TableExact(Poll(b, lflows).table, Published(b.zoo.live), opts.systemId)
  {
    InitialAgentInv(a, opts);
    hide AgentInv, Assumed, EnumeratesRules, TableExact, Initial, Runs, Poll;
    RunKeepsAgentInv(a, steps, b, opts);
    PollStepKeepsAgentInv(b, lflows, opts);
  }
}
