// The entity zoo: live entities, the sink of deleted ones, the index of unique
// keys, the ILK index allocator and the fact base, and what every operation keeps.

module EntityZoo {
  import opened Common
  import opened Entities

  // ----- State and operations -----

  datatype ZooState = ZooState(
    live: map<Id, Entity>,
    sink: seq<Entity>,
    idxmap: map<UniqueKey, Props>,
    ilk: map<IlkGroup, set<nat>>,
    facts: set<Fact>,
    ver: nat)

  function EmptyZoo(): ZooState {
    ZooState(map[], [], map[], map[], {}, 0)
  }

  /** _insert_entity_idxmap: stops at the first key that is taken and leaves the
      keys inserted before it in place. */
  function InsertKeys(m: map<UniqueKey, Props>, keys: seq<UniqueKey>, p: Props): (bool, map<UniqueKey, Props>)
    decreases |keys|
  {
    if keys == [] then (true, m)
    else if keys[0] in m then (false, m)
    else InsertKeys(m[keys[0] := p], keys[1..], p)
  }

  /** _del_entity_idxmap: gives up at the first key that is missing. */
  function RemoveKeys(m: map<UniqueKey, Props>, keys: seq<UniqueKey>): map<UniqueKey, Props>
    decreases |keys|
  {
    if keys == [] || keys[0] !in m then m else RemoveKeys(m - {keys[0]}, keys[1..])
  }

  function MoveToSink(z: ZooState, id: Id): ZooState {
    if id !in z.live then z
    else
      var (facts, e) := Mark(z.facts, z.live[id], STATE_DEL);
      z.(live := z.live - {id}, sink := z.sink + [e], facts := facts,
         idxmap := RemoveKeys(z.idxmap, UniqueKeys(e.props)), ver := z.ver + 1)
  }

  function Taken(ilk: map<IlkGroup, set<nat>>, g: IlkGroup): set<nat> {
    if g in ilk then ilk[g] else {}
  }

  function Below(n: nat): (s: set<nat>)
    ensures forall i: nat :: i in s <==> i < n
    ensures |s| == n
  {
    if n == 0 then {} else Below(n - 1) + {n - 1}
  }

  /** _whole_idx_set. */
  function AllIndices(): set<nat> {
    Below(MAX_ILK)
  }

  /** _get_ilk_idx: the first member of a group gets 0, later ones any free index. */
  predicate ValidChoice(ilk: map<IlkGroup, set<nat>>, p: Props, idx: nat) {
    match SlotOf(p, idx)
    case None => idx == 0
    case Some(slot) => if slot.g in ilk then idx in AllIndices() - ilk[slot.g] else idx == 0
  }

  /** "too many ilk": the constructor raises and nothing changes. */
  predicate IlkExhausted(ilk: map<IlkGroup, set<nat>>, p: Props) {
    match SlotOf(p, 0)
    case None => false
    case Some(slot) => slot.g in ilk && AllIndices() - ilk[slot.g] == {}
  }

  lemma AllTaken(n: nat, taken: set<nat>)
    requires forall i :: i in taken ==> i < n
    ensures Below(n) - taken == {} <==> |taken| == n
  {
    var all := Below(n);
    hide Below;
    assert taken <= all;
    assert |all - taken| == n - |taken|;
  }

  /** A group holds 64 indices. */
  lemma ExhaustedIff(ilk: map<IlkGroup, set<nat>>, p: Props)
    requires IsIlk(p) && WellTyped(p) && forall i :: i in Taken(ilk, GroupOf(p)) ==> i < 64
    ensures IlkExhausted(ilk, p) <==> |Taken(ilk, GroupOf(p))| == 64
  {
    hide GroupOf, WellTyped, Below;
    AllTaken(64, Taken(ilk, GroupOf(p)));
    assert SlotOf(p, 0) == Some(Slot(GroupOf(p), 0));
    hide SlotOf;
  }

  function TakeIndex(ilk: map<IlkGroup, set<nat>>, p: Props, idx: nat): map<IlkGroup, set<nat>> {
    match SlotOf(p, idx)
    case None => ilk
    case Some(slot) => ilk[slot.g := Taken(ilk, slot.g) + {idx}]
  }

  predicate SameAsLive(z: ZooState, p: Props) {
    IdOf(p) in z.live && z.live[IdOf(p)].props == p
  }

  /** The steps of add_entity once the constructor succeeded: retire the entity
      with the same id, claim the unique keys, store and populate. */
  function Admit(z: ZooState, e: Entity): ZooState {
    var id := IdOf(e.props);
    var z1 := MoveToSink(z, id);
    var (ok, idxmap) := InsertKeys(z1.idxmap, UniqueKeys(e.props), e.props);
    if !ok then z1.(idxmap := idxmap)
    else z1.(idxmap := idxmap, live := z1.live[id := e], facts := AddClause(z1.facts, e), ver := z1.ver + 1)
  }

  function AddEntity(z: ZooState, p: Props, idx: nat, opts: Options): ZooState
    requires WellTyped(p)
  {
    if SameAsLive(z, p) || IlkExhausted(z.ilk, p) then z
    else Admit(z.(ilk := TakeIndex(z.ilk, p, idx)), NewEntity(p, idx, opts))
  }

  function Touch(z: ZooState, id: Id): ZooState {
    if id !in z.live || z.live[id].touched then z
    else
      var e := UpdateDupData(z.live[id].(touched := true, state := STATE_ADD));
      z.(live := z.live[id := e], facts := AddClause(z.facts, e))
  }

  /** _free_ilk_idx. */
  function FreeIndex(ilk: map<IlkGroup, set<nat>>, e: Entity): map<IlkGroup, set<nat>> {
    match SlotOf(e.props, e.ilk)
    case None => ilk
    case Some(slot) => if slot.g in ilk then ilk[slot.g := ilk[slot.g] - {e.ilk}] else ilk
  }

  /** _clean_sink on the first n entries: eliminate withdraws the row and frees the index. */
  function FactsWithout(facts: set<Fact>, sink: seq<Entity>): set<Fact> {
    if sink == [] then facts else FactsWithout(DelClause(facts, sink[0]), sink[1..])
  }

  function IlkWithout(ilk: map<IlkGroup, set<nat>>, sink: seq<Entity>): map<IlkGroup, set<nat>> {
    if sink == [] then ilk else IlkWithout(FreeIndex(ilk, sink[0]), sink[1..])
  }

  function CleanSink(z: ZooState): ZooState {
    z.(sink := [], facts := FactsWithout(z.facts, z.sink), ilk := IlkWithout(z.ilk, z.sink))
  }

  function Settled(e: Entity): Entity {
    if e.state == STATE_ADD then UpdateDupData(e.(state := STATE_NO)) else e
  }

  function LiveFacts(live: map<Id, Entity>): set<Fact> {
    set id | id in live && live[id].touched :: live[id].row
  }

  /** _sweep_entity_set: every ADD entity is marked NO. */
  function SweepLive(z: ZooState): ZooState {
    var live := map id | id in z.live :: Settled(z.live[id]);
    z.(live := live, facts := z.facts - LiveFacts(z.live) + LiveFacts(live))
  }

  function SweepZoo(z: ZooState): ZooState {
    SweepLive(CleanSink(z))
  }

  // ----- Invariants -----

  function SinkFacts(sink: seq<Entity>): set<Fact> {
    set i | 0 <= i < |sink| && sink[i].touched :: sink[i].row
  }

  ghost predicate EntityOk(e: Entity) {
    WellTyped(e.props) && e.row == Image(e)
  }

  ghost predicate LiveOk(live: map<Id, Entity>) {
    forall id :: id in live ==>
      IdOf(live[id].props) == id && EntityOk(live[id]) && live[id].state in {STATE_NO, STATE_ADD}
  }

  ghost predicate SinkOk(sink: seq<Entity>) {
    forall i :: 0 <= i < |sink| ==> EntityOk(sink[i]) && sink[i].state == STATE_DEL
  }

  /** Every live entity owns each of its entries of entity_idxmap. */
  ghost predicate OwnsKeys(live: map<Id, Entity>, idxmap: map<UniqueKey, Props>) {
    forall id, k :: id in live && k in UniqueKeys(live[id].props) ==>
      k in idxmap && idxmap[k] == live[id].props
  }

  predicate SharesKey(p: Props, q: Props) {
    IdOf(p) == IdOf(q) || exists k :: k in UniqueKeys(p) && k in UniqueKeys(q)
  }

  /** No deleted entity shares its id or a unique key with a settled live one. */
  ghost predicate DelNoSeparate(live: map<Id, Entity>, sink: seq<Entity>) {
    forall id, i :: id in live && live[id].state == STATE_NO && 0 <= i < |sink| ==>
      !SharesKey(live[id].props, sink[i].props)
  }

  predicate SameIndex(e: Entity, f: Entity) {
    SlotOf(e.props, e.ilk).Some? && SlotOf(e.props, e.ilk) == SlotOf(f.props, f.ilk)
  }

  predicate HoldsIndex(ilk: map<IlkGroup, set<nat>>, e: Entity) {
    match SlotOf(e.props, e.ilk)
    case None => true
    case Some(slot) => slot.g in ilk && slot.idx in ilk[slot.g] && slot.idx < MAX_ILK
  }

  /** Accepted entities of one group, live or in the sink, hold distinct indices below 64. */
  ghost predicate IlkSeparate(live: map<Id, Entity>, sink: seq<Entity>, ilk: map<IlkGroup, set<nat>>) {
    (forall id :: id in live ==> HoldsIndex(ilk, live[id])) &&
    (forall i :: 0 <= i < |sink| ==> HoldsIndex(ilk, sink[i])) &&
    (forall id, jd :: id in live && jd in live && id != jd ==> !SameIndex(live[id], live[jd])) &&
    (forall id, i :: id in live && 0 <= i < |sink| ==> !SameIndex(live[id], sink[i])) &&
    (forall i, j :: 0 <= i < j < |sink| ==> !SameIndex(sink[i], sink[j]))
  }

  /** The fact base is exactly the image of the touched entities. */
  ghost predicate FactsAgree(z: ZooState) {
    z.facts == LiveFacts(z.live) + SinkFacts(z.sink)
  }

  ghost predicate Inv(z: ZooState) {
    LiveOk(z.live) && SinkOk(z.sink) && OwnsKeys(z.live, z.idxmap) &&
    DelNoSeparate(z.live, z.sink) && IlkSeparate(z.live, z.sink, z.ilk) && FactsAgree(z)
  }

  // ----- Unique keys -----

  lemma {:induction false} RemoveKeysFrame(m: map<UniqueKey, Props>, keys: seq<UniqueKey>)
    ensures forall k :: k in m && k !in keys ==> k in RemoveKeys(m, keys) && RemoveKeys(m, keys)[k] == m[k]
    decreases |keys|
  {
    if keys != [] && keys[0] in m {
      RemoveKeysFrame(m - {keys[0]}, keys[1..]);
    }
  }

  lemma {:induction false} InsertKeysFrame(m: map<UniqueKey, Props>, keys: seq<UniqueKey>, p: Props)
    ensures forall k :: k in m ==> k in InsertKeys(m, keys, p).1 && InsertKeys(m, keys, p).1[k] == m[k]
    ensures InsertKeys(m, keys, p).0 ==>
      forall k :: k in keys ==> k !in m && k in InsertKeys(m, keys, p).1 && InsertKeys(m, keys, p).1[k] == p
    decreases |keys|
  {
    if keys != [] && keys[0] !in m {
      InsertKeysFrame(m[keys[0] := p], keys[1..], p);
      assert forall k :: k in keys ==> k == keys[0] || k in keys[1..];
    }
  }

  lemma KeysOfOneDiffer(p: Props)
    ensures forall i, j :: 0 <= i < j < |UniqueKeys(p)| ==> UniqueKeys(p)[i] != UniqueKeys(p)[j]
  {
    var keys := UniqueKeys(p);
    assert |keys| == 2 ==> keys[0].name[|keys[0].name| - 1] != keys[1].name[|keys[1].name| - 1];
  }

  lemma {:induction false} RemoveAllKeys(m: map<UniqueKey, Props>, keys: seq<UniqueKey>)
    requires forall k :: k in keys ==> k in m
    requires forall i, j :: 0 <= i < j < |keys| ==> keys[i] != keys[j]
    ensures forall k :: k in RemoveKeys(m, keys) <==> k in m && k !in keys
    decreases |keys|
  {
    if keys != [] {
      RemoveAllKeys(m - {keys[0]}, keys[1..]);
    }
  }

  lemma {:induction false} InsertFreeKeys(m: map<UniqueKey, Props>, keys: seq<UniqueKey>, p: Props)
    requires forall k :: k in keys ==> k !in m
    requires forall i, j :: 0 <= i < j < |keys| ==> keys[i] != keys[j]
    ensures InsertKeys(m, keys, p).0 && forall k :: k in InsertKeys(m, keys, p).1 <==> k in m || k in keys
    decreases |keys|
  {
    if keys != [] {
      InsertFreeKeys(m[keys[0] := p], keys[1..], p);
    }
  }

  lemma OwnersDiffer(idxmap: map<UniqueKey, Props>, p: Props, q: Props)
    requires IdOf(p) != IdOf(q)
    requires forall k :: k in UniqueKeys(p) ==> k in idxmap && idxmap[k] == p
    requires forall k :: k in UniqueKeys(q) ==> k in idxmap && idxmap[k] == q
    ensures !SharesKey(p, q)
  {
    hide UniqueKeys;
  }

  lemma LiveKeysDistinct(live: map<Id, Entity>, idxmap: map<UniqueKey, Props>)
    requires LiveOk(live) && OwnsKeys(live, idxmap)
    ensures forall id, jd :: id in live && jd in live && id != jd ==> !SharesKey(live[id].props, live[jd].props)
  {
    hide UniqueKeys, EntityOk, SharesKey;
    forall id, jd | id in live && jd in live && id != jd
      ensures !SharesKey(live[id].props, live[jd].props)
    {
      OwnersDiffer(idxmap, live[id].props, live[jd].props);
    }
  }

  /** No key of the entity is taken. */
  predicate KeysFree(m: map<UniqueKey, Props>, p: Props) {
    forall k :: k in UniqueKeys(p) ==> k !in m
  }

  // ----- What each operation keeps -----

  lemma MoveIs(z: ZooState, id: Id)
    requires id in z.live
    ensures var z', e := MoveToSink(z, id), Mark(z.facts, z.live[id], STATE_DEL).1;
      z'.live == z.live - {id} && z'.sink == z.sink + [e] && e.props == z.live[id].props && e.ilk == z.live[id].ilk &&
      z'.idxmap == RemoveKeys(z.idxmap, UniqueKeys(e.props)) && z'.ilk == z.ilk
  {
    hide UniqueKeys, RemoveKeys;
  }

  lemma RemovalKeepsOwners(live: map<Id, Entity>, idxmap: map<UniqueKey, Props>, id: Id)
    requires LiveOk(live) && OwnsKeys(live, idxmap) && id in live
    ensures OwnsKeys(live - {id}, RemoveKeys(idxmap, UniqueKeys(live[id].props)))
  {
    hide UniqueKeys, EntityOk;
    LiveKeysDistinct(live, idxmap);
    RemoveKeysFrame(idxmap, UniqueKeys(live[id].props));
    var idxmap' := RemoveKeys(idxmap, UniqueKeys(live[id].props));
    hide RemoveKeys;
    forall jd, k | jd in live - {id} && k in UniqueKeys(live[jd].props)
      ensures k in idxmap' && idxmap'[k] == live[jd].props
    {
      assert !SharesKey(live[jd].props, live[id].props);
    }
  }

  lemma RemovalKeepsSeparate(live: map<Id, Entity>, sink: seq<Entity>, id: Id, e: Entity)
    requires DelNoSeparate(live, sink) && id in live && e.props == live[id].props
    requires forall jd :: jd in live && jd != id ==> !SharesKey(live[jd].props, live[id].props)
    ensures DelNoSeparate(live - {id}, sink + [e])
  {
    hide SharesKey;
  }

  lemma MoveKeepsKeys(z: ZooState, id: Id)
    requires LiveOk(z.live) && OwnsKeys(z.live, z.idxmap) && DelNoSeparate(z.live, z.sink) && id in z.live
    ensures OwnsKeys(MoveToSink(z, id).live, MoveToSink(z, id).idxmap)
    ensures DelNoSeparate(MoveToSink(z, id).live, MoveToSink(z, id).sink)
  {
    hide UniqueKeys, SharesKey, OwnsKeys, DelNoSeparate, LiveOk, MoveToSink, RemoveKeys, Mark;
    LiveKeysDistinct(z.live, z.idxmap);
    MoveIs(z, id);
    RemovalKeepsOwners(z.live, z.idxmap, id);
    RemovalKeepsSeparate(z.live, z.sink, id, Mark(z.facts, z.live[id], STATE_DEL).1);
  }

  lemma LiveFactsWithout(live: map<Id, Entity>, id: Id)
    requires LiveOk(live) && id in live
    ensures LiveFacts(live - {id}) == LiveFacts(live) - (if live[id].touched then {live[id].row} else {})
  {
    forall f | f in LiveFacts(live) && !(live[id].touched && f == live[id].row)
      ensures f in LiveFacts(live - {id})
    {
      var jd :| jd in live && live[jd].touched && live[jd].row == f;
      assert jd in live - {id};
    }
  }

  lemma LiveFactsWith(live: map<Id, Entity>, id: Id, e: Entity)
    ensures LiveFacts(live[id := e]) == LiveFacts(live - {id}) + (if e.touched then {e.row} else {})
  {
    var live' := live[id := e];
    forall f | f in LiveFacts(live - {id}) ensures f in LiveFacts(live') {
      var jd :| jd in live - {id} && live[jd].touched && live[jd].row == f;
      assert jd in live' && live'[jd] == live[jd];
    }
    forall f | f in LiveFacts(live') && !(e.touched && f == e.row) ensures f in LiveFacts(live - {id}) {
      var jd :| jd in live' && live'[jd].touched && live'[jd].row == f;
      assert jd in live - {id};
    }
    if e.touched { assert live'[id] == e; }
  }

  lemma SinkFactsAppend(sink: seq<Entity>, e: Entity)
    ensures SinkFacts(sink + [e]) == SinkFacts(sink) + (if e.touched then {e.row} else {})
  {
    var all := sink + [e];
    forall f | f in SinkFacts(sink) ensures f in SinkFacts(all) {
      var i :| 0 <= i < |sink| && sink[i].touched && sink[i].row == f;
      assert all[i] == sink[i];
    }
    if e.touched { assert all[|sink|] == e; }
  }

  lemma LiveAndSinkFactsApart(live: map<Id, Entity>, sink: seq<Entity>)
    requires LiveOk(live) && SinkOk(sink)
    ensures LiveFacts(live) !! SinkFacts(sink)
  {
  }

  lemma MoveKeepsFacts(z: ZooState, id: Id)
    requires LiveOk(z.live) && SinkOk(z.sink) && FactsAgree(z) && id in z.live
    ensures FactsAgree(MoveToSink(z, id))
  {
    hide UniqueKeys;
    var e := Mark(z.facts, z.live[id], STATE_DEL).1;
    LiveFactsWithout(z.live, id);
    SinkFactsAppend(z.sink, e);
    LiveAndSinkFactsApart(z.live, z.sink);
  }

  lemma MoveKeepsIndices(z: ZooState, id: Id)
    requires IlkSeparate(z.live, z.sink, z.ilk) && id in z.live
    ensures IlkSeparate(MoveToSink(z, id).live, MoveToSink(z, id).sink, z.ilk)
  {
    hide UniqueKeys, RemoveKeys, SlotOf;
  }

  lemma MoveKeepsInv(z: ZooState, id: Id)
    requires Inv(z)
    ensures Inv(MoveToSink(z, id))
  {
    hide UniqueKeys, RemoveKeys, OwnsKeys, DelNoSeparate, IlkSeparate, LiveFacts, SinkFacts;
    if id in z.live {
      MoveKeepsKeys(z, id);
      MoveKeepsFacts(z, id);
      MoveKeepsIndices(z, id);
    }
  }

  /** A live map with the same entities, up to their state, touched bit and row. */
  ghost predicate SameEntities(live: map<Id, Entity>, live': map<Id, Entity>) {
    live'.Keys == live.Keys &&
    forall id :: id in live ==> live'[id].props == live[id].props && live'[id].ilk == live[id].ilk
  }

  lemma SameEntitiesOwn(live: map<Id, Entity>, live': map<Id, Entity>, idxmap: map<UniqueKey, Props>)
    requires OwnsKeys(live, idxmap) && SameEntities(live, live')
    ensures OwnsKeys(live', idxmap)
  {
    hide UniqueKeys;
  }

  lemma SameEntitiesKeep(z: ZooState, live': map<Id, Entity>)
    requires Inv(z) && SameEntities(z.live, live') && LiveOk(live')
    ensures OwnsKeys(live', z.idxmap) && IlkSeparate(live', z.sink, z.ilk)
  {
    hide UniqueKeys, SlotOf, DelNoSeparate, FactsAgree, OwnsKeys, LiveOk, SinkOk;
    SameEntitiesOwn(z.live, live', z.idxmap);
    forall id, jd | id in live' && jd in live' && id != jd ensures !SameIndex(live'[id], live'[jd]) {
      assert !SameIndex(z.live[id], z.live[jd]);
    }
    forall id, i | id in live' && 0 <= i < |z.sink| ensures !SameIndex(live'[id], z.sink[i]) {
      assert !SameIndex(z.live[id], z.sink[i]);
    }
    forall id | id in live' ensures HoldsIndex(z.ilk, live'[id]) {
      assert HoldsIndex(z.ilk, z.live[id]);
    }
  }

  lemma InsertKeepsOwners(live: map<Id, Entity>, idxmap: map<UniqueKey, Props>, e: Entity)
    requires LiveOk(live) && OwnsKeys(live, idxmap) && IdOf(e.props) !in live
    ensures var (ok, idxmap') := InsertKeys(idxmap, UniqueKeys(e.props), e.props);
      OwnsKeys(live, idxmap') && (ok ==> OwnsKeys(live[IdOf(e.props) := e], idxmap'))
  {
    hide UniqueKeys;
    InsertKeysFrame(idxmap, UniqueKeys(e.props), e.props);
  }

  ghost predicate FreshIndex(z: ZooState, e: Entity)
  {
    HoldsIndex(z.ilk, e) &&
    (forall id :: id in z.live ==> !SameIndex(e, z.live[id])) &&
    (forall i :: 0 <= i < |z.sink| ==> !SameIndex(e, z.sink[i]))
  }

  lemma InsertKeepsIndices(z: ZooState, e: Entity)
    requires IlkSeparate(z.live, z.sink, z.ilk) && FreshIndex(z, e) && IdOf(e.props) !in z.live
    ensures IlkSeparate(z.live[IdOf(e.props) := e], z.sink, z.ilk)
  {
    hide SlotOf;
  }

  lemma MoveKeepsFresh(z: ZooState, id: Id, e: Entity)
    requires FreshIndex(z, e)
    ensures FreshIndex(MoveToSink(z, id), e)
  {
    hide SlotOf, UniqueKeys, RemoveKeys;
  }

  lemma MovedIsGone(z: ZooState, id: Id)
    ensures id !in MoveToSink(z, id).live
  {
    hide UniqueKeys, RemoveKeys;
  }

  lemma AdmitResult(z: ZooState, e: Entity)
    ensures var y, z' := MoveToSink(z, IdOf(e.props)), Admit(z, e);
      var (ok, idxmap) := InsertKeys(y.idxmap, UniqueKeys(e.props), e.props);
      z'.idxmap == idxmap && z'.live == (if ok then y.live[IdOf(e.props) := e] else y.live) &&
      z'.sink == y.sink && z'.ilk == y.ilk && z'.ver == y.ver + (if ok then 1 else 0) &&
      z'.facts == if ok then AddClause(y.facts, e) else y.facts
  {
    hide UniqueKeys, InsertKeys, MoveToSink;
  }

  /** The state after an accepted entity was stored and published. */
  lemma AcceptedKeepsInv(z: ZooState, e: Entity, idxmap: map<UniqueKey, Props>)
    requires Inv(z) && EntityOk(e) && e.state == STATE_ADD && FreshIndex(z, e) && IdOf(e.props) !in z.live
    requires OwnsKeys(z.live[IdOf(e.props) := e], idxmap)
    ensures Inv(z.(idxmap := idxmap, live := z.live[IdOf(e.props) := e], facts := AddClause(z.facts, e),
      ver := z.ver + 1))
  {
    hide UniqueKeys, SlotOf, SharesKey, SameIndex, HoldsIndex, LiveFacts, SinkFacts, OwnsKeys, IlkSeparate, FreshIndex;
    var id := IdOf(e.props);
    InsertKeepsIndices(z, e);
    LiveFactsWith(z.live, id, e);
    assert z.live - {id} == z.live;
  }

  lemma AdmitKeepsInv(z: ZooState, e: Entity)
    requires Inv(z) && EntityOk(e) && e.state == STATE_ADD && FreshIndex(z, e)
    ensures Inv(Admit(z, e))
  {
    hide UniqueKeys, InsertKeys, OwnsKeys, DelNoSeparate, IlkSeparate, LiveFacts, SinkFacts, SinkOk, EntityOk,
      FreshIndex;
    var id := IdOf(e.props);
    var z1 := MoveToSink(z, id);
    hide MoveToSink;
    MovedIsGone(z, id);
    MoveKeepsInv(z, id);
    MoveKeepsFresh(z, id, e);
    InsertKeepsOwners(z1.live, z1.idxmap, e);
    var (ok, idxmap) := InsertKeys(z1.idxmap, UniqueKeys(e.props), e.props);
    if ok { AcceptedKeepsInv(z1, e, idxmap); }
  }

  lemma TakeIndexHolds(ilk: map<IlkGroup, set<nat>>, p: Props, idx: nat, opts: Options, e: Entity)
    requires WellTyped(p) && ValidChoice(ilk, p, idx) && HoldsIndex(ilk, e)
    ensures HoldsIndex(TakeIndex(ilk, p, idx), e) && !SameIndex(NewEntity(p, idx, opts), e)
  {
    hide GroupOf, TouchedAtBirth, AllIndices;
  }

  lemma NewEntityHolds(ilk: map<IlkGroup, set<nat>>, p: Props, idx: nat, opts: Options)
    requires WellTyped(p) && ValidChoice(ilk, p, idx)
    ensures EntityOk(NewEntity(p, idx, opts)) && HoldsIndex(TakeIndex(ilk, p, idx), NewEntity(p, idx, opts))
  {
    hide GroupOf, TouchedAtBirth;
  }

  lemma TakeIndexIsFresh(z: ZooState, p: Props, idx: nat, opts: Options)
    requires Inv(z) && WellTyped(p) && ValidChoice(z.ilk, p, idx)
    ensures var z1 := z.(ilk := TakeIndex(z.ilk, p, idx));
      Inv(z1) && EntityOk(NewEntity(p, idx, opts)) && FreshIndex(z1, NewEntity(p, idx, opts))
  {
    hide IlkSeparate, EntityOk, FreshIndex, HoldsIndex, SameIndex, TakeIndex, ValidChoice, NewEntity, OwnsKeys,
      DelNoSeparate, LiveOk, SinkOk, LiveFacts, SinkFacts, WellTyped;
    NewEntityHolds(z.ilk, p, idx, opts);
    forall e: Entity | HoldsIndex(z.ilk, e)
      ensures HoldsIndex(TakeIndex(z.ilk, p, idx), e) && !SameIndex(NewEntity(p, idx, opts), e)
    {
      TakeIndexHolds(z.ilk, p, idx, opts, e);
    }
    MoreIndices(z, TakeIndex(z.ilk, p, idx), NewEntity(p, idx, opts));
  }

  /** An allocator that kept all indices and gave one to e that nobody had. */
  lemma MoreIndices(z: ZooState, ilk: map<IlkGroup, set<nat>>, e: Entity)
    requires IlkSeparate(z.live, z.sink, z.ilk) && HoldsIndex(ilk, e)
    requires forall f: Entity :: HoldsIndex(z.ilk, f) ==> HoldsIndex(ilk, f) && !SameIndex(e, f)
    ensures IlkSeparate(z.live, z.sink, ilk) && FreshIndex(z.(ilk := ilk), e)
  {
    hide HoldsIndex, SameIndex;
  }

  // ----- What an add installs -----

  lemma MoveRetires(z: ZooState, id: Id)
    ensures var y := MoveToSink(z, id);
      y.live == z.live - {id} && y.ilk == z.ilk && y.ver == z.ver + (if id in z.live then 1 else 0) &&
      if id in z.live then
        |y.sink| == |z.sink| + 1 && y.sink[..|z.sink|] == z.sink && y.sink[|z.sink|].props == z.live[id].props &&
        y.sink[|z.sink|].state == STATE_DEL
      else y == z
  {
    hide RemoveKeys, UniqueKeys;
    assert id !in z.live ==> z.live - {id} == z.live;
  }

  lemma MoveIgnoresIlk(z: ZooState, ilk: map<IlkGroup, set<nat>>, id: Id)
    ensures MoveToSink(z.(ilk := ilk), id) == MoveToSink(z, id).(ilk := ilk)
  {
    hide RemoveKeys, UniqueKeys, Mark;
  }

  lemma KeysAreInserted(m: map<UniqueKey, Props>, p: Props)
    ensures InsertKeys(m, UniqueKeys(p), p).0 <==> KeysFree(m, p)
  {
    hide UniqueKeys, InsertKeys;
    KeysOfOneDiffer(p);
    InsertKeysFrame(m, UniqueKeys(p), p);
    if KeysFree(m, p) { InsertFreeKeys(m, UniqueKeys(p), p); }
  }

  /** An add of new or changed properties: whatever had the id goes to the sink, and the entity
      is live afterwards, with the properties and the index it was given and new to the
      rules, if and only if its keys are free after that. Properties that are live
      already, or a full group, change nothing. */
  lemma AddInstalls(z: ZooState, p: Props, idx: nat, opts: Options)
    requires WellTyped(p)
    ensures var id, y := IdOf(p), AddEntity(z, p, idx, opts);
      if (id in z.live && z.live[id].props == p) || IlkExhausted(z.ilk, p) then y == z
      else
        var moved := MoveToSink(z, id);
        y.sink == moved.sink && y.ver == moved.ver + (if KeysFree(moved.idxmap, p) then 1 else 0) &&
        (forall jd :: jd != id ==> (jd in y.live <==> jd in z.live) && (jd in z.live ==> y.live[jd] == z.live[jd])) &&
        (id in z.live ==> |y.sink| == |z.sink| + 1 && y.sink[|z.sink|].props == z.live[id].props) &&
        (id in y.live <==> KeysFree(moved.idxmap, p)) &&
        (id in y.live ==>
           y.live[id].props == p && y.live[id].ilk == idx && y.live[id].state == STATE_ADD &&
           (y.live[id].touched <==> TouchedAtBirth(p, opts)) && y.facts == AddClause(moved.facts, y.live[id]))
  {
    hide UniqueKeys, InsertKeys, TakeIndex, IlkExhausted, TouchedAtBirth, MoveToSink, Admit, IdOf, KeysFree;
    var id, ilk := IdOf(p), TakeIndex(z.ilk, p, idx);
    AdmitResult(z.(ilk := ilk), NewEntity(p, idx, opts));
    MoveIgnoresIlk(z, ilk, id);
    MoveRetires(z, id);
    KeysAreInserted(MoveToSink(z, id).idxmap, p);
  }

  /** What an on-demand agent holds back: ports without a peer that are not bound to this
      chassis, and other chassis. */
  predicate HeldBack(p: Props, sys: Uuid) {
    (p.Lsp? && p.peer == None && p.chassis != Some(sys)) || (p.Chassis? && p.uuid != sys)
  }

  /** An accepted entity is a fact at once, unless an on-demand agent holds it back. */
  lemma AddPublishesIff(z: ZooState, p: Props, idx: nat, opts: Options)
    requires WellTyped(p) && !IlkExhausted(z.ilk, p) && !(IdOf(p) in z.live && z.live[IdOf(p)].props == p)
    requires KeysFree(MoveToSink(z, IdOf(p)).idxmap, p)
    ensures var y := AddEntity(z, p, idx, opts);
      IdOf(p) in y.live && (y.live[IdOf(p)].touched <==> !(opts.ondemand && HeldBack(p, opts.systemId))) &&
      (y.live[IdOf(p)].touched ==> Fact(p, idx, STATE_ADD) in y.facts)
  {
    hide UniqueKeys, InsertKeys, TakeIndex, IlkExhausted, MoveToSink, IdOf, KeysFree;
    AddInstalls(z, p, idx, opts);
    AdmittedRow(z, p, idx, opts);
  }

  lemma AdmittedRow(z: ZooState, p: Props, idx: nat, opts: Options)
    requires WellTyped(p) && !(IdOf(p) in z.live && z.live[IdOf(p)].props == p)
    ensures var y := AddEntity(z, p, idx, opts);
      y == z || (IdOf(p) in y.live && y.live[IdOf(p)].state == STATE_ADD ==>
                   y.live[IdOf(p)].row == Fact(p, idx, STATE_ADD))
  {
    hide UniqueKeys, InsertKeys, TakeIndex, TouchedAtBirth, RemoveKeys;
  }

  /** A change of an entity is installed if each of its keys was free or its own. */
  lemma ChangeInstalls(z: ZooState, p: Props, idx: nat, opts: Options)
    requires Inv(z) && WellTyped(p) && !IlkExhausted(z.ilk, p) && IdOf(p) in z.live
    requires forall k :: k in UniqueKeys(p) ==> k !in z.idxmap || k in UniqueKeys(z.live[IdOf(p)].props)
    ensures var y := AddEntity(z, p, idx, opts); IdOf(p) in y.live && y.live[IdOf(p)].props == p
  {
    hide Inv, UniqueKeys, TakeIndex, IlkExhausted, TouchedAtBirth, AddEntity, IdOf;
    AddInstalls(z, p, idx, opts);
    OwnKeysGo(z, IdOf(p));
  }

  /** Moving to the sink takes exactly the entity's own keys out of the index. */
  lemma OwnKeysGo(z: ZooState, id: Id)
    requires Inv(z) && id in z.live
    ensures forall k :: k in MoveToSink(z, id).idxmap <==> k in z.idxmap && k !in UniqueKeys(z.live[id].props)
  {
    hide UniqueKeys, RemoveKeys, DelNoSeparate, IlkSeparate, FactsAgree, LiveOk, SinkOk;
    KeysOfOneDiffer(z.live[id].props);
    RemoveAllKeys(z.idxmap, UniqueKeys(z.live[id].props));
  }

  lemma AddKeepsInv(z: ZooState, p: Props, idx: nat, opts: Options)
    requires Inv(z) && WellTyped(p) && (ValidChoice(z.ilk, p, idx) || IlkExhausted(z.ilk, p))
    ensures Inv(AddEntity(z, p, idx, opts))
  {
    hide Inv, Admit, TouchedAtBirth, EntityOk, FreshIndex;
    if !SameAsLive(z, p) && !IlkExhausted(z.ilk, p) {
      TakeIndexIsFresh(z, p, idx, opts);
      AdmitKeepsInv(z.(ilk := TakeIndex(z.ilk, p, idx)), NewEntity(p, idx, opts));
    }
  }

  lemma TouchIs(z: ZooState, id: Id)
    requires Inv(z) && id in z.live && !z.live[id].touched
    ensures var live := Touch(z, id).live;
      SameEntities(z.live, live) && LiveOk(live) && live == z.live[id := live[id]] && live[id].touched &&
      live[id].state == STATE_ADD && (forall jd :: jd in z.live && jd != id ==> live[jd] == z.live[jd])
    ensures Touch(z, id).facts == z.facts + {Touch(z, id).live[id].row}
  {
    hide UniqueKeys, SlotOf, OwnsKeys, DelNoSeparate, IlkSeparate, FactsAgree, SinkOk;
  }

  lemma NewStaysSeparate(live: map<Id, Entity>, sink: seq<Entity>, id: Id, e: Entity)
    requires DelNoSeparate(live, sink) && e.state == STATE_ADD
    ensures DelNoSeparate(live[id := e], sink)
  {
    hide SharesKey;
  }

  lemma TouchedFacts(live: map<Id, Entity>, id: Id, e: Entity)
    requires LiveOk(live) && id in live && !live[id].touched && e.touched
    ensures LiveFacts(live[id := e]) == LiveFacts(live) + {e.row}
  {
    hide LiveOk, LiveFacts;
    LiveFactsWithout(live, id);
    LiveFactsWith(live, id, e);
  }

  lemma TouchFrame(z: ZooState, id: Id)
    ensures var y := Touch(z, id); y.sink == z.sink && y.idxmap == z.idxmap && y.ilk == z.ilk
  {
  }

  lemma TouchKeepsInv(z: ZooState, id: Id)
    requires Inv(z)
    ensures Inv(Touch(z, id))
  {
    if id in z.live && !z.live[id].touched {
      hide LiveFacts, SinkFacts, IlkSeparate, OwnsKeys, DelNoSeparate, LiveOk, SinkOk, Touch, SameEntities;
      var y := Touch(z, id);
      TouchFrame(z, id);
      TouchIs(z, id);
      SameEntitiesKeep(z, y.live);
      NewStaysSeparate(z.live, z.sink, id, y.live[id]);
      TouchedFacts(z.live, id, y.live[id]);
    }
  }

  lemma {:induction false} FactsWithoutIs(facts: set<Fact>, sink: seq<Entity>)
    ensures FactsWithout(facts, sink) == facts - SinkFacts(sink)
  {
    if sink != [] {
      FactsWithoutIs(DelClause(facts, sink[0]), sink[1..]);
      SinkFactsPrepend(sink[0], sink[1..]);
      assert [sink[0]] + sink[1..] == sink;
    }
  }

  lemma SinkFactsPrepend(e: Entity, sink: seq<Entity>)
    ensures SinkFacts([e] + sink) == SinkFacts(sink) + (if e.touched then {e.row} else {})
  {
    var all := [e] + sink;
    forall f | f in SinkFacts(sink) ensures f in SinkFacts(all) {
      var i :| 0 <= i < |sink| && sink[i].touched && sink[i].row == f;
      assert all[i + 1] == sink[i];
    }
    if e.touched { assert all[0] == e; }
  }

  lemma {:induction false} IlkWithoutKeeps(ilk: map<IlkGroup, set<nat>>, sink: seq<Entity>, e: Entity)
    requires HoldsIndex(ilk, e) && forall i :: 0 <= i < |sink| ==> !SameIndex(e, sink[i])
    ensures HoldsIndex(IlkWithout(ilk, sink), e)
  {
    hide GroupOf;
    if sink != [] {
      assert !SameIndex(e, sink[0]);
      IlkWithoutKeeps(FreeIndex(ilk, sink[0]), sink[1..], e);
    }
  }

  lemma CleanSinkKeepsInv(z: ZooState)
    requires Inv(z)
    ensures Inv(CleanSink(z)) && CleanSink(z).facts == LiveFacts(z.live)
  {
    hide UniqueKeys, SlotOf;
    FactsWithoutIs(z.facts, z.sink);
    LiveAndSinkFactsApart(z.live, z.sink);
    forall id | id in z.live ensures HoldsIndex(IlkWithout(z.ilk, z.sink), z.live[id]) {
      IlkWithoutKeeps(z.ilk, z.sink, z.live[id]);
    }
  }

  /** An index of a group is taken after the sweep if and only if it was, and no entity of the
      sink had it. */
  lemma {:induction false} SweepFreesIndices(ilk: map<IlkGroup, set<nat>>, sink: seq<Entity>, g: IlkGroup, i: nat)
    ensures i in Taken(IlkWithout(ilk, sink), g) <==>
      i in Taken(ilk, g) && forall e :: e in sink ==> SlotOf(e.props, e.ilk) != Some(Slot(g, i))
    decreases |sink|
  {
    hide SlotOf, FreeIndex, Taken;
    if sink != [] {
      var rest := sink[1..];
      assert forall e :: e in sink <==> e == sink[0] || e in rest;
      FreesIndex(ilk, sink[0], g, i);
      SweepFreesIndices(FreeIndex(ilk, sink[0]), rest, g, i);
    }
  }

  lemma FreesIndex(ilk: map<IlkGroup, set<nat>>, e: Entity, g: IlkGroup, i: nat)
    ensures i in Taken(FreeIndex(ilk, e), g) <==> i in Taken(ilk, g) && SlotOf(e.props, e.ilk) != Some(Slot(g, i))
  {
    hide GroupOf, WellTyped;
  }

  lemma SweepLiveKeepsInv(z: ZooState)
    requires Inv(z) && z.sink == [] && z.facts == LiveFacts(z.live)
    ensures Inv(SweepLive(z))
    ensures forall id :: id in z.live ==> SweepLive(z).live[id].state == STATE_NO
  {
    hide UniqueKeys, SlotOf, SharesKey, SameIndex, HoldsIndex, IlkSeparate, OwnsKeys;
    SameEntitiesKeep(z, SweepLive(z).live);
  }

  lemma MarkSettles(live: map<Id, Entity>, id: Id)
    requires LiveOk(live) && id in live && live[id].state == STATE_ADD
    ensures var (facts', e') := Mark(LiveFacts(live), live[id], STATE_NO);
      e' == Settled(live[id]) && LiveOk(live[id := e']) && facts' == LiveFacts(live[id := e'])
  {
    LiveFactsWithout(live, id);
    LiveFactsWith(live, id, Settled(live[id]));
  }

  lemma SweepKeepsInv(z: ZooState)
    requires Inv(z)
    ensures Inv(SweepZoo(z)) && SweepZoo(z).sink == []
    ensures forall id :: id in SweepZoo(z).live <==> id in z.live
    ensures forall id :: id in z.live ==>
      SweepZoo(z).live[id] == UpdateDupData(z.live[id].(state := STATE_NO))
  {
    hide UniqueKeys, SlotOf;
    CleanSinkKeepsInv(z);
    SweepLiveKeepsInv(CleanSink(z));
  }
  // ----- Runs of the zoo -----

  datatype ZooStep = AddOp(p: Props, idx: nat) | MoveOp(id: Id) | TouchOp(id: Id) | SweepOp

  /** The allocator hands out a free index, or refuses. */
  ghost predicate ZooEnabled(z: ZooState, step: ZooStep) {
    step.AddOp? ==> WellTyped(step.p) && (ValidChoice(z.ilk, step.p, step.idx) || IlkExhausted(z.ilk, step.p))
  }

  function ZooNext(z: ZooState, step: ZooStep, opts: Options): ZooState
    requires step.AddOp? ==> WellTyped(step.p)
  {
    match step
    case AddOp(p, idx) => AddEntity(z, p, idx, opts)
    case MoveOp(id) => MoveToSink(z, id)
    case TouchOp(id) => Touch(z, id)
    case SweepOp => SweepZoo(z)
  }

  ghost predicate ZooRun(states: seq<ZooState>, steps: seq<ZooStep>, opts: Options) {
    |states| == |steps| + 1 && states[0] == EmptyZoo() &&
    forall i :: 0 <= i < |steps| ==>
      ZooEnabled(states[i], steps[i]) && states[i + 1] == ZooNext(states[i], steps[i], opts)
  }

  lemma ZooRunInit(states: seq<ZooState>, steps: seq<ZooStep>, opts: Options)
    requires ZooRun(states, steps, opts) && steps != []
    ensures var n := |steps|;
      |states| == n + 1 && ZooRun(states[..n], steps[..n - 1], opts) &&
      ZooEnabled(states[n - 1], steps[n - 1]) && states[n] == ZooNext(states[n - 1], steps[n - 1], opts)
  {
    hide ZooEnabled, ZooNext;
  }

  lemma ZooStepKeepsInv(z: ZooState, step: ZooStep, opts: Options)
    requires Inv(z) && ZooEnabled(z, step)
    ensures Inv(ZooNext(z, step, opts))
  {
    hide Inv;
    match step
    case AddOp(p, idx) => AddKeepsInv(z, p, idx, opts);
    case MoveOp(id) => MoveKeepsInv(z, id);
    case TouchOp(id) => TouchKeepsInv(z, id);
    case SweepOp => SweepKeepsInv(z);
  }

  lemma EmptyZooIsFine()
    ensures Inv(EmptyZoo())
  {
  }

  ghost predicate LiveDistinct(live: map<Id, Entity>) {
    forall id, jd :: id in live && jd in live && id != jd ==> !SharesKey(live[id].props, live[jd].props)
  }

  /** Every state that adds, replacements, deletions, touches and sweeps can reach,
      whatever is added and whatever is rejected: live entities have distinct unique
      keys and own their entries, no deleted entity shares a key with a settled one,
      indices of one group are distinct, and the facts are those of the entities. */
  lemma {:induction false} ZooRunKeepsInv(states: seq<ZooState>, steps: seq<ZooStep>, opts: Options)
    requires ZooRun(states, steps, opts)
    ensures Inv(states[|steps|]) && LiveDistinct(states[|steps|].live)
    decreases |steps|
  {
    hide ZooEnabled, ZooNext, SharesKey, UniqueKeys, DelNoSeparate, IlkSeparate;
    if steps == [] {
      EmptyZooIsFine();
    } else {
      hide ZooRun;
      var n := |steps|;
      ZooRunInit(states, steps, opts);
      ZooRunKeepsInv(states[..n], steps[..n - 1], opts);
      ZooStepKeepsInv(states[n - 1], steps[n - 1], opts);
      LiveKeysDistinct(states[n].live, states[n].idxmap);
    }
  }

  // ----- What a rejected add leaves behind -----

  /** Before the sweep: the index is taken, and only the entity itself may hold it. */
  lemma OnlyAcceptedHolds(z: ZooState, p: Props, idx: nat, opts: Options)
    requires Inv(z) && WellTyped(p) && IsIlk(p) && ValidChoice(z.ilk, p, idx)
    requires !SameAsLive(z, p) && !IlkExhausted(z.ilk, p)
    ensures var z', e := AddEntity(z, p, idx, opts), NewEntity(p, idx, opts);
      HoldsIndex(z'.ilk, e) && (forall i :: 0 <= i < |z'.sink| ==> !SameIndex(e, z'.sink[i])) &&
      forall id :: id in z'.live ==> (SameIndex(e, z'.live[id]) <==> id == IdOf(p))
  {
    hide Inv, ValidChoice, IlkExhausted, HoldsIndex, NewEntity, SameIndex, Admit, SameAsLive, WellTyped, IsIlk, IdOf,
      TakeIndex, EntityOk, FreshIndex;
    var e, z1 := NewEntity(p, idx, opts), z.(ilk := TakeIndex(z.ilk, p, idx));
    NewEntityIndex(p, idx, opts);
    assert AddEntity(z, p, idx, opts) == Admit(z1, e);
    TakeIndexIsFresh(z, p, idx, opts);
    AdmittedHolds(z1, e);
  }

  lemma NewEntityIndex(p: Props, idx: nat, opts: Options)
    requires WellTyped(p) && IsIlk(p)
    ensures var e := NewEntity(p, idx, opts); SameIndex(e, e) && IdOf(e.props) == IdOf(p)
  {
    hide GroupOf, TouchedAtBirth;
  }

  lemma AdmittedHolds(z: ZooState, e: Entity)
    requires FreshIndex(z, e) && SameIndex(e, e)
    ensures var z' := Admit(z, e);
      HoldsIndex(z'.ilk, e) && (forall i :: 0 <= i < |z'.sink| ==> !SameIndex(e, z'.sink[i])) &&
      forall id :: id in z'.live ==> (SameIndex(e, z'.live[id]) <==> id == IdOf(e.props))
  {
    hide InsertKeys, UniqueKeys, HoldsIndex, SameIndex, Admit, MoveToSink, IdOf;
    AdmitResult(z, e);
    MovedIsGone(z, IdOf(e.props));
    MoveKeepsFresh(z, IdOf(e.props), e);
    MoveKeepsIlk(z, IdOf(e.props));
  }

  lemma MoveKeepsIlk(z: ZooState, id: Id)
    ensures MoveToSink(z, id).ilk == z.ilk
  {
    hide RemoveKeys, UniqueKeys, Mark;
  }

  /** A rejected entity keeps the index that its constructor took: nobody holds it,
      and no sweep frees it. */
  lemma RejectedAddLeaksIndex(z: ZooState, p: Props, idx: nat, opts: Options)
    requires Inv(z) && WellTyped(p) && IsIlk(p) && ValidChoice(z.ilk, p, idx)
    requires !SameAsLive(z, p) && !IlkExhausted(z.ilk, p)
    ensures var y := SweepZoo(AddEntity(z, p, idx, opts));
      idx in Taken(y.ilk, GroupOf(p)) &&
      (IdOf(p) in y.live <==> exists id :: id in y.live && SlotOf(y.live[id].props, y.live[id].ilk) == SlotOf(p, idx))
  {
    var e, z' := NewEntity(p, idx, opts), AddEntity(z, p, idx, opts);
    assert e.props == p && e.ilk == idx;
    hide Inv, SlotOf, ValidChoice, IlkExhausted, AddEntity, NewEntity, HoldsIndex, FactsWithout;
    OnlyAcceptedHolds(z, p, idx, opts);
    AddKeepsInv(z, p, idx, opts);
    SweepKeepsInv(z');
    IlkWithoutKeeps(z'.ilk, z'.sink, e);
    IndexIsTaken(IlkWithout(z'.ilk, z'.sink), p, idx, e);
  }

  lemma IndexIsTaken(ilk: map<IlkGroup, set<nat>>, p: Props, idx: nat, e: Entity)
    requires WellTyped(p) && IsIlk(p) && e.props == p && e.ilk == idx && HoldsIndex(ilk, e)
    ensures idx in Taken(ilk, GroupOf(p)) && SlotOf(p, idx).Some?
  {
    hide GroupOf;
  }
}
