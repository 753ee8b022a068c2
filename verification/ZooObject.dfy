// LogicalEntityZoo: the object whose fields the agent updates in place. Each
// method is tied to the operation of EntityZoo that it carries out.

module ZooObject {
  import opened Entities
  import opened EntityZoo
  import opened Resync

  class LogicalEntityZoo {
    const opts: Options
    var entitySet: map<Id, Entity>
    var entitySinkSet: seq<Entity>
    var entityIdxmap: map<UniqueKey, Props>
    var ilkGroup: map<IlkGroup, set<nat>>
    var facts: set<Fact>
    var zooVer: nat

    function State(): ZooState
      reads this
    {
      ZooState(entitySet, entitySinkSet, entityIdxmap, ilkGroup, facts, zooVer)
    }

    constructor (opts: Options)
      ensures State() == EmptyZoo() && this.opts == opts && Inv(State())
    {
      this.opts := opts;
      entitySet, entitySinkSet, entityIdxmap, ilkGroup, facts, zooVer := map[], [], map[], map[], {}, 0;
    }

    method InsertEntityIdxmap(p: Props) returns (ok: bool)
      modifies this`entityIdxmap
      ensures (ok, entityIdxmap) == InsertKeys(old(entityIdxmap), UniqueKeys(p), p)
    {
      var keys := UniqueKeys(p);
      hide UniqueKeys;
      var i := 0;
      while i < |keys|
        invariant 0 <= i <= |keys|
        invariant InsertKeys(old(entityIdxmap), keys, p) == InsertKeys(entityIdxmap, keys[i..], p)
      {
        if keys[i] in entityIdxmap {
          return false;
        }
        entityIdxmap := entityIdxmap[keys[i] := p];
        i := i + 1;
      }
      ok := true;
    }

    method DelEntityIdxmap(p: Props)
      modifies this`entityIdxmap
      ensures entityIdxmap == RemoveKeys(old(entityIdxmap), UniqueKeys(p))
    {
      var keys := UniqueKeys(p);
      hide UniqueKeys;
      var i := 0;
      while i < |keys|
        invariant 0 <= i <= |keys|
        invariant RemoveKeys(old(entityIdxmap), keys) == RemoveKeys(entityIdxmap, keys[i..])
      {
        if keys[i] !in entityIdxmap {
          return;
        }
        entityIdxmap := entityIdxmap - {keys[i]};
        i := i + 1;
      }
    }

    method MoveEntity2Sink(id: Id)
      modifies this
      ensures State() == MoveToSink(old(State()), id)
    {
      hide UniqueKeys;
      if id !in entitySet {
        return;
      }
      var (facts', e) := Mark(facts, entitySet[id], STATE_DEL);
      entitySet, facts := entitySet - {id}, facts';
      entitySinkSet := entitySinkSet + [e];
      DelEntityIdxmap(e.props);
      zooVer := zooVer + 1;
    }

    /** move_all_entity2sink, with the local port types excluded. */
    method MoveAllEntity2Sink() returns (ghost ids: seq<Id>)
      modifies this
      ensures State() == MoveAll(old(State()), ids) && ListsRemote(ids, old(entitySet))
    {
      ids := [];
      ghost var z := State();
      var todo := entitySet.Keys;
      hide MoveToSink;
      while todo != {}
        invariant todo <= z.live.Keys && State() == MoveAll(z, ids)
        invariant forall id :: id in ids <==> id in z.live && !IsLocal(id) && id !in todo
      {
        var id :| id in todo;
        todo := todo - {id};
        if !IsLocal(id) {
          MoveEntity2Sink(id);
          ghost var more := ids + [id];
          assert more[..|ids|] == ids;
          ids := more;
        }
      }
    }

    /** _get_ilk_idx; the free index that set.pop hands out is left open. */
    method GetIlkIdx(p: Props) returns (ok: bool, idx: nat)
      requires WellTyped(p)
      modifies this`ilkGroup
      ensures ok == !IlkExhausted(old(ilkGroup), p)
      ensures ok ==> ValidChoice(old(ilkGroup), p, idx) && ilkGroup == TakeIndex(old(ilkGroup), p, idx)
      ensures !ok ==> ilkGroup == old(ilkGroup)
    {
      hide Below, AllIndices, GroupOf;
      ok, idx := true, 0;
      if SlotOf(p, 0).Some? {
        var g := SlotOf(p, 0).value.g;
        if g in ilkGroup {
          var free := AllIndices() - ilkGroup[g];
          if free == {} {
            return false, 0;
          }
          idx :| idx in free;
          ilkGroup := ilkGroup[g := ilkGroup[g] + {idx}];
        } else {
          assert Taken(ilkGroup, g) + {idx} == {idx};
          ilkGroup := ilkGroup[g := {idx}];
        }
      }
    }

    /** _add_entity_in_zoo and, when it accepts the entity, populate. */
    method AddEntityInZoo(e: Entity)
      modifies this
      ensures State() == Admit(old(State()), e)
    {
      hide UniqueKeys, MoveToSink, InsertKeys;
      MoveEntity2Sink(IdOf(e.props));
      var inserted := InsertEntityIdxmap(e.props);
      if inserted {
        entitySet := entitySet[IdOf(e.props) := e];
        zooVer := zooVer + 1;
        facts := AddClause(facts, e);
      }
    }

    method AddEntity(p: Props) returns (idx: nat)
      requires WellTyped(p) && Inv(State())
      modifies this
      ensures ValidChoice(old(ilkGroup), p, idx) || IlkExhausted(old(ilkGroup), p) || SameAsLive(old(State()), p)
      ensures State() == EntityZoo.AddEntity(old(State()), p, idx, opts) && Inv(State())
    {
      hide Inv, Admit, NewEntity, ValidChoice, IlkExhausted, TakeIndex;
      idx := 0;
      if IdOf(p) in entitySet && entitySet[IdOf(p)].props == p {
        return;
      }
      var ok;
      ok, idx := GetIlkIdx(p);
      AddKeepsInv(old(State()), p, idx, opts);
      if ok {
        AddEntityInZoo(NewEntity(p, idx, opts));
      }
    }

    /** update_entity: all deletions of the pools, then all additions. */
    method UpdateEntity(dels: seq<Id>, adds: seq<Props>) returns (ghost idxs: seq<nat>)
      requires Inv(State()) && forall i :: 0 <= i < |adds| ==> WellTyped(adds[i])
      modifies this
      ensures |idxs| == |adds| && Inv(State())
      ensures var z := MoveAll(old(State()), dels);
        State() == AddAll(z, adds, idxs, opts) && Allocated(z, adds, idxs, opts)
    {
      hide Inv, MoveToSink, EntityZoo.AddEntity, MayTake, WellTyped;
      for i := 0 to |dels|
        invariant Inv(State()) && State() == MoveAll(old(State()), dels[..i])
      {
        MoveKeepsInv(State(), dels[i]);
        MoveEntity2Sink(dels[i]);
        assert dels[..i + 1][..i] == dels[..i];
      }
      assert dels[..|dels|] == dels;
      ghost var z := State();
      idxs := [];
      for i := 0 to |adds|
        invariant |idxs| == i && Inv(State())
        invariant State() == AddAll(z, adds[..i], idxs, opts) && Allocated(z, adds[..i], idxs, opts)
      {
        ghost var before := State();
        var idx := AddEntity(adds[i]);
        ghost var more := idxs + [idx];
        assert MayTake(before, adds[i], idx) by { MayTakeIs(before, adds[i], idx); }
        assert adds[..i + 1][..i] == adds[..i] && more[..i] == idxs;
        idxs := more;
      }
      assert adds[..|adds|] == adds;
    }

    lemma MayTakeIs(z: ZooState, p: Props, idx: nat)
      requires ValidChoice(z.ilk, p, idx) || IlkExhausted(z.ilk, p) || SameAsLive(z, p)
      ensures MayTake(z, p, idx)
    {
    }

    method TouchEntity(id: Id)
      requires Inv(State())
      modifies this
      ensures State() == Touch(old(State()), id) && Inv(State())
    {
      TouchKeepsInv(State(), id);
      hide Inv;
      if id in entitySet && !entitySet[id].touched {
        var e := UpdateDupData(entitySet[id].(touched := true, state := STATE_ADD));
        entitySet := entitySet[id := e];
        facts := AddClause(facts, e);
      }
    }

    method CleanSink()
      modifies this
      ensures State() == EntityZoo.CleanSink(old(State()))
    {
      hide SlotOf, DelClause;
      var i := 0;
      while i < |entitySinkSet|
        invariant 0 <= i <= |entitySinkSet|
        invariant entitySet == old(entitySet) && entitySinkSet == old(entitySinkSet)
        invariant entityIdxmap == old(entityIdxmap) && zooVer == old(zooVer)
        invariant FactsWithout(old(facts), entitySinkSet) == FactsWithout(facts, entitySinkSet[i..])
        invariant IlkWithout(old(ilkGroup), entitySinkSet) == IlkWithout(ilkGroup, entitySinkSet[i..])
      {
        facts := DelClause(facts, entitySinkSet[i]);
        ilkGroup := FreeIndex(ilkGroup, entitySinkSet[i]);
        i := i + 1;
      }
      entitySinkSet := [];
    }

    /** `mark` on a live entity that a sweep settles. */
    method MarkSettled(id: Id)
      requires id in entitySet && LiveOk(entitySet) && facts == LiveFacts(entitySet)
      modifies this`entitySet, this`facts
      ensures entitySet == old(entitySet)[id := Settled(old(entitySet)[id])]
      ensures LiveOk(entitySet) && facts == LiveFacts(entitySet)
    {
      var e := entitySet[id];
      hide LiveOk, LiveFacts, Mark;
      assert e.state != STATE_ADD ==> entitySet[id := e] == entitySet;
      if e.state == STATE_ADD {
        MarkSettles(entitySet, id);
        var (facts', e') := Mark(facts, e, STATE_NO);
        facts, entitySet := facts', entitySet[id := e'];
      }
    }

    /** The entities in todo are still as they were, the others are settled. */
    static ghost predicate SweptBut(live: map<Id, Entity>, now: map<Id, Entity>, todo: set<Id>) {
      now.Keys == live.Keys && todo <= live.Keys &&
      forall id :: id in live ==> now[id] == if id in todo then live[id] else Settled(live[id])
    }

    static lemma SweepsOneMore(live: map<Id, Entity>, now: map<Id, Entity>, todo: set<Id>, id: Id)
      requires SweptBut(live, now, todo) && id in todo
      ensures id in now && SweptBut(live, now[id := Settled(now[id])], todo - {id})
    {
      hide Settled;
    }

    static lemma SweepIsDone(z: ZooState, now: map<Id, Entity>)
      requires SweptBut(z.live, now, {}) && z.facts == LiveFacts(z.live)
      ensures z.(live := now, facts := LiveFacts(now)) == SweepLive(z)
    {
      hide Settled, LiveFacts;
      assert now == SweepLive(z).live;
    }

    method SweepEntitySet()
      requires Inv(State()) && entitySinkSet == []
      modifies this
      ensures State() == SweepLive(old(State()))
    {
      ghost var z := State();
      assert facts == LiveFacts(entitySet) && LiveOk(entitySet);
      assert SweptBut(z.live, entitySet, entitySet.Keys);
      hide Inv, LiveFacts, LiveOk, Mark, Settled, SweptBut, SweepLive;
      var todo := entitySet.Keys;
      while todo != {}
        invariant SweptBut(z.live, entitySet, todo)
        invariant facts == LiveFacts(entitySet) && LiveOk(entitySet)
        invariant entitySinkSet == z.sink && entityIdxmap == z.idxmap && ilkGroup == z.ilk && zooVer == z.ver
      {
        var id :| id in todo;
        SweepsOneMore(z.live, entitySet, todo, id);
        MarkSettled(id);
        todo := todo - {id};
      }
      SweepIsDone(z, entitySet);
    }

    method SweepZoo()
      requires Inv(State())
      modifies this
      ensures State() == EntityZoo.SweepZoo(old(State())) && Inv(State())
    {
      CleanSinkKeepsInv(State());
      SweepKeepsInv(State());
      CleanSink();
      SweepEntitySet();
    }
  }
}
