// Full resync after a compaction: every entity that came from etcd goes to the
// sink and the snapshot is added again, before the sweep frees anything. When it
// goes through without a failing constructor and when the zoo then holds the
// snapshot, both as equivalences; and exactly which adds leave entries that nobody
// owns in the index of unique keys.

module Resync {
  import opened Common
  import opened Entities
  import opened EntityZoo
  import opened TextCodec

  /** Entity types that do not come from etcd. */
  predicate IsLocal(id: Id) {
    id.etype == TypeOvsPort || id.etype == TypeOvsPortChassis
  }

  /** move_all_entity2sink in the order in which it visits the entities. */
  function MoveAll(z: ZooState, ids: seq<Id>): ZooState {
    if ids == [] then z else MoveToSink(MoveAll(z, ids[..|ids| - 1]), ids[|ids| - 1])
  }

  /** update_entity on the snapshot; idxs are the indices that the allocator hands out. */
  function AddAll(z: ZooState, snapshot: seq<Props>, idxs: seq<nat>, opts: Options): ZooState
    requires |idxs| == |snapshot| && forall i :: 0 <= i < |snapshot| ==> WellTyped(snapshot[i])
  {
    if snapshot == [] then z
    else
      var n := |snapshot| - 1;
      AddEntity(AddAll(z, snapshot[..n], idxs[..n], opts), snapshot[n], idxs[n], opts)
  }

  /** The index is one that the allocator can hand out, or none is asked for. */
  ghost predicate MayTake(z: ZooState, p: Props, idx: nat) {
    ValidChoice(z.ilk, p, idx) || IlkExhausted(z.ilk, p) || SameAsLive(z, p)
  }

  /** Every index is handed out by the allocator. */
  ghost predicate Allocated(z: ZooState, snapshot: seq<Props>, idxs: seq<nat>, opts: Options)
    requires |idxs| == |snapshot| && forall i :: 0 <= i < |snapshot| ==> WellTyped(snapshot[i])
  {
    snapshot != [] ==>
      var n := |snapshot| - 1;
      Allocated(z, snapshot[..n], idxs[..n], opts) &&
      MayTake(AddAll(z, snapshot[..n], idxs[..n], opts), snapshot[n], idxs[n])
  }

  /** No constructor raised "too many ilk". */
  ghost predicate NoneFailed(z: ZooState, snapshot: seq<Props>, idxs: seq<nat>, opts: Options)
    requires |idxs| == |snapshot| && forall i :: 0 <= i < |snapshot| ==> WellTyped(snapshot[i])
  {
    snapshot != [] ==>
      var n := |snapshot| - 1;
      NoneFailed(z, snapshot[..n], idxs[..n], opts) &&
      !IlkExhausted(AddAll(z, snapshot[..n], idxs[..n], opts).ilk, snapshot[n])
  }

  // ----- The index of unique keys without stale entries -----

  /** No entity was rejected: every entry of entity_idxmap is a live entity's. */
  ghost predicate IdxExact(live: map<Id, Entity>, idxmap: map<UniqueKey, Props>) {
    forall k :: k in idxmap ==> exists id :: id in live && k in UniqueKeys(live[id].props)
  }

  lemma RemovedKeysExact(live: map<Id, Entity>, idxmap: map<UniqueKey, Props>, id: Id)
    requires OwnsKeys(live, idxmap) && IdxExact(live, idxmap) && id in live
    ensures IdxExact(live - {id}, RemoveKeys(idxmap, UniqueKeys(live[id].props)))
  {
    hide UniqueKeys, RemoveKeys;
    var keys := UniqueKeys(live[id].props);
    KeysOfOneDiffer(live[id].props);
    RemoveAllKeys(idxmap, keys);
    forall k | k in RemoveKeys(idxmap, keys)
      ensures exists jd :: jd in live - {id} && k in UniqueKeys((live - {id})[jd].props)
    {
      var jd :| jd in live && k in UniqueKeys(live[jd].props);
      assert jd in live - {id};
    }
  }

  lemma MoveKeepsExact(z: ZooState, id: Id)
    requires Inv(z) && IdxExact(z.live, z.idxmap)
    ensures var z' := MoveToSink(z, id); IdxExact(z'.live, z'.idxmap) && z'.ilk == z.ilk && z'.live == z.live - {id}
  {
    hide IdxExact, UniqueKeys, RemoveKeys, OwnsKeys;
    if id in z.live {
      RemovedKeysExact(z.live, z.idxmap, id);
    } else {
      assert z.live - {id} == z.live;
    }
  }

  /** The sink takes everything that came from etcd; indices stay taken. */
  lemma {:induction false} MoveAllKeeps(z: ZooState, ids: seq<Id>)
    requires Inv(z)
    ensures var z' := MoveAll(z, ids);
      Inv(z') && z'.ilk == z.ilk &&
      forall id :: (id in z'.live <==> id in z.live && id !in ids) && (id in z'.live ==> z'.live[id] == z.live[id])
  {
    if ids != [] {
      var init, last := ids[..|ids| - 1], ids[|ids| - 1];
      hide Inv, MoveToSink;
      MoveAllKeeps(z, init);
      MoveKeepsInv(MoveAll(z, init), last);
      MoveLeaves(MoveAll(z, init), last);
      assert forall id :: id in ids <==> id in init || id == last;
    }
  }

  lemma MoveLeaves(z: ZooState, id: Id)
    ensures MoveToSink(z, id).live == z.live - {id} && MoveToSink(z, id).ilk == z.ilk
  {
    hide RemoveKeys, UniqueKeys, Mark;
    assert id !in z.live ==> z.live - {id} == z.live;
  }

  lemma {:induction false} MoveAllEmpties(z: ZooState, ids: seq<Id>)
    requires Inv(z) && IdxExact(z.live, z.idxmap)
    ensures IdxExact(MoveAll(z, ids).live, MoveAll(z, ids).idxmap)
  {
    if ids != [] {
      hide Inv, IdxExact, MoveToSink;
      MoveAllEmpties(z, ids[..|ids| - 1]);
      MoveAllKeeps(z, ids[..|ids| - 1]);
      MoveKeepsExact(MoveAll(z, ids[..|ids| - 1]), ids[|ids| - 1]);
    }
  }

  // ----- Adding the snapshot -----

  /** How many of the first entities want an index of group g. */
  function Wanting(snapshot: seq<Props>, g: IlkGroup): nat {
    if snapshot == [] then 0
    else
      var last := snapshot[|snapshot| - 1];
      Wanting(snapshot[..|snapshot| - 1], g) + if IsIlk(last) && WellTyped(last) && GroupOf(last) == g then 1 else 0
  }

  /** A snapshot as etcd holds it: from etcd, one record per id, no shared unique keys. */
  ghost predicate CleanSnapshot(snapshot: seq<Props>) {
    (forall i :: 0 <= i < |snapshot| ==> WellTyped(snapshot[i]) && !IsLocal(IdOf(snapshot[i]))) &&
    (forall i, j :: 0 <= i < j < |snapshot| ==> !SharesKey(snapshot[i], snapshot[j]))
  }

  /** For every group, its members before the resync and in the snapshot are 64 at most. */
  ghost predicate RoomForAll(ilk: map<IlkGroup, set<nat>>, snapshot: seq<Props>) {
    forall g :: |Taken(ilk, g)| + Wanting(snapshot, g) <= MAX_ILK
  }

  /** Only local entities and the first n of the snapshot are live. */
  ghost predicate Holds(z: ZooState, local: map<Id, Entity>, snapshot: seq<Props>) {
    (forall id :: id in local ==> id in z.live && z.live[id] == local[id] && IsLocal(id)) &&
    (forall i :: 0 <= i < |snapshot| ==>
       IdOf(snapshot[i]) in z.live && z.live[IdOf(snapshot[i])].props == snapshot[i]) &&
    (forall id :: id in z.live ==> id in local || exists i :: 0 <= i < |snapshot| && IdOf(snapshot[i]) == id)
  }

  lemma LocalKeysDiffer(p: Props, q: Props, k: UniqueKey)
    requires IsLocal(IdOf(p)) && !IsLocal(IdOf(q)) && k in UniqueKeys(p)
    ensures k !in UniqueKeys(q)
  {
    assert k.name[0] == 'h' && forall l :: l in UniqueKeys(q) ==> l.name[0] != 'h';
  }

  lemma RoomLeft(taken: set<nat>)
    requires |taken| < MAX_ILK
    ensures AllIndices() - taken != {}
  {
    if AllIndices() - taken == {} {
      SmallerSet(AllIndices(), taken);
    }
  }

  lemma {:induction false} SmallerSet(a: set<nat>, b: set<nat>)
    requires a - b == {}
    ensures |a| <= |b|
    decreases |a|
  {
    if a != {} {
      var x :| x in a;
      SmallerSet(a - {x}, b - {x});
    }
  }

  lemma ConstructorSucceeds(ilk: map<IlkGroup, set<nat>>, p: Props)
    requires WellTyped(p) && (IsIlk(p) ==> |Taken(ilk, GroupOf(p))| < MAX_ILK)
    ensures !IlkExhausted(ilk, p)
  {
    hide GroupOf, AllIndices;
    if IsIlk(p) { RoomLeft(Taken(ilk, GroupOf(p))); }
  }

  /** The allocator never goes beyond its 64 indices. */
  ghost predicate Within(ilk: map<IlkGroup, set<nat>>) {
    forall g :: Taken(ilk, g) <= AllIndices()
  }

  lemma TakesOneIndex(ilk: map<IlkGroup, set<nat>>, p: Props, idx: nat, g: IlkGroup)
    requires WellTyped(p) && ValidChoice(ilk, p, idx)
    ensures |Taken(TakeIndex(ilk, p, idx), g)| == |Taken(ilk, g)| + if IsIlk(p) && GroupOf(p) == g then 1 else 0
    ensures Taken(ilk, g) <= AllIndices() ==> Taken(TakeIndex(ilk, p, idx), g) <= AllIndices()
  {
    hide GroupOf, AllIndices;
    assert 0 in AllIndices() by { ZeroIsIndex(); }
    if IsIlk(p) && GroupOf(p) == g {
      assert idx !in Taken(ilk, g);
    }
  }

  lemma ZeroIsIndex()
    ensures 0 in AllIndices()
  {
  }

  lemma LastIsClean(snapshot: seq<Props>)
    requires snapshot != [] && CleanSnapshot(snapshot)
    ensures var n := |snapshot| - 1;
      CleanSnapshot(snapshot[..n]) && WellTyped(snapshot[n]) && !IsLocal(IdOf(snapshot[n])) &&
      forall i :: 0 <= i < n ==> !SharesKey(snapshot[..n][i], snapshot[n])
  {
    hide SharesKey, WellTyped;
  }

  lemma LastHasRoom(ilk: map<IlkGroup, set<nat>>, snapshot: seq<Props>)
    requires snapshot != [] && RoomForAll(ilk, snapshot)
    ensures RoomForAll(ilk, snapshot[..|snapshot| - 1])
    ensures var p := snapshot[|snapshot| - 1];
      IsIlk(p) && WellTyped(p) ==>
        |Taken(ilk, GroupOf(p))| + Wanting(snapshot[..|snapshot| - 1], GroupOf(p)) < MAX_ILK
  {
    hide GroupOf, WellTyped, Taken;
    var p := snapshot[|snapshot| - 1];
    forall g ensures |Taken(ilk, g)| + Wanting(snapshot[..|snapshot| - 1], g) <= MAX_ILK {
      assert |Taken(ilk, g)| + Wanting(snapshot, g) <= MAX_ILK;
    }
    if IsIlk(p) && WellTyped(p) {
      assert |Taken(ilk, GroupOf(p))| + Wanting(snapshot, GroupOf(p)) <= MAX_ILK;
    }
  }

  lemma WantsOneMore(z: ZooState, y: ZooState, snapshot: seq<Props>, idx: nat)
    requires snapshot != [] && WellTyped(snapshot[|snapshot| - 1]) && ValidChoice(y.ilk, snapshot[|snapshot| - 1], idx)
    requires forall g :: |Taken(y.ilk, g)| == |Taken(z.ilk, g)| + Wanting(snapshot[..|snapshot| - 1], g)
    ensures var ilk := TakeIndex(y.ilk, snapshot[|snapshot| - 1], idx);
      (forall g :: |Taken(ilk, g)| == |Taken(z.ilk, g)| + Wanting(snapshot, g)) && (Within(y.ilk) ==> Within(ilk))
  {
    hide GroupOf, WellTyped, Taken, TakeIndex, ValidChoice, AllIndices;
    var p := snapshot[|snapshot| - 1];
    forall g
      ensures |Taken(TakeIndex(y.ilk, p, idx), g)| == |Taken(z.ilk, g)| + Wanting(snapshot, g)
      ensures Taken(y.ilk, g) <= AllIndices() ==> Taken(TakeIndex(y.ilk, p, idx), g) <= AllIndices()
    {
      TakesOneIndex(y.ilk, p, idx, g);
    }
  }

  /** The zoo y after the records were offered to z: local ports stay, a record is live
      exactly if its keys were free in z, and the index gained keys of the records only. */
  ghost predicate Offered(z: ZooState, y: ZooState, local: map<Id, Entity>, before: seq<Props>) {
    Inv(y) && LocalAndLive(y.live, local, before) &&
    (forall i :: 0 <= i < |before| ==>
       (IdOf(before[i]) in y.live <==> KeysFree(z.idxmap, before[i])) &&
       (IdOf(before[i]) in y.live ==> y.live[IdOf(before[i])].props == before[i])) &&
    (forall k :: k in z.idxmap ==> k in y.idxmap) &&
    (forall k :: k in y.idxmap ==> k in z.idxmap || KeyOfSome(before, k)) &&
    (forall g :: |Taken(y.ilk, g)| == |Taken(z.ilk, g)| + Wanting(before, g)) && (Within(z.ilk) ==> Within(y.ilk))
  }

  ghost predicate LocalAndLive(live: map<Id, Entity>, local: map<Id, Entity>, before: seq<Props>) {
    (forall id :: id in local ==> id in live && live[id] == local[id] && IsLocal(id)) &&
    forall id :: id in live ==> id in local || exists i :: 0 <= i < |before| && IdOf(before[i]) == id
  }

  ghost predicate KeyOfSome(before: seq<Props>, k: UniqueKey) {
    exists i :: 0 <= i < |before| && k in UniqueKeys(before[i])
  }

  lemma NotYetLive(z: ZooState, y: ZooState, local: map<Id, Entity>, before: seq<Props>, p: Props)
    requires Offered(z, y, local, before) && !IsLocal(IdOf(p))
    requires forall i :: 0 <= i < |before| ==> !SharesKey(before[i], p)
    ensures IdOf(p) !in y.live && (KeysFree(y.idxmap, p) <==> KeysFree(z.idxmap, p))
  {
    hide Inv, UniqueKeys, Taken, Wanting, IsLocal;
    forall k | k in UniqueKeys(p) ensures !KeyOfSome(before, k) {
      forall i | 0 <= i < |before| ensures k !in UniqueKeys(before[i]) {
        assert !SharesKey(before[i], p);
      }
    }
  }

  /** What an add does to the live set and to the index when nothing has its id. */
  lemma OfferOne(y: ZooState, p: Props, idx: nat, opts: Options)
    requires WellTyped(p) && IdOf(p) !in y.live && !IlkExhausted(y.ilk, p)
    ensures var y' := AddEntity(y, p, idx, opts);
      y'.ilk == TakeIndex(y.ilk, p, idx) &&
      y'.live == (if KeysFree(y.idxmap, p) then y.live[IdOf(p) := NewEntity(p, idx, opts)] else y.live) &&
      (forall k :: k in y.idxmap ==> k in y'.idxmap) &&
      (forall k :: k in y'.idxmap ==> k in y.idxmap || k in UniqueKeys(p))
  {
    hide UniqueKeys, InsertKeys, TakeIndex, IlkExhausted, WellTyped, NewEntity;
    NewEntityProps(p, idx, opts);
    AdmitResult(y.(ilk := TakeIndex(y.ilk, p, idx)), NewEntity(p, idx, opts));
    InsertResult(y.idxmap, p);
    TwoKeys(p);
  }

  lemma NewEntityProps(p: Props, idx: nat, opts: Options)
    ensures NewEntity(p, idx, opts).props == p
  {
  }

  lemma TwoKeys(p: Props)
    ensures var keys := UniqueKeys(p);
      0 < |keys| <= 2 && forall k :: k in keys <==> k == keys[0] || (|keys| == 2 && k == keys[1])
  {
    hide UniqueKeys;
    InsertResult(map[], p);
  }

  /** The live set with the next record, if its keys were free. */
  lemma OfferedLive(
    z: ZooState, y: ZooState, y': ZooState, local: map<Id, Entity>, before: seq<Props>, p: Props, e: Entity)
    requires LocalAndLive(y.live, local, before) && IdOf(p) !in y.live && e.props == p
    requires y'.live == if KeysFree(z.idxmap, p) then y.live[IdOf(p) := e] else y.live
    requires forall i :: 0 <= i < |before| ==> !SharesKey(before[i], p)
    requires forall i :: 0 <= i < |before| ==>
      (IdOf(before[i]) in y.live <==> KeysFree(z.idxmap, before[i])) &&
      (IdOf(before[i]) in y.live ==> y.live[IdOf(before[i])].props == before[i])
    ensures var all := before + [p];
      LocalAndLive(y'.live, local, all) &&
      forall i :: 0 <= i < |all| ==>
        (IdOf(all[i]) in y'.live <==> KeysFree(z.idxmap, all[i])) &&
        (IdOf(all[i]) in y'.live ==> y'.live[IdOf(all[i])].props == all[i])
  {
    hide KeysFree, UniqueKeys, IsLocal;
    var all := before + [p];
    assert all[|before|] == p && forall i :: 0 <= i < |before| ==> all[i] == before[i];
    forall id | id in y'.live ensures id in local || exists i :: 0 <= i < |all| && IdOf(all[i]) == id {
      if id in y.live && id !in local {
        var i :| 0 <= i < |before| && IdOf(before[i]) == id;
        assert all[i] == before[i];
      }
    }
  }

  /** The index with the keys of the next record. */
  lemma OfferedIndex(
    m: map<UniqueKey, Props>, n: map<UniqueKey, Props>, n': map<UniqueKey, Props>, before: seq<Props>, p: Props)
    requires forall k :: k in n ==> k in m || KeyOfSome(before, k)
    requires forall k :: k in n' ==> k in n || k in UniqueKeys(p)
    ensures forall k :: k in n' ==> k in m || KeyOfSome(before + [p], k)
  {
    hide UniqueKeys;
    var all := before + [p];
    forall k | k in n' && k !in m ensures KeyOfSome(all, k) {
      if k in n {
        var i :| 0 <= i < |before| && k in UniqueKeys(before[i]);
        assert all[i] == before[i];
      } else {
        assert all[|before|] == p;
      }
    }
  }

  lemma OfferLast(z: ZooState, y: ZooState, local: map<Id, Entity>, snapshot: seq<Props>, idx: nat, opts: Options)
    requires snapshot != [] && CleanSnapshot(snapshot) && RoomForAll(z.ilk, snapshot)
    requires Offered(z, y, local, snapshot[..|snapshot| - 1]) && MayTake(y, snapshot[|snapshot| - 1], idx)
    ensures WellTyped(snapshot[|snapshot| - 1]) && !IlkExhausted(y.ilk, snapshot[|snapshot| - 1])
    ensures Offered(z, AddEntity(y, snapshot[|snapshot| - 1], idx, opts), local, snapshot)
  {
    hide CleanSnapshot, RoomForAll, Inv, SharesKey, AddEntity, TakeIndex, IlkExhausted, Taken, UniqueKeys,
      Wanting, WellTyped, ValidChoice, AllIndices, KeysFree, GroupOf, LocalAndLive, KeyOfSome, NewEntity, IsLocal;
    var n := |snapshot| - 1;
    var before, p := snapshot[..n], snapshot[n];
    LastIsClean(snapshot);
    LastHasRoom(z.ilk, snapshot);
    NotYetLive(z, y, local, before, p);
    ConstructorSucceeds(y.ilk, p);
    AddKeepsInv(y, p, idx, opts);
    OfferOne(y, p, idx, opts);
    NewEntityProps(p, idx, opts);
    var y' := AddEntity(y, p, idx, opts);
    OfferedLive(z, y, y', local, before, p, NewEntity(p, idx, opts));
    OfferedIndex(z.idxmap, y.idxmap, y'.idxmap, before, p);
    WantsOneMore(z, y, snapshot, idx);
    assert before + [p] == snapshot;
  }

  lemma {:induction false} OfferAll(
    z: ZooState, local: map<Id, Entity>, snapshot: seq<Props>, idxs: seq<nat>, opts: Options)
    requires Inv(z) && LocalAndLive(z.live, local, []) && CleanSnapshot(snapshot)
    requires |idxs| == |snapshot| && Allocated(z, snapshot, idxs, opts) && RoomForAll(z.ilk, snapshot)
    ensures Offered(z, AddAll(z, snapshot, idxs, opts), local, snapshot) && NoneFailed(z, snapshot, idxs, opts)
  {
    hide Inv, SharesKey, AddEntity, MayTake, IlkExhausted, Taken, RoomForAll, WellTyped, LocalAndLive;
    if snapshot != [] {
      var n := |snapshot| - 1;
      LastIsClean(snapshot);
      LastHasRoom(z.ilk, snapshot);
      OfferAll(z, local, snapshot[..n], idxs[..n], opts);
      hide Offered;
      OfferLast(z, AddAll(z, snapshot[..n], idxs[..n], opts), local, snapshot, idxs[n], opts);
    }
  }

  /** The entities that a resync moves: all live ones that came from etcd. */
  ghost predicate ListsRemote(ids: seq<Id>, live: map<Id, Entity>) {
    forall id :: id in ids <==> id in live && !IsLocal(id)
  }

  function Local(live: map<Id, Entity>): map<Id, Entity> {
    map id | id in live && IsLocal(id) :: live[id]
  }

  lemma OnlyLocalRemain(z: ZooState, z': ZooState, ids: seq<Id>)
    requires ListsRemote(ids, z.live)
    requires forall id :: id in z'.live <==> id in z.live && id !in ids
    requires forall id :: id in z'.live ==> z'.live[id] == z.live[id]
    ensures LocalAndLive(z'.live, Local(z.live), [])
  {
  }

  lemma OfferedIff(z: ZooState, y: ZooState, local: map<Id, Entity>, snapshot: seq<Props>)
    requires Offered(z, y, local, snapshot)
    ensures Inv(y) && LocalAndLive(y.live, local, snapshot)
    ensures Holds(y, local, snapshot) <==> forall p :: p in snapshot ==> KeysFree(z.idxmap, p)
    ensures forall p :: p in snapshot ==> (IdOf(p) in y.live <==> KeysFree(z.idxmap, p))
  {
    hide Inv, KeysFree, KeyOfSome, Wanting, Taken, Within, IsLocal;
    assert forall p :: p in snapshot ==> exists i :: 0 <= i < |snapshot| && snapshot[i] == p;
  }

  /** A resync over any index, stale entries or not: no constructor fails, local ports stay,
      and a record of the snapshot is live afterwards if and only if none of its keys is
      still taken, so the zoo holds the snapshot if and only if no record has such a key. */
  lemma ResyncInstallsIff(z: ZooState, ids: seq<Id>, snapshot: seq<Props>, idxs: seq<nat>, opts: Options)
    requires Inv(z) && ListsRemote(ids, z.live) && CleanSnapshot(snapshot) && |idxs| == |snapshot|
    requires Allocated(MoveAll(z, ids), snapshot, idxs, opts) && RoomForAll(z.ilk, snapshot)
    ensures var moved, z' := MoveAll(z, ids), AddAll(MoveAll(z, ids), snapshot, idxs, opts);
      Inv(z') && (Holds(z', Local(z.live), snapshot) <==> forall p :: p in snapshot ==> KeysFree(moved.idxmap, p)) &&
      forall p :: p in snapshot ==> (IdOf(p) in z'.live <==> KeysFree(moved.idxmap, p))
    ensures LocalAndLive(AddAll(MoveAll(z, ids), snapshot, idxs, opts).live, Local(z.live), snapshot)
    ensures NoneFailed(MoveAll(z, ids), snapshot, idxs, opts)
  {
    assert forall i :: 0 <= i < |snapshot| ==> WellTyped(snapshot[i]);
    hide Inv, MoveAll, AddAll, Allocated, RoomForAll, Local, ListsRemote, CleanSnapshot, KeysFree, NoneFailed, Offered,
      LocalAndLive, Holds, WellTyped;
    var moved := MoveAll(z, ids);
    MoveAllKeeps(z, ids);
    OnlyLocalRemain(z, moved, ids);
    OfferAll(moved, Local(z.live), snapshot, idxs, opts);
    OfferedIff(moved, AddAll(moved, snapshot, idxs, opts), Local(z.live), snapshot);
  }

  /** Without stale entries the keys of all records are free. */
  lemma ExactKeysFree(moved: ZooState, local: map<Id, Entity>, snapshot: seq<Props>)
    requires IdxExact(moved.live, moved.idxmap) && LocalAndLive(moved.live, local, []) && CleanSnapshot(snapshot)
    requires LiveOk(moved.live)
    ensures forall p :: p in snapshot ==> KeysFree(moved.idxmap, p)
  {
    hide UniqueKeys, SharesKey, WellTyped, IsLocal, EntityOk;
    forall p, k | p in snapshot && k in UniqueKeys(p) ensures k !in moved.idxmap {
      if k in moved.idxmap {
        var id :| id in moved.live && k in UniqueKeys(moved.live[id].props);
        LocalKeysDiffer(moved.live[id].props, p, k);
      }
    }
  }

  /** ... and the resync leaves none. */
  lemma ExactAfter(z: ZooState, y: ZooState, local: map<Id, Entity>, snapshot: seq<Props>)
    requires IdxExact(z.live, z.idxmap) && LocalAndLive(z.live, local, []) && Offered(z, y, local, snapshot)
    requires forall p :: p in snapshot ==> KeysFree(z.idxmap, p)
    ensures IdxExact(y.live, y.idxmap)
  {
    hide UniqueKeys, Inv, KeysFree, Taken, Wanting, IsLocal;
    forall k | k in y.idxmap ensures exists id :: id in y.live && k in UniqueKeys(y.live[id].props) {
      if k in z.idxmap {
        var id :| id in z.live && k in UniqueKeys(z.live[id].props);
        assert id in y.live && y.live[id] == z.live[id];
      } else {
        var i :| 0 <= i < |snapshot| && k in UniqueKeys(snapshot[i]);
        assert IdOf(snapshot[i]) in y.live;
      }
    }
  }

  /** Full resync without stale entries: no constructor fails, what is live afterwards is the
      snapshot beside the local ports, which are untouched, and no stale entry is left. */
  lemma ResyncInstallsSnapshot(
    z: ZooState, ids: seq<Id>, snapshot: seq<Props>, idxs: seq<nat>, opts: Options)
    requires Inv(z) && IdxExact(z.live, z.idxmap) && ListsRemote(ids, z.live)
    requires CleanSnapshot(snapshot) && |idxs| == |snapshot|
    requires Allocated(MoveAll(z, ids), snapshot, idxs, opts) && RoomForAll(z.ilk, snapshot)
    ensures var z' := AddAll(MoveAll(z, ids), snapshot, idxs, opts);
      Inv(z') && IdxExact(z'.live, z'.idxmap) && Holds(z', Local(z.live), snapshot)
    ensures NoneFailed(MoveAll(z, ids), snapshot, idxs, opts)
  {
    assert forall i :: 0 <= i < |snapshot| ==> WellTyped(snapshot[i]);
    hide Inv, IdxExact, MoveAll, AddAll, Allocated, RoomForAll, Local, NoneFailed, ListsRemote, CleanSnapshot, Holds,
      Offered, LocalAndLive, LiveOk, KeysFree, WellTyped;
    var moved := MoveAll(z, ids);
    MoveAllKeeps(z, ids);
    MoveAllEmpties(z, ids);
    OnlyLocalRemain(z, moved, ids);
    InvHasLiveOk(moved);
    ExactKeysFree(moved, Local(z.live), snapshot);
    ResyncInstallsIff(z, ids, snapshot, idxs, opts);
    OfferAll(moved, Local(z.live), snapshot, idxs, opts);
    ExactAfter(moved, AddAll(moved, snapshot, idxs, opts), Local(z.live), snapshot);
  }

  lemma InvHasLiveOk(z: ZooState)
    requires Inv(z)
    ensures LiveOk(z.live)
  {
  }

  lemma SizeWithin(taken: set<nat>)
    requires taken <= AllIndices()
    ensures |taken| <= MAX_ILK && (AllIndices() - taken != {} ==> |taken| < MAX_ILK)
  {
    assert taken - AllIndices() == {};
    SmallerSet(taken, AllIndices());
    if x :| x in AllIndices() - taken {
      assert taken + {x} - AllIndices() == {};
      SmallerSet(taken + {x}, AllIndices());
    }
    hide Below;
  }

  /** A group whose constructor succeeds has an index left. */
  lemma SuccessLeavesRoom(ilk: map<IlkGroup, set<nat>>, p: Props)
    requires Within(ilk) && WellTyped(p) && IsIlk(p) && !IlkExhausted(ilk, p)
    ensures |Taken(ilk, GroupOf(p))| < MAX_ILK
  {
    hide GroupOf, AllIndices;
    SizeWithin(Taken(ilk, GroupOf(p)));
  }

  lemma {:induction false} SuccessNeedsRoom(
    z: ZooState, local: map<Id, Entity>, snapshot: seq<Props>, idxs: seq<nat>, opts: Options)
    requires Inv(z) && LocalAndLive(z.live, local, []) && CleanSnapshot(snapshot) && Within(z.ilk)
    requires |idxs| == |snapshot| && Allocated(z, snapshot, idxs, opts) && NoneFailed(z, snapshot, idxs, opts)
    ensures RoomForAll(z.ilk, snapshot)
  {
    hide Inv, LocalAndLive, SharesKey, AddEntity, MayTake, IlkExhausted, Taken, WellTyped, GroupOf, AllIndices,
      Offered, Within;
    if snapshot == [] {
      EmptyFits(z.ilk);
    } else {
      var n := |snapshot| - 1;
      LastIsClean(snapshot);
      SuccessNeedsRoom(z, local, snapshot[..n], idxs[..n], opts);
      OfferAll(z, local, snapshot[..n], idxs[..n], opts);
      LastLeavesRoom(z, AddAll(z, snapshot[..n], idxs[..n], opts), local, snapshot);
    }
  }

  lemma EmptyFits(ilk: map<IlkGroup, set<nat>>)
    requires Within(ilk)
    ensures RoomForAll(ilk, [])
  {
    forall g ensures |Taken(ilk, g)| + Wanting([], g) <= MAX_ILK {
      SizeWithin(Taken(ilk, g));
    }
  }

  lemma LastLeavesRoom(z: ZooState, y: ZooState, local: map<Id, Entity>, snapshot: seq<Props>)
    requires snapshot != [] && Offered(z, y, local, snapshot[..|snapshot| - 1]) && Within(z.ilk)
    requires RoomForAll(z.ilk, snapshot[..|snapshot| - 1]) && WellTyped(snapshot[|snapshot| - 1])
    requires !IlkExhausted(y.ilk, snapshot[|snapshot| - 1])
    ensures RoomForAll(z.ilk, snapshot)
  {
    hide Inv, LocalAndLive, IlkExhausted, Taken, WellTyped, GroupOf, AllIndices, Within, KeysFree, KeyOfSome;
    var p, before := snapshot[|snapshot| - 1], snapshot[..|snapshot| - 1];
    if IsIlk(p) { SuccessLeavesRoom(y.ilk, p); }
    forall g ensures |Taken(z.ilk, g)| + Wanting(snapshot, g) <= MAX_ILK {
      assert |Taken(z.ilk, g)| + Wanting(before, g) <= MAX_ILK;
      assert |Taken(y.ilk, g)| == |Taken(z.ilk, g)| + Wanting(before, g);
    }
  }

  /** A full resync goes through without a failing constructor if and only if the
      members of every group, before it and in the snapshot, fit the 64 indices. */
  lemma ResyncSucceedsIff(z: ZooState, ids: seq<Id>, snapshot: seq<Props>, idxs: seq<nat>, opts: Options)
    requires Inv(z) && ListsRemote(ids, z.live) && Within(z.ilk)
    requires CleanSnapshot(snapshot) && |idxs| == |snapshot| && Allocated(MoveAll(z, ids), snapshot, idxs, opts)
    ensures NoneFailed(MoveAll(z, ids), snapshot, idxs, opts) <==> RoomForAll(z.ilk, snapshot)
  {
    assert forall i :: 0 <= i < |snapshot| ==> WellTyped(snapshot[i]);
    hide Inv, LocalAndLive, MoveAll, AddAll, Allocated, RoomForAll, Offered, Local, NoneFailed, ListsRemote,
      CleanSnapshot, Within, WellTyped;
    MoveAllKeeps(z, ids);
    OnlyLocalRemain(z, MoveAll(z, ids), ids);
    if NoneFailed(MoveAll(z, ids), snapshot, idxs, opts) {
      SuccessNeedsRoom(MoveAll(z, ids), Local(z.live), snapshot, idxs, opts);
    }
    if RoomForAll(z.ilk, snapshot) {
      OfferAll(MoveAll(z, ids), Local(z.live), snapshot, idxs, opts);
    }
  }

  // ----- Every reachable allocator stays within its indices -----

  lemma {:induction false} SweepKeepsWithin(ilk: map<IlkGroup, set<nat>>, sink: seq<Entity>)
    requires Within(ilk)
    ensures Within(IlkWithout(ilk, sink))
  {
    hide GroupOf, AllIndices;
    if sink != [] {
      forall g ensures Taken(FreeIndex(ilk, sink[0]), g) <= AllIndices() {
        assert Taken(FreeIndex(ilk, sink[0]), g) <= Taken(ilk, g);
      }
      SweepKeepsWithin(FreeIndex(ilk, sink[0]), sink[1..]);
    }
  }

  lemma AddKeepsWithin(z: ZooState, p: Props, idx: nat, opts: Options)
    requires Within(z.ilk) && WellTyped(p) && (ValidChoice(z.ilk, p, idx) || IlkExhausted(z.ilk, p))
    ensures Within(AddEntity(z, p, idx, opts).ilk)
  {
    hide GroupOf, UniqueKeys, RemoveKeys, InsertKeys, TakeIndex, TouchedAtBirth, Taken, AllIndices, Mark;
    if !SameAsLive(z, p) && !IlkExhausted(z.ilk, p) {
      hide ValidChoice, IlkExhausted;
      forall g ensures Taken(TakeIndex(z.ilk, p, idx), g) <= AllIndices() {
        assert Taken(z.ilk, g) <= AllIndices();
        TakesOneIndex(z.ilk, p, idx, g);
      }
    }
  }

  lemma StepKeepsWithin(z: ZooState, step: ZooStep, opts: Options)
    requires Within(z.ilk) && ZooEnabled(z, step)
    ensures Within(ZooNext(z, step, opts).ilk)
  {
    hide UniqueKeys, RemoveKeys, AddEntity, IlkWithout, FactsWithout, Mark, Within, ValidChoice, IlkExhausted;
    match step
    case AddOp(p, idx) => AddKeepsWithin(z, p, idx, opts);
    case MoveOp(_) =>
    case TouchOp(_) =>
    case SweepOp => SweepKeepsWithin(z.ilk, z.sink);
  }

  lemma {:induction false} ZooRunKeepsWithin(states: seq<ZooState>, steps: seq<ZooStep>, opts: Options)
    requires ZooRun(states, steps, opts)
    ensures Within(states[|steps|].ilk)
    decreases |steps|
  {
    if steps != [] {
      hide ZooEnabled, ZooNext, ZooRun, Within;
      var n := |steps|;
      ZooRunInit(states, steps, opts);
      ZooRunKeepsWithin(states[..n], steps[..n - 1], opts);
      StepKeepsWithin(states[n - 1], steps[n - 1], opts);
    }
  }

  /** Why the room is needed: indices are freed by the sweep only, so a group whose 64
      indices are taken rejects every record of the snapshot, even an unchanged one. */
  lemma FullGroupRejects(z: ZooState, ids: seq<Id>, p: Props, idx: nat, opts: Options)
    requires Inv(z) && ListsRemote(ids, z.live)
    requires WellTyped(p) && IsIlk(p) && AllIndices() - Taken(z.ilk, GroupOf(p)) == {}
    ensures var z' := MoveAll(z, ids); AddEntity(z', p, idx, opts) == z' && IdOf(p) !in z'.live
  {
    hide Inv, MoveAll, IlkExhausted, AllIndices, Taken, GroupOf, WellTyped;
    MoveAllKeeps(z, ids);
    FullIsExhausted(z.ilk, p);
  }

  lemma FullIsExhausted(ilk: map<IlkGroup, set<nat>>, p: Props)
    requires WellTyped(p) && IsIlk(p) && AllIndices() - Taken(ilk, GroupOf(p)) == {}
    ensures IlkExhausted(ilk, p)
  {
    hide GroupOf;
    assert 0 in AllIndices();
  }

  // ----- When an add leaves stale keys -----

  /** The entity would be rejected at its second key, after its first one was inserted. */
  ghost predicate HalfClaimed(z: ZooState, p: Props) {
    var keys, free := UniqueKeys(p), MoveToSink(z, IdOf(p)).idxmap;
    !SameAsLive(z, p) && !IlkExhausted(z.ilk, p) && |keys| == 2 && keys[0] !in free && keys[1] in free
  }

  lemma InsertResult(m: map<UniqueKey, Props>, p: Props)
    ensures var keys := UniqueKeys(p);
      0 < |keys| <= 2 && (|keys| == 2 ==> keys[0] != keys[1]) &&
      InsertKeys(m, keys, p) ==
        if keys[0] in m then (false, m)
        else if |keys| == 1 then (true, m[keys[0] := p])
        else if keys[1] in m then (false, m[keys[0] := p])
        else (true, m[keys[0] := p][keys[1] := p])
  {
    var keys := UniqueKeys(p);
    assert |keys| == 2 ==> keys[0].name != keys[1].name;
    hide UniqueKeys;
    var m1 := m[keys[0] := p];
    if |keys| == 2 {
      assert keys[1..] == [keys[1]] && [keys[1]][1..] == [];
      assert InsertKeys(m1[keys[1] := p], [], p) == (true, m1[keys[1] := p]);
      assert InsertKeys(m1, keys[1..], p) == if keys[1] in m1 then (false, m1) else (true, m1[keys[1] := p]);
    } else {
      assert keys[1..] == [] && InsertKeys(m1, keys[1..], p) == (true, m1);
    }
  }

  lemma AdmitKeepsExactIff(z: ZooState, e: Entity)
    requires Inv(z) && IdxExact(z.live, z.idxmap)
    ensures var m, keys, z' := MoveToSink(z, IdOf(e.props)).idxmap, UniqueKeys(e.props), Admit(z, e);
      IdxExact(z'.live, z'.idxmap) <==> !(|keys| == 2 && keys[0] !in m && keys[1] in m)
  {
    var id, keys := IdOf(e.props), UniqueKeys(e.props);
    var y, z' := MoveToSink(z, id), Admit(z, e);
    hide UniqueKeys, Inv, MoveToSink, InsertKeys, Admit, IdxExact;
    MovedIsGone(z, id);
    MoveKeepsInv(z, id);
    MoveKeepsExact(z, id);
    InsertResult(y.idxmap, e.props);
    AdmitResult(z, e);
    if keys[0] !in y.idxmap {
      if |keys| == 2 && keys[1] in y.idxmap {
        FreeKeyIsUnowned(y, keys[0]);
        UnownedKeyIsStale(z', keys[0]);
      } else {
        assert forall k :: k in keys ==> k !in y.idxmap;
        AcceptedKeysExact(y, e, z');
      }
    }
  }

  lemma FreeKeyIsUnowned(z: ZooState, k: UniqueKey)
    requires Inv(z) && k !in z.idxmap
    ensures forall id :: id in z.live ==> k !in UniqueKeys(z.live[id].props)
  {
    hide UniqueKeys, DelNoSeparate, IlkSeparate, FactsAgree;
  }

  lemma UnownedKeyIsStale(z: ZooState, k: UniqueKey)
    requires k in z.idxmap && forall id :: id in z.live ==> k !in UniqueKeys(z.live[id].props)
    ensures !IdxExact(z.live, z.idxmap)
  {
    hide UniqueKeys;
  }

  lemma AcceptedKeysExact(y: ZooState, e: Entity, z': ZooState)
    requires IdxExact(y.live, y.idxmap) && IdOf(e.props) !in y.live && z'.live == y.live[IdOf(e.props) := e]
    requires forall k :: k in z'.idxmap ==> k in y.idxmap || k in UniqueKeys(e.props)
    ensures IdxExact(z'.live, z'.idxmap)
  {
    hide UniqueKeys;
    forall k | k in z'.idxmap ensures exists id :: id in z'.live && k in UniqueKeys(z'.live[id].props) {
      if k in UniqueKeys(e.props) {
        assert IdOf(e.props) in z'.live;
      } else {
        var id :| id in y.live && k in UniqueKeys(y.live[id].props);
        assert id in z'.live;
      }
    }
  }

  /** An add leaves an entry of entity_idxmap without an owner exactly when the entity
      is rejected at its second key. */
  lemma AddKeepsExactIff(z: ZooState, p: Props, idx: nat, opts: Options)
    requires Inv(z) && IdxExact(z.live, z.idxmap) && WellTyped(p)
    requires ValidChoice(z.ilk, p, idx) || IlkExhausted(z.ilk, p)
    ensures var z' := AddEntity(z, p, idx, opts);
      IdxExact(z'.live, z'.idxmap) <==> !HalfClaimed(z, p)
  {
    hide Inv, IdxExact, Admit, IlkExhausted, ValidChoice, TakeIndex, UniqueKeys, TouchedAtBirth;
    if !SameAsLive(z, p) && !IlkExhausted(z.ilk, p) {
      TakeIndexIsFresh(z, p, idx, opts);
      var z1 := z.(ilk := TakeIndex(z.ilk, p, idx));
      assert MoveToSink(z1, IdOf(p)).idxmap == MoveToSink(z, IdOf(p)).idxmap;
      AdmitKeepsExactIff(z1, NewEntity(p, idx, opts));
    }
  }

  lemma PortIsAdmitted(z: ZooState, p: Props, opts: Options)
    requires p.Lsp? && WellTyped(p) && IdOf(p) !in z.live
    ensures AddEntity(z, p, 0, opts) == Admit(z, NewEntity(p, 0, opts)) && MoveToSink(z, IdOf(p)) == z
  {
    hide Admit, NewEntity, UniqueKeys;
    assert !IlkExhausted(z.ilk, p) && TakeIndex(z.ilk, p, 0) == z.ilk;
    assert z.(ilk := z.ilk) == z;
  }

  /** Adding a port under an id that is not live. */
  lemma AddNewPort(z: ZooState, p: Props, opts: Options)
    requires p.Lsp? && WellTyped(p) && IdOf(p) !in z.live
    ensures var keys, z' := UniqueKeys(p), AddEntity(z, p, 0, opts);
      if keys[0] in z.idxmap then z'.live == z.live && z'.idxmap == z.idxmap
      else if keys[1] in z.idxmap then z'.live == z.live && z'.idxmap == z.idxmap[keys[0] := p]
      else z'.live == z.live[IdOf(p) := NewEntity(p, 0, opts)] && z'.idxmap == z.idxmap[keys[0] := p][keys[1] := p]
  {
    assert |UniqueKeys(p)| == 2 && NewEntity(p, 0, opts).props == p;
    hide InsertKeys, UniqueKeys, Admit, NewEntity, AddEntity, MoveToSink;
    PortIsAdmitted(z, p, opts);
    InsertResult(z.idxmap, p);
    AdmitResult(z, NewEntity(p, 0, opts));
  }

  /** A stale entry then rejects a port that conflicts with nothing: "b" was refused
      for the MAC of "a", and the address it named stays blocked for "c". */
  lemma StaleKeyBlocks(opts: Options)
    ensures var a, b, c := Lsp("a", 1, "m", "s", None, None), Lsp("b", 2, "m", "s", None, None),
      Lsp("c", 2, "n", "s", None, None);
      var z := AddEntity(AddEntity(EmptyZoo(), a, 0, opts), b, 0, opts);
      z.live.Keys == {IdOf(a)} && !SharesKey(a, c) && AddEntity(z, c, 0, opts).live == z.live
  {
    var a, b, c := Lsp("a", 1, "m", "s", None, None), Lsp("b", 2, "m", "s", None, None),
      Lsp("c", 2, "n", "s", None, None);
    hide UniqueKeys, AddEntity, NewEntity, SharesKey;
    KeysOfThree(a, b, c);
    assert IdOf(a) != IdOf(b) && IdOf(a) != IdOf(c);
    SecondBlocksThird(a, b, c, opts);
  }

  lemma SecondBlocksThird(a: Props, b: Props, c: Props, opts: Options)
    requires a.Lsp? && b.Lsp? && c.Lsp? && WellTyped(a) && WellTyped(b) && WellTyped(c)
    requires IdOf(a) != IdOf(b) && IdOf(a) != IdOf(c)
    requires |UniqueKeys(a)| == |UniqueKeys(b)| == |UniqueKeys(c)| == 2
    requires UniqueKeys(a)[1] == UniqueKeys(b)[1] && UniqueKeys(b)[0] == UniqueKeys(c)[0]
    requires UniqueKeys(a)[0] != UniqueKeys(b)[0] && UniqueKeys(b)[0] != UniqueKeys(b)[1]
    requires UniqueKeys(a)[0] != UniqueKeys(a)[1]
    ensures var z := AddEntity(AddEntity(EmptyZoo(), a, 0, opts), b, 0, opts);
      z.live.Keys == {IdOf(a)} && AddEntity(z, c, 0, opts).live == z.live
  {
    hide UniqueKeys, AddEntity, NewEntity, WellTyped, IdOf;
    AddNewPort(EmptyZoo(), a, opts);
    var y := AddEntity(EmptyZoo(), a, 0, opts);
    AddNewPort(y, b, opts);
    var z := AddEntity(y, b, 0, opts);
    AddNewPort(z, c, opts);
  }

  lemma KeysOfThree(a: Props, b: Props, c: Props)
    requires a == Lsp("a", 1, "m", "s", None, None) && b == Lsp("b", 2, "m", "s", None, None)
    requires c == Lsp("c", 2, "n", "s", None, None)
    ensures var k, l, m := UniqueKeys(a), UniqueKeys(b), UniqueKeys(c);
      |k| == |l| == |m| == 2 && k[1] == l[1] && l[0] == m[0] && k[0] != l[0] && !SharesKey(a, c) &&
      k[0] != k[1] && l[0] != l[1]
  {
    QuadReadsBack(1);
    QuadReadsBack(2);
    hide DottedQuad, ParseQuad;
    var x, y := "s" + DottedQuad(1), "s" + DottedQuad(2);
    assert x[1..] == DottedQuad(1) && y[1..] == DottedQuad(2);
    assert ("s" + "m")[1] != ("s" + "n")[1];
    assert UniqueKeys(a)[0].name != UniqueKeys(a)[1].name;
    assert UniqueKeys(a) == [UniqueKey("ls_view_ip", x), UniqueKey("ls_view_mac", "s" + "m")];
    assert UniqueKeys(b) == [UniqueKey("ls_view_ip", y), UniqueKey("ls_view_mac", "s" + "m")];
    assert UniqueKeys(c) == [UniqueKey("ls_view_ip", y), UniqueKey("ls_view_mac", "s" + "n")];
  }
}
