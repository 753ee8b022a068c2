// The logical entities of the agent's zoo, and what they contribute to the
// Datalog fact base.

module Entities {
  import opened Common
  import opened TextCodec

  type Uuid = string

  const STATE_NO := 0
  const STATE_ADD := 1
  const STATE_DEL := -100

  datatype EntityType =
    | TypeLsp | TypeLrp | TypeLsr | TypeLnat | TypeChassis | TypeLs | TypeLr
    | TypeOvsPort | TypeOvsPortChassis

  /** What a constructor receives; the order of the fields is the source's. */
  datatype Props =
    | Lsp(uuid: Uuid, ip: nat, mac: string, ls: Uuid, chassis: Option<Uuid>, peer: Option<Uuid>)
    | Lrp(uuid: Uuid, ip: nat, prefix: nat, mac: string, lr: Uuid, lrpPeer: Option<Uuid>)
    | Lsr(uuid: Uuid, lr: Uuid, ip: nat, prefix: nat, nextHop: nat, outport: Uuid)
    | Lnat(uuid: Uuid, lr: Uuid, ip: nat, prefix: nat, xlateIp: nat, xlateType: string)
    | Chassis(uuid: Uuid, ip: nat, tick: nat)
    | Ls(uuid: Uuid, lsId: nat)
    | Lr(uuid: Uuid, lrId: nat, lrChassis: Option<Uuid>)
    | OvsPort(uuid: Uuid, iface: Uuid, ofport: nat, remote: bool)

  function TypeOf(p: Props): EntityType {
    match p
    case Lsp(_, _, _, _, _, _) => TypeLsp
    case Lrp(_, _, _, _, _, _) => TypeLrp
    case Lsr(_, _, _, _, _, _) => TypeLsr
    case Lnat(_, _, _, _, _, _) => TypeLnat
    case Chassis(_, _, _) => TypeChassis
    case Ls(_, _) => TypeLs
    case Lr(_, _, _) => TypeLr
    case OvsPort(_, _, _, remote) => if remote then TypeOvsPortChassis else TypeOvsPort
  }

  datatype Id = Id(etype: EntityType, uuid: Uuid)

  function IdOf(p: Props): Id {
    Id(TypeOf(p), p.uuid)
  }

  /** An entry of entity_idxmap: the name of the key and its text. */
  datatype UniqueKey = UniqueKey(name: string, text: string)

  /** uniq_check_keys of every class, in the order _insert_entity_idxmap visits them. */
  function UniqueKeys(p: Props): seq<UniqueKey> {
    match p
    case Lsp(_, ip, mac, ls, _, _) =>
      [UniqueKey("ls_view_ip", ls + DottedQuad(ip)), UniqueKey("ls_view_mac", ls + mac)]
    case Lrp(_, ip, _, mac, lr, _) =>
      [UniqueKey("lr_view_ip", lr + DottedQuad(ip)), UniqueKey("lr_view_mac", lr + mac)]
    case Lsr(_, lr, ip, prefix, nextHop, outport) =>
      [UniqueKey("lr_view_lsr",
                 "lsr" + lr + DottedQuad(ip) + Dec(prefix) + DottedQuad(nextHop) + outport)]
    case Lnat(_, lr, ip, prefix, _, xlateType) =>
      [UniqueKey("lr_view_lnat", "lnat" + lr + DottedQuad(ip) + Dec(prefix) + xlateType)]
    case Chassis(_, ip, tick) =>
      [UniqueKey("global_view_chassis", "chassis" + DottedQuad(ip) + Dec(tick))]
    case Ls(_, lsId) => [UniqueKey("global_view_id", Dec(lsId))]
    case Lr(_, lrId, _) => [UniqueKey("global_view_id", Dec(lrId))]
    case OvsPort(name, iface, ofport, _) =>
      [UniqueKey("host_view_ovsport", "ovsport" + name + iface + Dec(ofport))]
  }

  predicate IsIlk(p: Props) {
    p.Lrp? || p.Lsr?
  }

  /** ip2int yields 32 bits and the constructors clamp prefixes to 0..32. */
  predicate WellTyped(p: Props) {
    (p.Lrp? || p.Lsr? ==> p.prefix <= 32 && p.ip < 0x1_0000_0000) &&
    (p.Lsp? ==> p.ip < 0x1_0000_0000)
  }

  /** A group of _ilk_group: entity type and the text "{lr}{network}{prefix}". */
  datatype IlkGroup = IlkGroup(etype: EntityType, text: string)

  function GroupOf(p: Props): IlkGroup
    requires IsIlk(p) && WellTyped(p)
  {
    IlkGroup(TypeOf(p), p.lr + Dec(Net(p.ip, p.prefix)) + Dec(p.prefix))
  }

  /** The group and index that an entity occupies in the allocator, if any. */
  datatype Slot = Slot(g: IlkGroup, idx: nat)

  function SlotOf(p: Props, idx: nat): Option<Slot> {
    if IsIlk(p) && WellTyped(p) then Some(Slot(GroupOf(p), idx)) else None
  }

  const MAX_ILK := 64

  /** A row of the fact base: the entity's columns, ILK index and state. */
  datatype Fact = Fact(props: Props, ilk: nat, state: int)

  /** `row` is the copy of the columns that _update_dup_data keeps; facts are
      added and removed through that copy, never through the fields. */
  datatype Entity = Entity(props: Props, ilk: nat, state: int, touched: bool, row: Fact)

  function Image(e: Entity): Fact {
    Fact(e.props, e.ilk, e.state)
  }

  function UpdateDupData(e: Entity): Entity {
    e.(row := Image(e))
  }

  function AddClause(facts: set<Fact>, e: Entity): set<Fact> {
    if e.touched then facts + {e.row} else facts
  }

  function DelClause(facts: set<Fact>, e: Entity): set<Fact> {
    if e.touched then facts - {e.row} else facts
  }

  /** mark: set the state, withdraw the old row, refresh the copy, publish the new row. */
  function Mark(facts: set<Fact>, e: Entity, event: int): (set<Fact>, Entity) {
    var e1 := e.(state := event);
    var withdrawn := DelClause(facts, e1);
    var e2 := UpdateDupData(e1);
    (AddClause(withdrawn, e2), e2)
  }

  /** Command line options that the entity classes and the rules consult. */
  datatype Options = Options(systemId: Uuid, ondemand: bool)

  /** _should_touch; classes without it publish their facts from the start. */
  predicate TouchedAtBirth(p: Props, opts: Options) {
    match p
    case Lsp(_, _, _, _, chassis, peer) =>
      !opts.ondemand || chassis == Some(opts.systemId) || peer.Some?
    case Chassis(uuid, _, _) => !opts.ondemand || uuid == opts.systemId
    case _ => true
  }

  function NewEntity(p: Props, ilk: nat, opts: Options): Entity {
    UpdateDupData(Entity(p, ilk, STATE_ADD, TouchedAtBirth(p, opts), Fact(p, ilk, STATE_ADD)))
  }
}
