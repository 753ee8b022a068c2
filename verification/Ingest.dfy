// From a record that a controller saved to the entity that the agent adds: the key
// names the kind, the id and the owner, the text the other properties.

module Ingest {
  import opened Common
  import opened TextCodec
  import opened Entities
  import opened Records
  import opened EtcdStore
  import opened LinkMaster

  // ----- How the agent reads a record -----

  const WATCHED := "/entity_view/"

  /** ip2int: only the canonical form of an address is accepted. */
  function Ip2Int(text: string): Option<nat> {
    match ParseQuad(text)
    case Some(n) => if n < 0x1_0000_0000 && DottedQuad(n) == text then Some(n) else None
    case None => None
  }

  /** int(text) on decimal digits. */
  function ToInt(text: string): Option<nat> {
    if IsNumber(text) then Some(NumberValue(text)) else None
  }

  /** The constructors clamp prefixes. */
  function ToPrefix(text: string): Option<nat> {
    match ToInt(text)
    case Some(n) => Some(if n > 32 then 32 else n)
    case None => None
  }

  predicate IsHex(c: char) {
    '0' <= c <= '9' || 'a' <= c <= 'f' || 'A' <= c <= 'F'
  }

  /** int(mac.translate(None, ":.- "), 16) succeeds. */
  predicate IsMac(text: string) {
    (forall c :: c in text ==> IsHex(c) || c in ":.- ") && exists c :: c in text && IsHex(c)
  }

  function Get(e: Entry, tag: string): Option<string> {
    if tag in e then Some(e[tag]) else None
  }

  /** A property that the constructor parses; none if it is missing or malformed. */
  function Read<T>(e: Entry, tag: string, parse: string -> Option<T>): Option<T> {
    if tag in e then parse(e[tag]) else None
  }

  function ReadMac(e: Entry): Option<string> {
    if "mac" in e && IsMac(e["mac"]) then Some(e["mac"]) else None
  }

  function SwitchPortOf(id: Uuid, owner: Uuid, e: Entry): Option<Props> {
    match (Read(e, "ip", Ip2Int), ReadMac(e))
    case (Some(ip), Some(mac)) => Some(Lsp(id, ip, mac, owner, Get(e, "chassis"), Get(e, "peer")))
    case _ => None
  }

  function RouterPortOf(id: Uuid, owner: Uuid, e: Entry): Option<Props> {
    match (Read(e, "ip", Ip2Int), Read(e, "prefix", ToPrefix), ReadMac(e))
    case (Some(ip), Some(prefix), Some(mac)) => Some(Lrp(id, ip, prefix, mac, owner, Get(e, "peer")))
    case _ => None
  }

  function StaticRouteOf(id: Uuid, owner: Uuid, e: Entry): Option<Props> {
    match (Read(e, "ip", Ip2Int), Read(e, "prefix", ToPrefix), Read(e, "next_hop", Ip2Int), Get(e, "outport"))
    case (Some(ip), Some(prefix), Some(hop), Some(outport)) => Some(Lsr(id, owner, ip, prefix, hop, outport))
    case _ => None
  }

  function NatOf(id: Uuid, owner: Uuid, e: Entry): Option<Props> {
    match (Read(e, "ip", Ip2Int), Read(e, "prefix", ToInt), Read(e, "xlate_ip", Ip2Int), Get(e, "xlate_type"))
    case (Some(ip), Some(prefix), Some(xlate), Some(kind)) => Some(Lnat(id, owner, ip, prefix, xlate, kind))
    case _ => None
  }

  function ChassisOf(id: Uuid, e: Entry): Option<Props> {
    match (Read(e, "ip", Ip2Int), Read(e, "tick", ToInt))
    case (Some(ip), Some(tick)) => Some(Entities.Chassis(id, ip, tick))
    case _ => None
  }

  function SwitchOf(id: Uuid, e: Entry): Option<Props> {
    match Read(e, "id", ToInt)
    case Some(n) => Some(Ls(id, n))
    case None => None
  }

  function RouterOf(id: Uuid, e: Entry): Option<Props> {
    match Read(e, "id", ToInt)
    case Some(n) => Some(Lr(id, n, Get(e, "chassis")))
    case None => None
  }

  /** _convert_kv2entity: the last part of the key is the id, the third last the owner's. */
  function Converted(key: string, e: Entry): Option<Props> {
    var parts, n := Split(key, '/'), |Split(key, '/')|;
    if "TYPE" !in e || n < 3 then None
    else
      var id, owner, mark := parts[n - 1], parts[n - 3], e["TYPE"];
      if mark == "lsp" then SwitchPortOf(id, owner, e)
      else if mark == "lrp" then RouterPortOf(id, owner, e)
      else if mark == "lsr" then StaticRouteOf(id, owner, e)
      else if mark == "lnat" then NatOf(id, owner, e)
      else if mark == "chassis" then ChassisOf(id, e)
      else if mark == "LS" then SwitchOf(id, e)
      else if mark == "LR" then RouterOf(id, e)
      else None
  }

  // ----- What the constructors accept -----

  /** Exactly the canonical text of an address is read as that address. */
  lemma AddressReadIff(text: string, n: nat)
    ensures Ip2Int(text) == Some(n) <==> n < 0x1_0000_0000 && text == DottedQuad(n)
  {
    if n < 0x1_0000_0000 { QuadReadsBack(n); }
    hide ParseQuad, DottedQuad;
  }

  /** translate(None, ":.- "). */
  function Stripped(text: string): string {
    if text == "" then "" else (if text[0] in ":.- " then "" else [text[0]]) + Stripped(text[1..])
  }

  lemma {:induction false} StrippedHolds(text: string)
    ensures forall c :: c in Stripped(text) <==> c in text && c !in ":.- "
  {
    if text != "" {
      StrippedHolds(text[1..]);
      assert forall c :: c in text <==> c == text[0] || c in text[1..];
    }
  }

  /** A MAC is accepted if and only if digits are left without its separators, all of them hexadecimal. */
  lemma MacReadIff(text: string)
    ensures IsMac(text) <==> Stripped(text) != "" && forall c :: c in Stripped(text) ==> IsHex(c)
  {
    StrippedHolds(text);
    assert forall c :: c in ":.- " ==> !IsHex(c);
    if Stripped(text) != "" { assert Stripped(text)[0] in Stripped(text); }
    hide Stripped;
  }

  // ----- What the controller writes is what the agent looks for -----

  function MarkFor(k: Key): Option<string> {
    match k
    case SwitchPortKey(_, _) => Some("lsp")
    case RouterPortKey(_, _) => Some("lrp")
    case StaticRouteKey(_, _) => Some("lsr")
    case NatKey(_, _) => Some("lnat")
    case ChassisKey(_) => Some("chassis")
    case SwitchKey(_) => Some("LS")
    case RouterKey(_) => Some("LR")
    case _ => None
  }

  function NameOf(k: Key): string
    requires MarkFor(k).Some?
  {
    match k
    case SwitchPortKey(_, n) => n
    case RouterPortKey(_, n) => n
    case StaticRouteKey(_, n) => n
    case NatKey(_, n) => n
    case ChassisKey(n) => n
    case SwitchKey(n) => n
    case RouterKey(n) => n
  }

  lemma PartsOfPath(k: Key)
    requires Named(k)
    ensures Split(Path(k), '/') == [""] + Segments(k)
  {
    var parts := [""] + Segments(k);
    assert Path(k) == Join(parts, '/') by { assert parts[1..] == Segments(k); }
    hide Join, Split, Path, Segments;
    assert forall s :: s in parts ==> '/' !in s;
    SplitJoin(parts, '/');
  }

  lemma KnownMarks(k: Key)
    requires MarkFor(k).Some?
    ensures MarkFor(k).value in MARKS
  {
    assert MARKS[0] == "lsp" && MARKS[1] == "lrp" && MARKS[2] == "lsr" && MARKS[3] == "lnat";
    assert MARKS[4] == "chassis" && MARKS[5] == "LS" && MARKS[6] == "LR";
  }

  /** Every device that the controller stores is mirrored under its own type. */
  lemma DevicesAreMirrored(k: Key)
    requires Named(k) && MarkFor(k).Some?
    ensures MarkOf(Path(k)) == MarkFor(k)
  {
    PartsOfPath(k);
    KnownMarks(k);
    hide Split, Path;
  }

  lemma JoinFirst(s: seq<string>)
    requires |s| > 1
    ensures "/" + Join(s, '/') == "/" + s[0] + "/" + Join(s[1..], '/')
  {
    var rest := Join(s[1..], '/');
    assert Join(s, '/') == s[0] + "/" + rest;
    hide Join;
  }

  lemma FirstPart(k: Key)
    ensures var s := Segments(k); Path(k) == "/" + s[0] + "/" + Join(s[1..], '/')
  {
    var s := Segments(k);
    hide Join;
    JoinFirst(s);
  }

  /** The watched directory holds the devices and nothing else that the controller stores. */
  lemma WatchedIff(k: Key)
    ensures WATCHED <= Path(k) <==> MarkFor(k).Some?
  {
    FirstPart(k);
    FirstWord(k);
    var first, rest := Segments(k)[0], Join(Segments(k)[1..], '/');
    hide Join, Path, Segments, MarkFor;
    WatchedWord(first, rest);
  }

  lemma FirstWord(k: Key)
    ensures Segments(k)[0] in {"entity_view", "globals", "ip_book"}
    ensures Segments(k)[0] == "entity_view" <==> MarkFor(k).Some?
  {
    assert "globals"[0] == 'g' && "ip_book"[0] == 'i' && "entity_view"[0] == 'e';
  }

  lemma WatchedWord(first: string, rest: string)
    requires first in {"entity_view", "globals", "ip_book"}
    ensures WATCHED <= "/" + first + "/" + rest <==> first == "entity_view"
  {
    var path := "/" + first + "/" + rest;
    assert path[1] == first[0];
    if first == "entity_view" {
      assert path == WATCHED + rest;
    } else {
      assert path[1] != WATCHED[1];
    }
  }

  // ----- Fields arrive under their tags -----

  lemma {:induction false} WrittenTags(schema: Schema, vals: seq<FieldValue>, tag: string)
    requires |schema| == |vals| && forall i :: 0 <= i < |schema| ==> schema[i].tag != tag
    ensures tag !in Written(schema, vals)
  {
    if schema != [] {
      WrittenTags(schema[..|schema| - 1], vals[..|vals| - 1], tag);
    }
  }

  lemma {:induction false} FieldArrives(schema: Schema, vals: seq<FieldValue>, i: nat)
    requires |schema| == |vals| && i < |schema|
    requires forall a, b :: 0 <= a < b < |schema| ==> schema[a].tag != schema[b].tag
    ensures Get(Written(schema, vals), schema[i].tag) ==
      if schema[i].omitEmpty && vals[i] == Zero(schema[i].kind) then None else Some(Printed(vals[i]))
  {
    var n := |schema| - 1;
    if i < n {
      FieldArrives(schema[..n], vals[..n], i);
    } else {
      WrittenTags(schema[..n], vals[..n], schema[i].tag);
    }
  }

  /** What the view holds for a saved record. */
  lemma EntryArrives(k: Key, schema: Schema, vals: seq<FieldValue>)
    requires Named(k) && MarkFor(k).Some? && GoodSchema(schema) && AllFit(schema, vals)
    ensures MarkOf(Path(k)) == MarkFor(k)
    ensures EntryOf(Path(k), Marshal(schema, vals)) == Written(schema, vals)["TYPE" := MarkFor(k).value]
  {
    DevicesAreMirrored(k);
    PythonReadsTheSame(schema, vals);
  }

  predicate PlainText(s: string) {
    ',' !in s && NoOuterSpace(s)
  }

  lemma QuadIsPlain(ip: nat)
    requires ip < 0x1_0000_0000
    ensures PlainText(DottedQuad(ip)) && Ip2Int(DottedQuad(ip)) == Some(ip)
  {
    QuadReadsBack(ip);
    var s := DottedQuad(ip);
    assert forall i :: 0 <= i < |s| ==> IsDigit(s[i]) || s[i] == '.';
    hide DottedQuad, ParseQuad;
    assert ',' !in s;
  }

  lemma NumberArrives(n: nat)
    ensures ToInt(Printed(Num(n))) == Some(n)
  {
    DecReadsBack(n);
  }

  function OwnerOf(k: Key): string
    requires k.SwitchPortKey? || k.RouterPortKey? || k.StaticRouteKey? || k.NatKey?
  {
    k.owner
  }

  lemma KeyNames(k: Key)
    requires Named(k) && MarkFor(k).Some?
    ensures var parts, n := Split(Path(k), '/'), |Split(Path(k), '/')|;
      n >= 3 && parts[n - 1] == NameOf(k) &&
      (k.SwitchPortKey? || k.RouterPortKey? || k.StaticRouteKey? || k.NatKey? ==> parts[n - 3] == OwnerOf(k))
  {
    PartsOfPath(k);
    hide Split, Path;
  }

  function Optional(s: string): Option<string> {
    if s == "" then None else Some(s)
  }

  /** What the agent makes of the text that the controller stored under the key. */
  function Arrived(k: Key, schema: Schema, vals: seq<FieldValue>): Option<Props>
    requires MarkOf(Path(k)).Some? && |schema| == |vals|
  {
    Converted(Path(k), EntryOf(Path(k), Marshal(schema, vals)))
  }

  // ----- Every record arrives as the entity it describes -----

  lemma SwitchPortArrives(owner: string, name: string, ip: nat, mac: string, peer: string, chassis: string)
    requires Named(SwitchPortKey(owner, name)) && ip < 0x1_0000_0000 && IsMac(mac)
    requires PlainText(mac) && PlainText(peer) && PlainText(chassis)
    ensures MarkOf(Path(SwitchPortKey(owner, name))).Some?
    ensures Arrived(SwitchPortKey(owner, name), SWITCH_PORT, [Str(DottedQuad(ip)), Str(mac), Str(peer), Str(chassis)])
      == Some(Lsp(name, ip, mac, owner, Optional(chassis), Optional(peer)))
  {
    hide DottedQuad, Split, Path, Marshal, EntryOf, MarkOf, Written, Ip2Int, IsMac, GoodSchema, NoOuterSpace;
    var k, vals := SwitchPortKey(owner, name), [Str(DottedQuad(ip)), Str(mac), Str(peer), Str(chassis)];
    SchemasAreGood();
    QuadIsPlain(ip);
    EntryArrives(k, SWITCH_PORT, vals);
    KeyNames(k);
    TagsDiffer(SWITCH_PORT);
    FieldArrives(SWITCH_PORT, vals, 0);
    FieldArrives(SWITCH_PORT, vals, 1);
    FieldArrives(SWITCH_PORT, vals, 2);
    FieldArrives(SWITCH_PORT, vals, 3);
  }

  lemma Widths()
    ensures Shl(1, 8) == 256 && Shl(1, 32) == 0x1_0000_0000 && Shl(1, 64) == 0x1_0000_0000_0000_0000
  {
    hide Shl;
    Shl4(1);
    ShlShl(1, 4, 4);
    Shl4(16);
    Shl16(1);
    ShlShl(1, 16, 16);
    Shl16(0x1_0000);
    ShlShl(1, 32, 16);
    Shl16(0x1_0000_0000);
    ShlShl(1, 48, 16);
    Shl16(0x1_0000_0000_0000);
  }

  predicate Reads(f: Field, tag: string, n: nat, m: nat) {
    f.tag == tag && Decoded(f.kind, Dec(n)) == Num(m)
  }

  /** What the Go side keeps of a number that does not fit its field: 8 bits of a prefix length,
      32 of an id, 64 of a tick. */
  lemma FieldsAreCut(n: nat)
    requires n <= 0xffff_ffff_ffff_ffff
    ensures Reads(ROUTER_PORT[1], "prefix", n, n % 256) && Reads(STATIC_ROUTE[1], "prefix", n, n % 256)
    ensures Reads(NAT[1], "prefix", n, n % 256)
    ensures Reads(SWITCH[0], "id", n, n % 0x1_0000_0000) && Reads(ROUTER[0], "id", n, n % 0x1_0000_0000)
    ensures Reads(CHASSIS[1], "tick", n, n)
  {
    hide Decoded, Dec, Shl;
    Widths();
    UnsignedReads(8, n, "");
    UnsignedReads(32, n, "");
    UnsignedReads(64, n, "");
  }

  lemma TextIsPrinted(s: string)
    ensures Printed(Str(s)) == s
  {
  }

  /** A prefix length above 32 arrives as 32. */
  lemma RouterPortArrives(owner: string, name: string, ip: nat, prefix: nat, mac: string, peer: string)
    requires Named(RouterPortKey(owner, name)) && ip < 0x1_0000_0000 && prefix < 256 && IsMac(mac) && PlainText(mac) &&
      PlainText(peer)
    ensures MarkOf(Path(RouterPortKey(owner, name))).Some?
    ensures Arrived(RouterPortKey(owner, name), ROUTER_PORT, [Str(DottedQuad(ip)), Num(prefix), Str(mac), Str(peer)])
      == Some(Lrp(name, ip, if prefix > 32 then 32 else prefix, mac, owner, Some(peer)))
  {
    hide DottedQuad, Dec, Split, Path, Marshal, EntryOf, MarkOf, Written, Ip2Int, ToInt, IsMac, GoodSchema,
      NoOuterSpace, Shl, Printed;
    var vals := [Str(DottedQuad(ip)), Num(prefix), Str(mac), Str(peer)];
    SchemasAreGood();
    Widths();
    QuadIsPlain(ip);
    NumberArrives(prefix);
    TextIsPrinted(DottedQuad(ip));
    TextIsPrinted(mac);
    TextIsPrinted(peer);
    EntryArrives(RouterPortKey(owner, name), ROUTER_PORT, vals);
    KeyNames(RouterPortKey(owner, name));
    TagsDiffer(ROUTER_PORT);
    FieldArrives(ROUTER_PORT, vals, 0);
    FieldArrives(ROUTER_PORT, vals, 1);
    FieldArrives(ROUTER_PORT, vals, 2);
    FieldArrives(ROUTER_PORT, vals, 3);
  }

  lemma StaticRouteArrives(owner: string, name: string, ip: nat, prefix: nat, hop: nat, outport: string)
    requires Named(StaticRouteKey(owner, name)) && ip < 0x1_0000_0000 && hop < 0x1_0000_0000 && prefix < 256 &&
      PlainText(outport)
    ensures MarkOf(Path(StaticRouteKey(owner, name))).Some?
    ensures Arrived(StaticRouteKey(owner, name), STATIC_ROUTE,
      [Str(DottedQuad(ip)), Num(prefix), Str(DottedQuad(hop)), Str(outport)])
      == Some(Lsr(name, owner, ip, if prefix > 32 then 32 else prefix, hop, outport))
  {
    hide DottedQuad, Dec, Split, Path, Marshal, EntryOf, MarkOf, Written, Ip2Int, ToInt, IsMac, GoodSchema,
      NoOuterSpace, Shl, Printed;
    var vals := [Str(DottedQuad(ip)), Num(prefix), Str(DottedQuad(hop)), Str(outport)];
    SchemasAreGood();
    Widths();
    QuadIsPlain(ip);
    QuadIsPlain(hop);
    NumberArrives(prefix);
    TextIsPrinted(DottedQuad(ip));
    TextIsPrinted(DottedQuad(hop));
    TextIsPrinted(outport);
    EntryArrives(StaticRouteKey(owner, name), STATIC_ROUTE, vals);
    KeyNames(StaticRouteKey(owner, name));
    TagsDiffer(STATIC_ROUTE);
    FieldArrives(STATIC_ROUTE, vals, 0);
    FieldArrives(STATIC_ROUTE, vals, 1);
    FieldArrives(STATIC_ROUTE, vals, 2);
    FieldArrives(STATIC_ROUTE, vals, 3);
  }

  lemma NatArrives(owner: string, name: string, ip: nat, prefix: nat, kind: string, xlate: nat)
    requires Named(NatKey(owner, name)) && ip < 0x1_0000_0000 && xlate < 0x1_0000_0000 && prefix < 256 &&
      PlainText(kind)
    ensures MarkOf(Path(NatKey(owner, name))).Some?
    ensures Arrived(NatKey(owner, name), NAT, [Str(DottedQuad(ip)), Num(prefix), Str(kind), Str(DottedQuad(xlate))])
      == Some(Lnat(name, owner, ip, prefix, xlate, kind))
  {
    hide DottedQuad, Dec, Split, Path, Marshal, EntryOf, MarkOf, Written, Ip2Int, ToInt, IsMac, GoodSchema,
      NoOuterSpace, Shl, Printed;
    var vals := [Str(DottedQuad(ip)), Num(prefix), Str(kind), Str(DottedQuad(xlate))];
    SchemasAreGood();
    Widths();
    QuadIsPlain(ip);
    QuadIsPlain(xlate);
    NumberArrives(prefix);
    TextIsPrinted(DottedQuad(ip));
    TextIsPrinted(DottedQuad(xlate));
    TextIsPrinted(kind);
    EntryArrives(NatKey(owner, name), NAT, vals);
    KeyNames(NatKey(owner, name));
    TagsDiffer(NAT);
    FieldArrives(NAT, vals, 0);
    FieldArrives(NAT, vals, 1);
    FieldArrives(NAT, vals, 2);
    FieldArrives(NAT, vals, 3);
  }

  lemma ChassisArrives(name: string, ip: nat, tick: nat)
    requires Named(ChassisKey(name)) && ip < 0x1_0000_0000 && tick < 0x1_0000_0000_0000_0000
    ensures MarkOf(Path(ChassisKey(name))).Some?
    ensures Arrived(ChassisKey(name), CHASSIS, [Str(DottedQuad(ip)), Num(tick)])
      == Some(Entities.Chassis(name, ip, tick))
  {
    hide DottedQuad, Dec, Split, Path, Marshal, EntryOf, MarkOf, Written, Ip2Int, ToInt, IsMac, GoodSchema,
      NoOuterSpace, Shl, Printed;
    var vals := [Str(DottedQuad(ip)), Num(tick)];
    SchemasAreGood();
    Widths();
    QuadIsPlain(ip);
    NumberArrives(tick);
    TextIsPrinted(DottedQuad(ip));
    EntryArrives(ChassisKey(name), CHASSIS, vals);
    KeyNames(ChassisKey(name));
    TagsDiffer(CHASSIS);
    FieldArrives(CHASSIS, vals, 0);
    FieldArrives(CHASSIS, vals, 1);
  }

  lemma SwitchArrives(name: string, id: nat)
    requires Named(SwitchKey(name)) && id < 0x1_0000_0000
    ensures MarkOf(Path(SwitchKey(name))).Some?
    ensures Arrived(SwitchKey(name), SWITCH, [Num(id)])
      == Some(Ls(name, id))
  {
    hide DottedQuad, Dec, Split, Path, Marshal, EntryOf, MarkOf, Written, Ip2Int, ToInt, IsMac, GoodSchema,
      NoOuterSpace, Shl, Printed;
    var vals := [Num(id)];
    SchemasAreGood();
    Widths();
    NumberArrives(id);
    EntryArrives(SwitchKey(name), SWITCH, vals);
    KeyNames(SwitchKey(name));
    TagsDiffer(SWITCH);
    FieldArrives(SWITCH, vals, 0);
  }

  lemma RouterArrives(name: string, id: nat, chassis: string)
    requires Named(RouterKey(name)) && id < 0x1_0000_0000 && PlainText(chassis)
    ensures MarkOf(Path(RouterKey(name))).Some?
    ensures Arrived(RouterKey(name), ROUTER, [Num(id), Str(chassis)])
      == Some(Lr(name, id, Optional(chassis)))
  {
    hide DottedQuad, Dec, Split, Path, Marshal, EntryOf, MarkOf, Written, Ip2Int, ToInt, IsMac, GoodSchema,
      NoOuterSpace, Shl, Printed;
    var vals := [Num(id), Str(chassis)];
    SchemasAreGood();
    Widths();
    NumberArrives(id);
    TextIsPrinted(chassis);
    EntryArrives(RouterKey(name), ROUTER, vals);
    KeyNames(RouterKey(name));
    TagsDiffer(ROUTER);
    FieldArrives(ROUTER, vals, 0);
    FieldArrives(ROUTER, vals, 1);
  }

  lemma TagsDiffer(schema: Schema)
    requires GoodSchema(schema)
    ensures forall a, b :: 0 <= a < b < |schema| ==> schema[a].tag != schema[b].tag
  {
  }
}
