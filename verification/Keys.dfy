// What the texts of unique keys and ILK groups tell apart: which entities of one
// kind exclude each other, and that no two networks share a group.

module Keys {
  import opened Common
  import opened TextCodec
  import opened Entities
  import opened EntityZoo

  lemma DecInjective(m: nat, n: nat)
    ensures Dec(m) == Dec(n) <==> m == n
  {
    DecReadsBack(m);
    DecReadsBack(n);
  }

  lemma QuadInjective(x: nat, y: nat)
    requires x < 0x1_0000_0000 && y < 0x1_0000_0000
    ensures DottedQuad(x) == DottedQuad(y) <==> x == y
  {
    QuadReadsBack(x);
    QuadReadsBack(y);
  }

  lemma SamePrefix(a: string, s: string, t: string)
    ensures a + s == a + t <==> s == t
  {
    assert (a + s)[|a|..] == s && (a + t)[|a|..] == t;
  }

  ghost predicate Conflict(p: Props, q: Props) {
    exists k :: k in UniqueKeys(p) && k in UniqueKeys(q)
  }

  lemma TwoOfSwitch(p: Props, q: Props)
    requires p.Lsp? && q.Lsp?
    ensures Conflict(p, q) <==> UniqueKeys(p)[0] == UniqueKeys(q)[0] || UniqueKeys(p)[1] == UniqueKeys(q)[1]
  {
    var s, t := UniqueKeys(p), UniqueKeys(q);
    assert s[0] in s && s[1] in s && t[0] in t && t[1] in t;
    assert s[0].name[|s[0].name| - 1] != s[1].name[|s[1].name| - 1];
  }

  lemma TwoOfRouter(p: Props, q: Props)
    requires p.Lrp? && q.Lrp?
    ensures Conflict(p, q) <==> UniqueKeys(p)[0] == UniqueKeys(q)[0] || UniqueKeys(p)[1] == UniqueKeys(q)[1]
  {
    var s, t := UniqueKeys(p), UniqueKeys(q);
    assert s[0] in s && s[1] in s && t[0] in t && t[1] in t;
    assert s[0].name[|s[0].name| - 1] != s[1].name[|s[1].name| - 1];
  }

  /** Ports of one switch, or of one router, exclude each other if and only if they have
      the same address or the same MAC. */
  lemma PortsConflictIff(p: Props, q: Props)
    requires WellTyped(p) && WellTyped(q)
    requires (p.Lsp? && q.Lsp? && p.ls == q.ls) || (p.Lrp? && q.Lrp? && p.lr == q.lr)
    ensures Conflict(p, q) <==> p.ip == q.ip || p.mac == q.mac
  {
    hide DottedQuad, Conflict;
    var owner := if p.Lsp? then p.ls else p.lr;
    if p.Lsp? { TwoOfSwitch(p, q); } else { TwoOfRouter(p, q); }
    QuadInjective(p.ip, q.ip);
    SamePrefix(owner, DottedQuad(p.ip), DottedQuad(q.ip));
    SamePrefix(owner, p.mac, q.mac);
  }

  /** Switches and routers share one space of ids. */
  lemma IdsConflictIff(p: Props, q: Props)
    requires (p.Ls? || p.Lr?) && (q.Ls? || q.Lr?)
    ensures Conflict(p, q) <==> (if p.Ls? then p.lsId else p.lrId) == (if q.Ls? then q.lsId else q.lrId)
  {
    hide Dec;
    DecInjective(if p.Ls? then p.lsId else p.lrId, if q.Ls? then q.lsId else q.lrId);
    assert UniqueKeys(p)[0] in UniqueKeys(p) && UniqueKeys(q)[0] in UniqueKeys(q);
  }

  predicate SameKind(p: Props, q: Props) {
    (p.Lsp? && q.Lsp?) || (p.Lrp? && q.Lrp?) || (p.Lsr? && q.Lsr?) || (p.Lnat? && q.Lnat?) ||
    (p.Chassis? && q.Chassis?) || (p.Ls? && q.Ls?) || (p.Lr? && q.Lr?) ||
    (p.OvsPort? && q.OvsPort? && p.remote == q.remote)
  }

  /** An add replaces an entity of the same kind and name, and no other; interfaces and tunnel
      ports are kinds of their own. */
  lemma SameIdIff(p: Props, q: Props)
    ensures IdOf(p) == IdOf(q) <==> SameKind(p, q) && p.uuid == q.uuid
  {
  }

  /** The fields that make the key of a route, a translation, a chassis or an interface. */
  predicate Twins(p: Props, q: Props) {
    match p
    case Lsr(_, lr, ip, prefix, nextHop, outport) => q == Lsr(q.uuid, lr, ip, prefix, nextHop, outport)
    case Lnat(_, lr, ip, prefix, _, xlateType) =>
      q.Lnat? && q == Lnat(q.uuid, lr, ip, prefix, q.xlateIp, xlateType)
    case Chassis(_, ip, tick) => q == Chassis(q.uuid, ip, tick)
    case OvsPort(uuid, iface, ofport, _) => q.OvsPort? && q == OvsPort(uuid, iface, ofport, q.remote)
    case _ => false
  }

  /** Records that agree in the fields of their key exclude each other. */
  lemma TwinsConflict(p: Props, q: Props)
    requires Twins(p, q)
    ensures Conflict(p, q)
  {
    hide DottedQuad, Dec;
    assert UniqueKeys(p)[0] in UniqueKeys(p) && UniqueKeys(q)[0] in UniqueKeys(q);
  }

  predicate SameSpace(p: Props, q: Props) {
    match p
    case Ls(_, _) => q.Ls? || q.Lr?
    case Lr(_, _, _) => q.Ls? || q.Lr?
    case OvsPort(_, _, _, _) => q.OvsPort?
    case _ => TypeOf(p) == TypeOf(q)
  }

  /** Otherwise entities of different kinds never exclude each other. */
  lemma KindsApart(p: Props, q: Props)
    requires !SameSpace(p, q)
    ensures !Conflict(p, q)
  {
    hide DottedQuad, Dec;
    forall k | k in UniqueKeys(p) ensures k !in UniqueKeys(q) {
      NamesApart(p, q, k);
    }
  }

  /** The lengths of the key names, except for two pairs of equal length, differ. */
  lemma NamesApart(p: Props, q: Props, k: UniqueKey)
    requires !SameSpace(p, q) && k in UniqueKeys(p)
    ensures k !in UniqueKeys(q)
  {
    hide DottedQuad, Dec;
    assert |"ls_view_ip"| == 10 && |"ls_view_mac"| == 11 && |"lr_view_ip"| == 10 && |"lr_view_mac"| == 11;
    assert "ls_view_ip"[1] == 's' && "ls_view_mac"[1] == 's' && "lr_view_ip"[1] == 'r' && "lr_view_mac"[1] == 'r';
    assert |"lr_view_lsr"| == 11 && "lr_view_lsr"[8] == 'l' && "lr_view_mac"[8] == 'm' && "ls_view_mac"[8] == 'm';
    assert |"lr_view_lnat"| == 12 && |"global_view_chassis"| == 19 && |"global_view_id"| == 14;
    assert |"host_view_ovsport"| == 17;
  }

  // ----- One field apart -----

  function Concat(parts: seq<string>): string {
    if parts == [] then "" else parts[0] + Concat(parts[1..])
  }

  lemma SameSuffix(a: string, b: string, s: string)
    ensures a + s == b + s <==> a == b
  {
    if a + s == b + s {
      assert |a| == |b| && (a + s)[..|a|] == a && (b + s)[..|b|] == b;
    }
  }

  lemma {:induction false} OneApart(a: seq<string>, b: seq<string>, i: nat)
    requires |a| == |b| && i < |a| && forall j :: 0 <= j < |a| && j != i ==> a[j] == b[j]
    ensures Concat(a) == Concat(b) <==> a[i] == b[i]
  {
    if i == 0 {
      assert a[1..] == b[1..];
      SameSuffix(a[0], b[0], Concat(a[1..]));
    } else {
      OneApart(a[1..], b[1..], i - 1);
      SamePrefix(a[0], Concat(a[1..]), Concat(b[1..]));
    }
  }

  /** The texts that make up the key of a route, a translation, a chassis or an interface. */
  function KeyParts(p: Props): seq<string> {
    match p
    case Lsr(_, lr, ip, prefix, nextHop, outport) => [lr, DottedQuad(ip), Dec(prefix), DottedQuad(nextHop), outport]
    case Lnat(_, lr, ip, prefix, _, xlateType) => [lr, DottedQuad(ip), Dec(prefix), xlateType]
    case Chassis(_, ip, tick) => [DottedQuad(ip), Dec(tick)]
    case OvsPort(name, iface, ofport, _) => [name, iface, Dec(ofport)]
    case _ => []
  }

  function Tag(p: Props): string {
    match p
    case Lsr(_, _, _, _, _, _) => "lsr"
    case Lnat(_, _, _, _, _, _) => "lnat"
    case Chassis(_, _, _) => "chassis"
    case _ => "ovsport"
  }

  lemma KeyIsParts(p: Props)
    requires KeyParts(p) != []
    ensures |UniqueKeys(p)| == 1 && UniqueKeys(p)[0].text == Tag(p) + Concat(KeyParts(p))
  {
    hide DottedQuad, Dec, Concat;
    var f := KeyParts(p);
    ConcatTwo(f);
    ConcatThree(f);
    ConcatFour(f);
    ConcatFive(f);
    match p
    case Lsr(_, _, _, _, _, _) => RightFive(Tag(p), f[0], f[1], f[2], f[3], f[4]);
    case Lnat(_, _, _, _, _, _) => RightFour(Tag(p), f[0], f[1], f[2], f[3]);
    case Chassis(_, _, _) => assert Tag(p) + f[0] + f[1] == Tag(p) + (f[0] + f[1]);
    case OvsPort(_, _, _, _) => RightThree(Tag(p), f[0], f[1], f[2]);
  }

  lemma RightThree(a: string, b: string, c: string, d: string)
    ensures a + b + c + d == a + (b + (c + d))
  {
  }

  lemma RightFour(a: string, b: string, c: string, d: string, e: string)
    ensures a + b + c + d + e == a + (b + (c + (d + e)))
  {
    RightThree(a + b, c, d, e);
    assert (a + b) + (c + (d + e)) == a + (b + (c + (d + e)));
  }

  lemma RightFive(a: string, b: string, c: string, d: string, e: string, f: string)
    ensures a + b + c + d + e + f == a + (b + (c + (d + (e + f))))
  {
    RightFour(a + b, c, d, e, f);
    assert (a + b) + (c + (d + (e + f))) == a + (b + (c + (d + (e + f))));
  }

  lemma ConcatTwo(f: seq<string>)
    ensures |f| == 2 ==> Concat(f) == f[0] + f[1]
  {
    if |f| == 2 {
      assert Concat(f[1..]) == f[1] + Concat(f[1..][1..]);
    }
  }

  lemma ConcatThree(f: seq<string>)
    ensures |f| == 3 ==> Concat(f) == f[0] + (f[1] + f[2])
  {
    if |f| == 3 { ConcatTwo(f[1..]); }
  }

  lemma ConcatFour(f: seq<string>)
    ensures |f| == 4 ==> Concat(f) == f[0] + (f[1] + (f[2] + f[3]))
  {
    if |f| == 4 { ConcatThree(f[1..]); }
  }

  lemma ConcatFive(f: seq<string>)
    ensures |f| == 5 ==> Concat(f) == f[0] + (f[1] + (f[2] + (f[3] + f[4])))
  {
    if |f| == 5 { ConcatFour(f[1..]); }
  }

  /** How many of the properties that make up the key differ. */
  function Differences(p: Props, q: Props): nat {
    match (p, q)
    case (Lsr(_, lr, ip, prefix, hop, port), Lsr(_, lr', ip', prefix', hop', port')) =>
      Apart(lr, lr') + Apart(ip, ip') + Apart(prefix, prefix') + Apart(hop, hop') + Apart(port, port')
    case (Lnat(_, lr, ip, prefix, _, kind), Lnat(_, lr', ip', prefix', _, kind')) =>
      Apart(lr, lr') + Apart(ip, ip') + Apart(prefix, prefix') + Apart(kind, kind')
    case (Chassis(_, ip, tick), Chassis(_, ip', tick')) => Apart(ip, ip') + Apart(tick, tick')
    case (OvsPort(name, iface, port, _), OvsPort(name', iface', port', _)) =>
      Apart(name, name') + Apart(iface, iface') + Apart(port, port')
    case _ => 2
  }

  function Apart<T(==)>(a: T, b: T): nat {
    if a == b then 0 else 1
  }

  predicate Addresses32(p: Props) {
    (p.Lsr? ==> p.ip < 0x1_0000_0000 && p.nextHop < 0x1_0000_0000) &&
    (p.Lnat? || p.Chassis? ==> p.ip < 0x1_0000_0000)
  }

  lemma KeysOfOne(p: Props, q: Props)
    requires TypeOf(p) == TypeOf(q) || (p.OvsPort? && q.OvsPort?)
    requires KeyParts(p) != [] && KeyParts(q) != []
    ensures Conflict(p, q) <==> Concat(KeyParts(p)) == Concat(KeyParts(q))
  {
    hide Concat, DottedQuad, Dec;
    KeyIsParts(p);
    KeyIsParts(q);
    SamePrefix(Tag(p), Concat(KeyParts(p)), Concat(KeyParts(q)));
    assert UniqueKeys(p)[0] in UniqueKeys(p) && UniqueKeys(q)[0] in UniqueKeys(q);
  }

  /** Two records that differ in no more than one property of the key exclude each other if
      and only if they differ in none. */
  lemma OneDifferenceDecides(p: Props, q: Props)
    requires Addresses32(p) && Addresses32(q) && Differences(p, q) <= 1
    ensures Conflict(p, q) <==> Differences(p, q) == 0
  {
    KeysOfOne(p, q);
    var i := DifferentPart(p, q);
    OneApart(KeyParts(p), KeyParts(q), i);
    hide Conflict, Concat, KeyParts, Differences;
  }

  lemma DifferentPart(p: Props, q: Props) returns (i: nat)
    requires Addresses32(p) && Addresses32(q) && Differences(p, q) <= 1
    ensures |KeyParts(p)| == |KeyParts(q)| && i < |KeyParts(p)|
    ensures forall j :: 0 <= j < |KeyParts(p)| && j != i ==> KeyParts(p)[j] == KeyParts(q)[j]
    ensures KeyParts(p)[i] == KeyParts(q)[i] <==> Differences(p, q) == 0
  {
    hide DottedQuad, Dec;
    match (p, q)
    case (Lsr(_, lr, ip, prefix, hop, port), Lsr(_, lr', ip', prefix', hop', port')) =>
      QuadInjective(ip, ip');
      DecInjective(prefix, prefix');
      QuadInjective(hop, hop');
      i := if lr != lr' then 0 else if ip != ip' then 1 else if prefix != prefix' then 2
        else if hop != hop' then 3 else 4;
    case (Lnat(_, lr, ip, prefix, _, kind), Lnat(_, lr', ip', prefix', _, kind')) =>
      QuadInjective(ip, ip');
      DecInjective(prefix, prefix');
      i := if lr != lr' then 0 else if ip != ip' then 1 else if prefix != prefix' then 2 else 3;
    case (Chassis(_, ip, tick), Chassis(_, ip', tick')) =>
      QuadInjective(ip, ip');
      DecInjective(tick, tick');
      i := if ip != ip' then 0 else 1;
    case (OvsPort(name, iface, port, _), OvsPort(name', iface', port', _)) =>
      DecInjective(port, port');
      i := if name != name' then 0 else if iface != iface' then 1 else 2;
  }

  /** With two differences the texts may run together: these two routes exclude each other. */
  lemma RoutesRunTogether()
    ensures Conflict(Lsr("a", "r", 0x0a00_0001, 24, 0x0100_0005, "o"), Lsr("b", "r", 0x0a00_000c, 4, 0x0100_0005, "o"))
  {
    hide Conflict, Concat, Dec, DottedQuad;
    var p := Lsr("a", "r", 0x0a00_0001, 24, 0x0100_0005, "o");
    var q := Lsr("b", "r", 0x0a00_000c, 4, 0x0100_0005, "o");
    KeysOfOne(p, q);
    ConcatFive(KeyParts(p));
    ConcatFive(KeyParts(q));
    NetworksRunTogether();
    var hop := DottedQuad(0x0100_0005);
    assert DottedQuad(0x0a00_0001) + (Dec(24) + (hop + "o")) == DottedQuad(0x0a00_0001) + Dec(24) + (hop + "o");
    assert DottedQuad(0x0a00_000c) + (Dec(4) + (hop + "o")) == DottedQuad(0x0a00_000c) + Dec(4) + (hop + "o");
  }

  lemma QuadOf(d: nat)
    requires d < 256
    ensures DottedQuad(0x0a00_0000 + d) == Dec(10) + "." + Dec(0) + "." + Dec(0) + "." + Dec(d)
  {
    hide Dec;
    BytesOf(d);
  }

  lemma BytesOf(d: nat)
    requires d < 256
    ensures var x := 0x0a00_0000 + d;
      x / 0x100_0000 % 256 == 10 && x / 0x1_0000 % 256 == 0 && x / 256 % 256 == 0 && x % 256 == d
  {
    var x := 0x0a00_0000 + d;
    assert x / 0x100_0000 == 10 && x / 0x1_0000 == 2560 && x / 256 == 655360;
  }

  lemma TwoDigits(a: nat, b: nat)
    requires 0 < a < 10 && b < 10
    ensures Dec(10 * a + b) == [DigitChar(a)] + [DigitChar(b)] && Dec(b) == [DigitChar(b)]
  {
  }

  lemma NetworksRunTogether()
    ensures DottedQuad(0x0a00_0001) + Dec(24) == DottedQuad(0x0a00_000c) + Dec(4)
  {
    hide Dec, DottedQuad;
    QuadOf(1);
    QuadOf(12);
    TwoDigits(1, 1);
    TwoDigits(1, 2);
    TwoDigits(2, 4);
    var net := Dec(10) + "." + Dec(0) + "." + Dec(0) + ".";
    assert net + Dec(1) + ([DigitChar(2)] + [DigitChar(4)]) == net + (Dec(1) + [DigitChar(2)]) + [DigitChar(4)];
  }

  /** Ports that differ in their owner alone do not exclude each other. */
  lemma OwnersApart(p: Props, q: Props)
    requires (p.Lsp? && q.Lsp?) || (p.Lrp? && q.Lrp?)
    requires p.ip == q.ip && p.mac == q.mac
    ensures Conflict(p, q) <==> (if p.Lsp? then q.Lsp? && p.ls == q.ls else q.Lrp? && p.lr == q.lr)
  {
    hide DottedQuad, Conflict;
    if p.Lsp? { TwoOfSwitch(p, q); } else { TwoOfRouter(p, q); }
    SameSuffix(if p.Lsp? then p.ls else p.lr, if q.Lsp? then q.ls else q.lr, DottedQuad(p.ip));
    SameSuffix(if p.Lsp? then p.ls else p.lr, if q.Lsp? then q.ls else q.lr, p.mac);
  }

  // ----- Groups of ILK indices -----

  function Ten(k: nat): nat {
    if k == 0 then 1 else 10 * Ten(k - 1)
  }

  lemma {:induction false} AppendedValue(s: string, t: string)
    requires IsNumber(s) && IsNumber(t)
    ensures IsNumber(s + t) && NumberValue(s + t) == NumberValue(s) * Ten(|t|) + NumberValue(t)
  {
    var n := |t| - 1;
    if n == 0 {
      assert (s + t)[..|s|] == s;
      assert Ten(1) == 10 * Ten(0);
    } else {
      AppendedValue(s, t[..n]);
      assert (s + t)[..|s + t| - 1] == s + t[..n];
      OneMoreDigit(NumberValue(s), Ten(n), NumberValue(t[..n]));
      assert Ten(|t|) == 10 * Ten(n);
      hide Ten;
      assert NumberValue(s + t) == NumberValue(s + t[..n]) * 10 + DigitValue(t[n]);
    }
  }

  lemma OneMoreDigit(a: nat, b: nat, c: nat)
    ensures (a * b + c) * 10 == a * (10 * b) + c * 10
  {
  }

  /** The number that the decimal texts of a network and of its prefix length spell together. */
  lemma TextOfNetwork(net: nat, prefix: nat)
    requires prefix <= 32
    ensures IsNumber(Dec(net) + Dec(prefix))
    ensures NumberValue(Dec(net) + Dec(prefix)) == net * (if prefix < 10 then 10 else 100) + prefix
  {
    DecReadsBack(net);
    DecReadsBack(prefix);
    AppendedValue(Dec(net), Dec(prefix));
    assert prefix >= 10 ==> Dec(prefix) == Dec(prefix / 10) + [DigitChar(prefix % 10)] && |Dec(prefix / 10)| == 1;
    assert Ten(1) == 10 * Ten(0) && Ten(2) == 10 * Ten(1);
  }

  lemma LowBitsZero(h: nat, k: nat)
    ensures (k >= 1 ==> Shl(h, k) % 2 == 0) && (k >= 3 ==> Shl(h, k) % 8 == 0) && (k >= 4 ==> Shl(h, k) % 16 == 0)
  {
    hide Shl;
    if k >= 1 {
      Doubled(h, k);
      Even(Shl(h, k - 1));
    }
    if k >= 3 {
      FourTimes(h, k);
      OfEight(Shl(h, k - 3));
    }
    if k >= 4 {
      Doubled(h, k - 3);
      OfSixteen(Shl(h, k - 4));
    }
  }

  lemma Even(x: nat)
    ensures (2 * x) % 2 == 0
  {
  }

  lemma OfEight(x: nat)
    ensures (8 * x) % 8 == 0
  {
  }

  lemma OfSixteen(x: nat)
    ensures (8 * (2 * x)) % 16 == 0
  {
    assert 8 * (2 * x) == 16 * x;
  }

  lemma FourTimes(h: nat, k: nat)
    requires k >= 3
    ensures Shl(h, k) == 8 * Shl(h, k - 3)
  {
    hide Shl;
    Doubled(h, k);
    Doubled(h, k - 1);
    Doubled(h, k - 2);
  }

  lemma Doubled(h: nat, k: nat)
    requires k > 0
    ensures Shl(h, k) == 2 * Shl(h, k - 1)
  {
    ShlDoubles(h, k - 1);
  }

  lemma NotTheSameNumber(m: nat, prefix: nat, n: nat, long: nat)
    requires prefix < 10 <= long <= 32 && m % 16 == 0 && (long <= 31 ==> n % 2 == 0) && (long <= 29 ==> n % 8 == 0)
    ensures m * 10 + prefix != n * 100 + long
  {
    var a, b, tens := m / 16, n / 8, long / 10;
    assert m == 16 * a;
    if tens == 2 {
      assert n == 8 * b;
      EvenIsNotOdd(4 * a, 20 * b);
    } else {
      EvenIsNotOdd(8 * a, 5 * n + tens / 2);
    }
  }

  lemma EvenIsNotOdd(x: int, y: int)
    ensures 2 * x != 2 * y + 1
  {
  }

  /** A short and a long prefix never spell the same text. */
  lemma ShortIsNotLong(ip: nat, prefix: nat, jp: nat, long: nat)
    requires prefix < 10 <= long <= 32
    ensures Net(ip, prefix) * 10 + prefix != Net(jp, long) * 100 + long
  {
    hide Shl, Shr;
    LowBitsZero(Shr(ip, 32 - prefix), 32 - prefix);
    LowBitsZero(Shr(jp, 32 - long), 32 - long);
    NotTheSameNumber(Net(ip, prefix), prefix, Net(jp, long), long);
  }

  lemma SplitValue(m: nat, p: nat, n: nat, q: nat)
    requires p <= 32 && q <= 32 && (p < 10 <==> q < 10)
    ensures m * (if p < 10 then 10 else 100) + p == n * (if q < 10 then 10 else 100) + q ==> m == n && p == q
  {
  }

  lemma NetworkText(ip: nat, prefix: nat, jp: nat, long: nat)
    requires prefix <= 32 && long <= 32
    ensures Dec(Net(ip, prefix)) + Dec(prefix) == Dec(Net(jp, long)) + Dec(long) <==>
      Net(ip, prefix) == Net(jp, long) && prefix == long
  {
    hide Net, Dec, NumberValue, IsNumber;
    TextOfNetwork(Net(ip, prefix), prefix);
    TextOfNetwork(Net(jp, long), long);
    if prefix < 10 <==> long < 10 { SplitValue(Net(ip, prefix), prefix, Net(jp, long), long); }
    if prefix < 10 <= long { ShortIsNotLong(ip, prefix, jp, long); }
    if long < 10 <= prefix { ShortIsNotLong(jp, long, ip, prefix); }
  }

  /** Two members of one router are in one group if and only if they are of one kind and
      have the same network and prefix length, although the text that names the group
      puts no mark between the two numbers. */
  lemma SameGroupIff(p: Props, q: Props)
    requires IsIlk(p) && IsIlk(q) && WellTyped(p) && WellTyped(q) && p.lr == q.lr
    ensures GroupOf(p) == GroupOf(q) <==>
      TypeOf(p) == TypeOf(q) && p.prefix == q.prefix && Net(p.ip, p.prefix) == Net(q.ip, q.prefix)
  {
    hide Net, Dec;
    var s, t := Dec(Net(p.ip, p.prefix)) + Dec(p.prefix), Dec(Net(q.ip, q.prefix)) + Dec(q.prefix);
    assert GroupOf(p).text == p.lr + s && GroupOf(q).text == q.lr + t;
    SamePrefix(p.lr, s, t);
    NetworkText(p.ip, p.prefix, q.ip, q.prefix);
  }
}
