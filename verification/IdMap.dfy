// The bitmap that hands out device ids and low 16 address bits, and the
// arithmetic that turns a free bit into an address of a subnet.

module IdMap {
  import opened Common
  import opened TextCodec

  const MAX_UINT16 := 65535

  // ----- Free ids -----

  /** The least id in lo..hi that is not in the bitmap. */
  function LeastFree(bits: set<nat>, lo: nat, hi: nat): Option<nat>
    decreases hi + 1 - lo
  {
    if lo > hi then None else if lo !in bits then Some(lo) else LeastFree(bits, lo + 1, hi)
  }

  lemma {:induction false} LeastFreeIs(bits: set<nat>, lo: nat, hi: nat)
    ensures match LeastFree(bits, lo, hi)
      case Some(id) => lo <= id <= hi && id !in bits && forall j :: lo <= j < id ==> j in bits
      case None => forall j :: lo <= j <= hi ==> j in bits
    decreases hi + 1 - lo
  {
    if lo <= hi && lo in bits {
      LeastFreeIs(bits, lo + 1, hi);
    }
  }

  /** What NextIDFrom finds: the counter is a uint16, so after 65535 the search goes
      on at 0. None stands for a search that never ends. */
  function NextFrom(bits: set<nat>, idx: nat): Option<nat> {
    match LeastFree(bits, idx, MAX_UINT16)
    case Some(id) => Some(id)
    case None => if idx == 0 then None else LeastFree(bits, 0, idx - 1)
  }

  function Low16(x: nat): nat {
    x % 0x1_0000
  }

  class IDMap {
    var bits: set<nat>

    constructor (bits: set<nat>)
      ensures this.bits == bits
    {
      this.bits := bits;
    }

    method NextID() returns (r: Option<nat>)
      modifies this
      ensures r == LeastFree(old(bits), 1, MAX_UINT16)
      ensures bits == if r.Some? then old(bits) + {r.value} else old(bits)
    {
      for i := 1 to MAX_UINT16 + 1
        invariant bits == old(bits) && LeastFree(bits, 1, MAX_UINT16) == LeastFree(bits, i, MAX_UINT16)
      {
        if i !in bits {
          bits := bits + {i};
          return Some(i);
        }
      }
      r := None;
    }

    /** The loop of the source has no exit besides finding an id; here it gives up
        once every value of the counter was tried. */
    method NextIDFrom(idx: nat) returns (r: Option<nat>)
      requires idx <= MAX_UINT16
      modifies this
      ensures r == NextFrom(old(bits), idx)
      ensures bits == if r.Some? then old(bits) + {r.value} else old(bits)
    {
      var i, tried := idx, 0;
      while tried <= MAX_UINT16
        invariant 0 <= tried <= MAX_UINT16 + 1 && bits == old(bits) && i == (idx + tried) % 0x1_0000
        invariant idx + tried <= MAX_UINT16 ==> LeastFree(bits, idx, MAX_UINT16) == LeastFree(bits, i, MAX_UINT16)
        invariant idx + tried > MAX_UINT16 ==> LeastFree(bits, idx, MAX_UINT16) == None
        invariant idx + tried > MAX_UINT16 && idx > 0 ==>
          LeastFree(bits, 0, idx - 1) == LeastFree(bits, idx + tried - 0x1_0000, idx - 1)
      {
        if i !in bits {
          bits := bits + {i};
          return Some(i);
        }
        i := if i == MAX_UINT16 then 0 else i + 1;
        tried := tried + 1;
      }
      r := None;
    }

    method Occupy(x: nat) returns (added: bool)
      modifies this
      ensures added == (x !in old(bits)) && bits == old(bits) + {x}
    {
      added := x !in bits;
      bits := bits + {x};
    }

    method OccupyMasked(x: nat) returns (added: bool)
      modifies this
      ensures added == (Low16(x) !in old(bits)) && bits == old(bits) + {Low16(x)}
    {
      added := Occupy(Low16(x));
    }

    method Return(x: nat)
      modifies this
      ensures bits == old(bits) - {x}
    {
      bits := bits - {x};
    }

    method ReturnMasked(x: nat)
      modifies this
      ensures bits == old(bits) - {Low16(x)}
    {
      Return(Low16(x));
    }
  }

  // ----- Bitwise or -----

  function BitOr(a: nat, b: nat): nat {
    if a == 0 then b else if b == 0 then a
    else 2 * BitOr(a / 2, b / 2) + if a % 2 == 1 || b % 2 == 1 then 1 else 0
  }

  lemma {:induction false} BitOrIsAbove(a: nat, b: nat)
    ensures BitOr(a, b) >= a && BitOr(a, b) >= b
  {
    if a > 0 && b > 0 {
      BitOrIsAbove(a / 2, b / 2);
    }
  }

  lemma BitOrHalves(a: nat, b: nat)
    ensures BitOr(a, b) == 2 * BitOr(a / 2, b / 2) + if a % 2 == 1 || b % 2 == 1 then 1 else 0
  {
  }

  lemma BitOrOfDoubles(a: nat, b: nat, x: nat, y: nat)
    ensures BitOr(2 * a + x, 2 * b + y) ==
      2 * BitOr(a + x / 2, b + y / 2) + if x % 2 == 1 || y % 2 == 1 then 1 else 0
  {
    BitOrHalves(2 * a + x, 2 * b + y);
    hide BitOr;
    assert (2 * a + x) / 2 == a + x / 2 && (2 * b + y) / 2 == b + y / 2;
  }

  lemma OneMoreBit(a: nat, b: nat, or: nat, x: nat, y: nat)
    requires BitOr(a + x / 2, b + y / 2) == or + BitOr(x / 2, y / 2)
    ensures BitOr(2 * a + x, 2 * b + y) == 2 * or + BitOr(x, y)
  {
    BitOrOfDoubles(a, b, x, y);
    BitOrHalves(x, y);
    hide BitOr;
  }

  lemma HalfBelow(x: nat, s: nat)
    requires x < 2 * s
    ensures x / 2 < s
  {
  }

  lemma {:induction false} BitOrFits(x: nat, y: nat, k: nat)
    requires x < Shl(1, k) && y < Shl(1, k)
    ensures BitOr(x, y) < Shl(1, k)
    decreases k
  {
    if k > 0 {
      ShlDoubles(1, k - 1);
      BitOrHalves(x, y);
      hide BitOr;
      HalfBelow(x, Shl(1, k - 1));
      HalfBelow(y, Shl(1, k - 1));
      BitOrFits(x / 2, y / 2, k - 1);
    }
  }

  /** Bits below position k and bits from k on do not meet. */
  lemma {:induction false} BitOrSplits(h: nat, g: nat, x: nat, y: nat, k: nat)
    requires x < Shl(1, k) && y < Shl(1, k)
    ensures BitOr(Shl(h, k) + x, Shl(g, k) + y) == Shl(BitOr(h, g), k) + BitOr(x, y)
    decreases k
  {
    hide BitOr;
    if k > 0 {
      hide Shl;
      ShlHalf(1, k);
      ShlHalf(h, k);
      ShlHalf(g, k);
      ShlHalf(BitOr(h, g), k);
      HalfBelow(x, Shl(1, k - 1));
      HalfBelow(y, Shl(1, k - 1));
      BitOrSplits(h, g, x / 2, y / 2, k - 1);
      OneMoreBit(Shl(h, k - 1), Shl(g, k - 1), Shl(BitOr(h, g), k - 1), x, y);
    } else {
      OrWithZero(0);
    }
  }

  lemma ShlHalf(x: nat, k: nat)
    requires k > 0
    ensures Shl(x, k) == 2 * Shl(x, k - 1)
  {
    ShlDoubles(x, k - 1);
  }

  lemma {:induction false} BitOrSame(a: nat)
    ensures BitOr(a, a) == a
  {
    if a > 0 {
      BitOrSame(a / 2);
    }
  }

  // ----- Addresses of a subnet -----

  datatype Alloc = Allocated(ip: nat, id: nat) | Exhausted | Diverges

  function Broadcast(ip: nat, prefix: nat): nat
    requires prefix <= 32
  {
    Net(ip, prefix) + Shl(1, 32 - prefix) - 1
  }

  /** The arithmetic of allocSwitchPortIP on the bitmap that was read. */
  function AllocAddress(bits: set<nat>, cip: nat, prefix: nat): Alloc
    requires prefix <= 32
  {
    var net := Net(cip, prefix);
    var max := Low16(BitOr(Shl(1, 32 - prefix) - 1, net));
    match NextFrom(bits, (Low16(net) + 2) % 0x1_0000)
    case None => Diverges
    case Some(id) => if id >= max then Exhausted else Allocated(BitOr(net, id), id)
  }

  /** The low 16 bits of a network address are a multiple of its size. */
  lemma LowNetwork(h: nat, k: nat) returns (g: nat, q: nat)
    requires k <= 16
    ensures Shl(h, k) == 0x1_0000 * q + Shl(g, k) && Shl(g, k) + Shl(1, k) <= 0x1_0000
  {
    hide Shl, Shr;
    q := Shr(h, 16 - k);
    ShrShl(h, 16 - k);
    g := h - Shl(q, 16 - k);
    ShlAdds(Shl(q, 16 - k), g, k);
    ShlShl(q, 16 - k, k);
    Shl16(q);
    ShlShl(1, 16 - k, k);
    Shl16(1);
    ShlAdds(g + 1, Shl(1, 16 - k) - g - 1, k);
    ShlAdds(g, 1, k);
  }

  lemma LowOf(q: nat, n: nat)
    requires n < 0x1_0000
    ensures Low16(0x1_0000 * q + n) == n
  {
  }

  lemma SmallMax(h: nat, k: nat, q: nat, n: nat)
    requires Shl(h, k) == 0x1_0000 * q + n && n + Shl(1, k) <= 0x1_0000
    ensures Low16(Shl(h, k)) == n && Low16(BitOr(Shl(1, k) - 1, Shl(h, k))) == n + Shl(1, k) - 1
  {
    hide Shl, BitOr, Low16;
    LowOf(q, n);
    OrOfOnes(h, k);
    LowOf(q, n + Shl(1, k) - 1);
    assert Shl(h, k) + Shl(1, k) - 1 == 0x1_0000 * q + (n + Shl(1, k) - 1);
  }

  /** What the allocator computes with, for a subnet of at most 16 host bits. */
  lemma SmallSubnet(cip: nat, prefix: nat)
    requires 16 <= prefix <= 32
    ensures var net, size := Net(cip, prefix), Shl(1, 32 - prefix);
      Low16(net) + size <= 0x1_0000 && Low16(BitOr(size - 1, net)) == Low16(net) + size - 1 &&
      forall id: nat :: Low16(net) <= id < Low16(net) + size ==> BitOr(net, id) == net - Low16(net) + id
  {
    hide Shl, Shr, BitOr, Low16;
    var k := 32 - prefix;
    var h := Shr(cip, k);
    var g, q := LowNetwork(h, k);
    SmallMax(h, k, q, Shl(g, k));
    forall id: nat | Shl(g, k) <= id < Shl(g, k) + Shl(1, k) ensures BitOr(Shl(h, k), id) == 0x1_0000 * q + id {
      SmallOr(q, g, k, id);
    }
  }

  lemma SmallOr(q: nat, g: nat, k: nat, id: nat)
    requires Shl(g, k) <= id < Shl(g, k) + Shl(1, k) <= 0x1_0000
    ensures BitOr(0x1_0000 * q + Shl(g, k), id) == 0x1_0000 * q + id
  {
    hide Shl, BitOr;
    OrBelow16(q, Shl(g, k), id);
    OrInside(g, id - Shl(g, k), k);
  }

  lemma OrOfOnes(h: nat, k: nat)
    ensures BitOr(Shl(1, k) - 1, Shl(h, k)) == Shl(h, k) + Shl(1, k) - 1
  {
    hide Shl;
    ShlZero(k);
    BitOrSplits(0, h, Shl(1, k) - 1, 0, k);
  }

  lemma OrBelow16(q: nat, n: nat, id: nat)
    requires n < 0x1_0000 && id < 0x1_0000
    ensures BitOr(0x1_0000 * q + n, id) == 0x1_0000 * q + BitOr(n, id) && BitOr(n, id) < 0x1_0000
  {
    hide Shl;
    Shl16(q);
    Shl16(1);
    ShlZero(16);
    BitOrSplits(q, 0, n, id, 16);
    BitOrFits(n, id, 16);
    hide BitOr;
  }

  lemma OrInside(g: nat, y: nat, k: nat)
    requires y < Shl(1, k)
    ensures BitOr(Shl(g, k), Shl(g, k) + y) == Shl(g, k) + y
  {
    hide Shl;
    BitOrSame(g);
    BitOrSplits(g, g, 0, y, k);
  }

  lemma {:induction false} ShlZero(k: nat)
    ensures Shl(0, k) == 0
    decreases k
  {
    if k > 0 {
      ShlZero(k - 1);
    }
  }

  lemma LargeNetwork(h: nat, k: nat) returns (high: nat, ones: nat)
    requires 17 <= k
    ensures Shl(h, k) == 0x1_0000 * high && Shl(1, k) == 0x1_0000 * ones && ones >= 2
  {
    hide Shl;
    high, ones := Shl(h, k - 16), Shl(1, k - 16);
    ShlShl(h, k - 16, 16);
    ShlShl(1, k - 16, 16);
    Shl16(high);
    Shl16(ones);
    ShlShl(1, 1, k - 17);
    ShlOne(1);
  }

  /** The same for a subnet of more than 16 host bits, whose low half is zero. */
  lemma LargeSubnet(cip: nat, prefix: nat)
    requires prefix < 16
    ensures var net, size := Net(cip, prefix), Shl(1, 32 - prefix);
      Low16(net) == 0 && size >= 0x2_0000 && Low16(BitOr(size - 1, net)) == MAX_UINT16 &&
      forall id: nat :: id < 0x1_0000 ==> BitOr(net, id) == net + id
  {
    hide Shl, Shr, BitOr, Low16;
    var k := 32 - prefix;
    var h := Shr(cip, k);
    var high, ones := LargeNetwork(h, k);
    OrOfOnes(h, k);
    LowOf(high, 0);
    LowOf(high + ones - 1, MAX_UINT16);
    forall id: nat | id < 0x1_0000 ensures BitOr(Shl(h, k), id) == Shl(h, k) + id {
      OrBelow16(high, 0, id);
      OrWithZero(id);
    }
  }

  lemma ShlOne(x: nat)
    ensures Shl(x, 1) == 2 * x
  {
    assert Shl(2 * x, 0) == 2 * x;
  }

  lemma OrWithZero(id: nat)
    ensures BitOr(0, id) == id && BitOr(id, 0) == id
  {
  }

  // ----- The allocator is right exactly when the search does not wrap -----

  predicate FreeInSubnet(bits: set<nat>, cip: nat, prefix: nat)
    requires prefix <= 32
  {
    LeastFree(bits, Low16(Net(cip, prefix)) + 2, MAX_UINT16).Some?
  }

  /** The address lies between network+2 and broadcast-1 and its low 16 bits are the marked id. */
  predicate GoodAddress(cip: nat, prefix: nat, ip: nat, id: nat)
    requires prefix <= 32
  {
    Net(cip, prefix) + 2 <= ip < Broadcast(cip, prefix) && Low16(ip) == id
  }

  /** The wrapping search finds a free id, and never ends exactly on a full bitmap. */
  lemma NextFromIs(bits: set<nat>, idx: nat)
    requires idx <= MAX_UINT16
    ensures match NextFrom(bits, idx)
      case Some(id) =>
        id <= MAX_UINT16 && id !in bits && (forall j :: idx <= j < id ==> j in bits) &&
        (id < idx ==> forall j: nat :: idx <= j <= MAX_UINT16 || j < id ==> j in bits)
      case None => true
    ensures NextFrom(bits, idx) == None <==> forall j: nat :: j <= MAX_UINT16 ==> j in bits
  {
    LeastFreeIs(bits, idx, MAX_UINT16);
    if idx > 0 { LeastFreeIs(bits, 0, idx - 1); }
    hide LeastFree;
  }

  lemma OrKeepsId(cip: nat, prefix: nat, id: nat)
    requires prefix <= 32
    requires Low16(Net(cip, prefix)) <= id < Low16(BitOr(Shl(1, 32 - prefix) - 1, Net(cip, prefix)))
    ensures Low16(BitOr(Net(cip, prefix), id)) == id
  {
    hide BitOr, Shl, Net, Low16;
    var net := Net(cip, prefix);
    var n, q := Low16(net), net / 0x1_0000;
    assert net == 0x1_0000 * q + n by { LowSplits(net); }
    if prefix < 16 { LargeSubnet(cip, prefix); } else { SmallSubnet(cip, prefix); }
    LowOf(q, id);
  }

  lemma LowSplits(x: nat)
    ensures x == 0x1_0000 * (x / 0x1_0000) + Low16(x) && Low16(x) < 0x1_0000
  {
  }

  lemma OrLosesId(net: nat, id: nat)
    requires id < Low16(net)
    ensures Low16(BitOr(net, id)) > id
  {
    hide BitOr, Low16;
    LowSplits(net);
    OrBelow16(net / 0x1_0000, Low16(net), id);
    LowOf(net / 0x1_0000, BitOr(Low16(net), id));
    BitOrIsAbove(Low16(net), id);
  }

  /** Room for one more port: an id above the network is free, or none below it is. */
  predicate HasRoomFor(bits: set<nat>, cip: nat, prefix: nat)
    requires prefix <= 32
  {
    FreeInSubnet(bits, cip, prefix) || forall j: nat :: j < Low16(Net(cip, prefix)) ==> j in bits
  }

  /** The id is not below the network exactly when the bitmap has room. */
  lemma IdAboveNetworkIff(bits: set<nat>, cip: nat, prefix: nat)
    requires prefix <= 32 && AllocAddress(bits, cip, prefix).Allocated?
    ensures AllocAddress(bits, cip, prefix).id >= Low16(Net(cip, prefix)) <==> HasRoomFor(bits, cip, prefix)
  {
    hide BitOr, Shl, Net, LeastFree;
    var n := Low16(Net(cip, prefix));
    LeastFreeIs(bits, n + 2, MAX_UINT16);
    LeastFreeIs(bits, 0, n + 1);
    LeastFreeIs(bits, 0, MAX_UINT16);
    LeastFreeIs(bits, 1, MAX_UINT16);
    LeastFreeIs(bits, 0, 0);
  }

  /** The marked id is the low half of the address exactly when it is not below the network. */
  lemma AddressKeepsId(bits: set<nat>, cip: nat, prefix: nat)
    requires prefix <= 32 && AllocAddress(bits, cip, prefix).Allocated?
    ensures var r := AllocAddress(bits, cip, prefix);
      r.id !in bits && (Low16(r.ip) == r.id <==> r.id >= Low16(Net(cip, prefix)))
  {
    hide BitOr, Shl, Net, Low16, NextFrom;
    var net := Net(cip, prefix);
    NextFromIs(bits, (Low16(net) + 2) % 0x1_0000);
    var id := AllocAddress(bits, cip, prefix).id;
    if id >= Low16(net) {
      OrKeepsId(cip, prefix, id);
    } else {
      OrLosesId(net, id);
    }
  }

  /** Both kinds of subnet in one statement. */
  lemma SubnetArithmetic(cip: nat, prefix: nat)
    requires prefix <= 30
    ensures var net, size := Net(cip, prefix), Shl(1, 32 - prefix);
      var n, max := Low16(net), Low16(BitOr(size - 1, net));
      n + 3 <= max <= MAX_UINT16 && max <= n + size - 1 &&
      forall id: nat :: n <= id <= max ==> BitOr(net, id) == net + (id - n)
  {
    SizeIsFour(prefix);
    if prefix < 16 {
      LargeSubnet(cip, prefix);
    } else {
      SmallSubnet(cip, prefix);
    }
    hide BitOr, Shl, Shr, Net, Low16;
  }

  /** The start of the search is a uint16 that does not overflow for these prefixes. */
  lemma SearchStart(bits: set<nat>, cip: nat, prefix: nat)
    requires prefix <= 30
    ensures var net := Net(cip, prefix);
      AllocAddress(bits, cip, prefix) ==
      match NextFrom(bits, Low16(net) + 2)
      case None => Diverges
      case Some(id) =>
        if id >= Low16(BitOr(Shl(1, 32 - prefix) - 1, net)) then Exhausted else Allocated(BitOr(net, id), id)
  {
    hide BitOr, Shl, Net, Low16, NextFrom;
    SubnetArithmetic(cip, prefix);
  }

  lemma LowAdds(x: nat, d: nat)
    requires Low16(x) + d < 0x1_0000
    ensures Low16(x + d) == Low16(x) + d
  {
    LowOf(x / 0x1_0000, Low16(x) + d);
  }

  lemma InsideIsGood(cip: nat, prefix: nat, id: nat)
    requires prefix <= 30
    requires Low16(Net(cip, prefix)) + 2 <= id < Low16(BitOr(Shl(1, 32 - prefix) - 1, Net(cip, prefix)))
    ensures GoodAddress(cip, prefix, BitOr(Net(cip, prefix), id), id)
  {
    hide BitOr, Shl, Shr, Net, Low16;
    var net := Net(cip, prefix);
    SubnetArithmetic(cip, prefix);
    LowAdds(net, id - Low16(net));
  }

  /** A reported address is good exactly when the search for a free id did not wrap. */
  lemma AllocationInSubnet(bits: set<nat>, cip: nat, prefix: nat)
    requires prefix <= 30 && AllocAddress(bits, cip, prefix).Allocated?
    ensures var r := AllocAddress(bits, cip, prefix);
      r.id !in bits && (GoodAddress(cip, prefix, r.ip, r.id) <==> FreeInSubnet(bits, cip, prefix))
  {
    hide BitOr, Shl, Shr, Net, LeastFree, Low16, AllocAddress, GoodAddress;
    var n, id := Low16(Net(cip, prefix)), AllocAddress(bits, cip, prefix).id;
    SearchStart(bits, cip, prefix);
    LeastFreeIs(bits, n + 2, MAX_UINT16);
    if FreeInSubnet(bits, cip, prefix) {
      InsideIsGood(cip, prefix, id);
    } else {
      LeastFreeIs(bits, 0, n + 1);
      WrappedIsWrong(cip, prefix, id);
    }
  }

  lemma SizeIsFour(prefix: nat)
    requires prefix <= 30
    ensures Shl(1, 32 - prefix) >= 4
  {
    ShlShl(1, 2, 30 - prefix);
    assert Shl(1, 2) == Shl(2, 1) == Shl(4, 0);
  }

  /** An id from below network+2 never makes a good address. */
  lemma WrappedIsWrong(cip: nat, prefix: nat, id: nat)
    requires prefix <= 32 && id < Low16(Net(cip, prefix)) + 2
    ensures !GoodAddress(cip, prefix, BitOr(Net(cip, prefix), id), id)
  {
    hide Shl, Shr, Net, BitOr, Low16, Broadcast;
    var net := Net(cip, prefix);
    LowSplits(net);
    LowSplits(BitOr(net, id));
    if id < 0x1_0000 {
      var n, q := Low16(net), net / 0x1_0000;
      OrBelow16(q, n, id);
      LowOf(q, BitOr(n, id));
    }
  }

  /** When the search does not wrap, the allocator succeeds whenever an id below the
      broadcast address is free. */
  lemma AllocationSucceedsIff(bits: set<nat>, cip: nat, prefix: nat)
    requires prefix <= 30 && FreeInSubnet(bits, cip, prefix)
    ensures var n, max := Low16(Net(cip, prefix)), Low16(BitOr(Shl(1, 32 - prefix) - 1, Net(cip, prefix)));
      AllocAddress(bits, cip, prefix).Allocated? <==> exists id: nat :: n + 2 <= id < max && id !in bits
  {
    var n := Low16(Net(cip, prefix));
    hide BitOr, Shl, Shr, Net, LeastFree, Low16, AllocAddress;
    SubnetArithmetic(cip, prefix);
    SearchStart(bits, cip, prefix);
    LeastFreeIs(bits, n + 2, MAX_UINT16);
  }

  lemma AddressFits(cip: nat, prefix: nat)
    requires prefix <= 32 && cip < 0x1_0000_0000
    ensures Broadcast(cip, prefix) < 0x1_0000_0000
  {
    hide Shl, Shr;
    var k := 32 - prefix;
    var h, top := Shr(cip, k), Shl(1, prefix);
    ShrShl(cip, k);
    ShlShl(1, prefix, k);
    ShlShl(1, 16, 16);
    Shl16(1);
    Shl16(0x1_0000);
    if h >= top {
      ShlAdds(top, h - top, k);
    } else {
      ShlAdds(h + 1, top - h - 1, k);
      ShlAdds(h, 1, k);
    }
  }

  /** Parsing the stored dotted address frees exactly the id that was marked. */
  lemma StoredAddressFreesId(bits: set<nat>, cip: nat, prefix: nat)
    requires prefix <= 30 && cip < 0x1_0000_0000 && FreeInSubnet(bits, cip, prefix)
    requires AllocAddress(bits, cip, prefix).Allocated?
    ensures var r := AllocAddress(bits, cip, prefix);
      ParseQuad(DottedQuad(r.ip)) == Some(r.ip) && bits + {r.id} - {Low16(r.ip)} == bits
  {
    AllocationInSubnet(bits, cip, prefix);
    AddressFits(cip, prefix);
    hide AllocAddress, DottedQuad, ParseQuad, Net, Broadcast;
    QuadReadsBack(AllocAddress(bits, cip, prefix).ip);
  }

  /** m allocations in a row; None once one of them fails. */
  function Consecutive(bits: set<nat>, cip: nat, prefix: nat, m: nat): Option<set<nat>>
    requires prefix <= 32
  {
    if m == 0 then Some(bits)
    else
      match Consecutive(bits, cip, prefix, m - 1)
      case None => None
      case Some(b) =>
        var r := AllocAddress(b, cip, prefix);
        if r.Allocated? then Some(b + {r.id}) else None
  }

  function Block(lo: nat, m: nat): (s: set<nat>)
    ensures forall j: nat :: j in s <==> lo <= j < lo + m
  {
    if m == 0 then {} else Block(lo, m - 1) + {lo + m - 1}
  }

  lemma NextAfterBlock(lo: nat, m: nat)
    requires lo + m <= MAX_UINT16
    ensures NextFrom(Block(lo, m), lo) == Some(lo + m)
  {
    LeastFreeIs(Block(lo, m), lo, MAX_UINT16);
    assert lo + m !in Block(lo, m);
    hide LeastFree;
  }

  lemma AllocationAfterBlock(cip: nat, prefix: nat, m: nat)
    requires 16 <= prefix <= 30 && m <= Shl(1, 32 - prefix) - 3
    ensures var lo := Low16(Net(cip, prefix)) + 2;
      var r := AllocAddress(Block(lo, m), cip, prefix);
      if m < Shl(1, 32 - prefix) - 3 then r.Allocated? && r.id == lo + m else r == Exhausted
  {
    var lo := Low16(Net(cip, prefix)) + 2;
    hide BitOr, Shl, Shr, Net, Low16, LeastFree, NextFrom, AllocAddress;
    SmallSubnet(cip, prefix);
    SearchStart(Block(lo, m), cip, prefix);
    NextAfterBlock(lo, m);
  }

  /** A subnet of prefix 16..30 holds exactly 2^(32-prefix) - 3 ports. */
  lemma {:induction false} SubnetCapacity(cip: nat, prefix: nat, m: nat)
    requires 16 <= prefix <= 30
    ensures Consecutive({}, cip, prefix, m) ==
      if m <= Shl(1, 32 - prefix) - 3 then Some(Block(Low16(Net(cip, prefix)) + 2, m)) else None
  {
    hide Net, Low16, Shl;
    SizeIsFour(prefix);
    if m > 0 {
      hide Block, Consecutive;
      SubnetCapacity(cip, prefix, m - 1);
      if m - 1 <= Shl(1, 32 - prefix) - 3 {
        NextPort(cip, prefix, m - 1);
      } else {
        NoPortAfterLast(cip, prefix, m - 1);
      }
    }
  }

  lemma NoPortAfterLast(cip: nat, prefix: nat, m: nat)
    requires prefix <= 32 && Consecutive({}, cip, prefix, m) == None
    ensures Consecutive({}, cip, prefix, m + 1) == None
  {
    hide AllocAddress;
  }

  lemma NextPort(cip: nat, prefix: nat, m: nat)
    requires 16 <= prefix <= 30 && m <= Shl(1, 32 - prefix) - 3
    requires Consecutive({}, cip, prefix, m) == Some(Block(Low16(Net(cip, prefix)) + 2, m))
    ensures Consecutive({}, cip, prefix, m + 1) ==
      if m + 1 <= Shl(1, 32 - prefix) - 3 then Some(Block(Low16(Net(cip, prefix)) + 2, m + 1)) else None
  {
    hide Net, Low16, Shl, AllocAddress;
    AllocationAfterBlock(cip, prefix, m);
  }

  /** When every id from network+2 on is taken the search wraps: the allocator
      then reports success and hands out the network address itself. */
  lemma WrappedAllocation()
    ensures var bits, cip := Block(258, 65278), 0x0a00_0100;
      !FreeInSubnet(bits, cip, 24) && AllocAddress(bits, cip, 24) == Allocated(cip, 0)
  {
    hide BitOr, Shl, Shr, Net, LeastFree;
    var bits := Block(258, 65278);
    var cip := 0x0a00_0100;
    NetOfWrapped();
    SmallSubnet(cip, 24);
    assert LeastFree(bits, 258, MAX_UINT16) == None by {
      LeastFreeIs(bits, 258, MAX_UINT16);
    }
    assert LeastFree(bits, 0, 257) == Some(0) by {
      LeastFreeIs(bits, 0, 257);
      assert 0 !in bits;
    }
    OrWithZero(cip);
  }

  lemma NetOfWrapped()
    ensures Net(0x0a00_0100, 24) == 0x0a00_0100 && Shl(1, 8) == 256
  {
    hide Shl, Shr;
    ShlShl(1, 4, 4);
    Shl4(1);
    Shl4(16);
    ShrShl(0x0a00_0100, 8);
    ShlShl(Shr(0x0a00_0100, 8), 4, 4);
    Shl4(Shr(0x0a00_0100, 8));
    Shl4(16 * Shr(0x0a00_0100, 8));
  }
}
