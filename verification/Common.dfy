// Small definitions every component shares.

module Common {

  datatype Option<+T> = None | Some(value: T)

  /** x >> n and x << n on unbounded naturals. */
  function Shr(x: nat, n: nat): nat {
    if n == 0 then x else Shr(x / 2, n - 1)
  }

  function Shl(x: nat, n: nat): (r: nat)
    ensures r >= x
    decreases n
  {
    if n == 0 then x else Shl(2 * x, n - 1)
  }

  /** The network part of an IPv4 address: (ip >> (32 - prefix)) << (32 - prefix). */
  function Net(ip: nat, prefix: nat): nat
    requires prefix <= 32
  {
    Shl(Shr(ip, 32 - prefix), 32 - prefix)
  }

  lemma {:induction false} ShlDoubles(x: nat, k: nat)
    ensures Shl(2 * x, k) == 2 * Shl(x, k)
    decreases k
  {
    if k > 0 {
      ShlDoubles(2 * x, k - 1);
    }
  }

  lemma {:induction false} ShlAdds(x: nat, y: nat, k: nat)
    ensures Shl(x + y, k) == Shl(x, k) + Shl(y, k)
    decreases k
  {
    if k > 0 {
      ShlAdds(2 * x, 2 * y, k - 1);
    }
  }

  lemma {:induction false} ShlShl(x: nat, i: nat, k: nat)
    ensures Shl(Shl(x, i), k) == Shl(x, i + k)
    decreases i
  {
    if i > 0 {
      ShlShl(2 * x, i - 1, k);
    }
  }

  lemma {:induction false} ShrShl(x: nat, k: nat)
    ensures Shl(Shr(x, k), k) <= x < Shl(Shr(x, k), k) + Shl(1, k)
    decreases k
  {
    if k > 0 {
      ShrShl(x / 2, k - 1);
      ShlDoubles(Shr(x / 2, k - 1), k - 1);
      ShlDoubles(1, k - 1);
    }
  }

  lemma Shl4(x: nat)
    ensures Shl(x, 4) == 16 * x
  {
    assert Shl(4 * x, 2) == Shl(8 * x, 1) == Shl(16 * x, 0);
  }

  lemma Shl16(x: nat)
    ensures Shl(x, 16) == 0x1_0000 * x
  {
    hide Shl;
    Shl4(x);
    ShlShl(x, 4, 4);
    Shl4(16 * x);
    ShlShl(x, 8, 8);
    Shl4(256 * x);
    ShlShl(256 * x, 4, 4);
    Shl4(4096 * x);
  }
}
