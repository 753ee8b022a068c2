// The keys and values that the controller keeps in etcd, transactions on them,
// and the paths that the keys stand for.

module EtcdStore {
  import opened Common
  import opened TextCodec
  import opened IdMap

  datatype Key =
    | DeviceIds
    | SwitchKey(name: string) | SwitchPortKey(owner: string, name: string) | SwitchBook(owner: string)
    | RouterKey(name: string) | RouterPortKey(owner: string, name: string) | RouterBook(owner: string)
    | StaticRouteKey(owner: string, name: string) | NatKey(owner: string, name: string)
    | ChassisKey(name: string)

  /** `Ids` is a bitmap (its base64 text is taken to be canonical), `Record` any other record. */
  datatype Value = Ids(ids: set<nat>) | Dev(id: nat) | Port(ip: nat) | Record

  type Kv = map<Key, Value>

  /** The bitmap that a device takes an id from. */
  function PoolOf(k: Key): Option<Key> {
    match k
    case SwitchKey(_) => Some(DeviceIds)
    case RouterKey(_) => Some(DeviceIds)
    case SwitchPortKey(o, _) => Some(SwitchBook(o))
    case RouterPortKey(o, _) => Some(RouterBook(o))
    case _ => None
  }

  predicate IsBook(k: Key) {
    k.DeviceIds? || k.SwitchBook? || k.RouterBook?
  }

  function ClaimOf(v: Value): nat {
    match v
    case Dev(id) => id
    case Port(ip) => Low16(ip)
    case _ => 0
  }

  /** getIDMap: the stored bitmap, or none. */
  function ReadIds(kv: Kv, key: Key): Option<set<nat>> {
    if key in kv && kv[key].Ids? then Some(kv[key].ids) else None
  }

  function Bits(r: Option<set<nat>>): set<nat> {
    if r.Some? then r.value else {}
  }

  function BookAt(kv: Kv, p: Key): set<nat> {
    Bits(ReadIds(kv, p))
  }

  // ----- Transactions -----

  /** The empty text of a missing bitmap equals no stored value. */
  datatype Cmp = KeyMissing(key: Key) | KeyExists(key: Key) | ValueIs(key: Key, ids: Option<set<nat>>)

  datatype Op = Put(key: Key, value: Value) | Del(key: Key) | DelUnder(key: Key)

  /** k + "/" is a prefix of the key. */
  predicate Under(k: Key, key: Key) {
    match key
    case SwitchPortKey(o, _) => k == SwitchKey(o)
    case RouterPortKey(o, _) => k == RouterKey(o)
    case StaticRouteKey(o, _) => k == RouterKey(o)
    case NatKey(o, _) => k == RouterKey(o)
    case _ => false
  }

  predicate Holds(kv: Kv, c: Cmp) {
    match c
    case KeyMissing(k) => k !in kv
    case KeyExists(k) => k in kv
    case ValueIs(k, ids) => k in kv && ids.Some? && kv[k] == Ids(ids.value)
  }

  predicate Deletes(o: Op, key: Key) {
    match o
    case Put(_, _) => false
    case Del(k) => k == key
    case DelUnder(k) => Under(k, key)
  }

  /** etcd refuses two puts on one key, and a put on a key that is deleted as well. */
  predicate Clashes(a: Op, b: Op) {
    (a.Put? && b.Put? && a.key == b.key) || (a.Put? && Deletes(b, a.key)) || (b.Put? && Deletes(a, b.key))
  }

  predicate NoOverlap(ops: seq<Op>) {
    forall i, j :: 0 <= i < j < |ops| ==> !Clashes(ops[i], ops[j])
  }

  function ApplyOne(kv: Kv, o: Op): Kv {
    match o
    case Put(k, v) => kv[k := v]
    case Del(k) => kv - {k}
    case DelUnder(k) => map key | key in kv && !Under(k, key) :: kv[key]
  }

  function Apply(kv: Kv, ops: seq<Op>): Kv {
    if ops == [] then kv else ApplyOne(Apply(kv, ops[..|ops| - 1]), ops[|ops| - 1])
  }

  predicate Succeeds(kv: Kv, cmps: seq<Cmp>, ops: seq<Op>) {
    (forall c :: c in cmps ==> Holds(kv, c)) && NoOverlap(ops)
  }

  function Transact(kv: Kv, cmps: seq<Cmp>, ops: seq<Op>): Kv {
    if Succeeds(kv, cmps, ops) then Apply(kv, ops) else kv
  }

  /** What operations without overlap, in any order, leave at key k. */
  ghost predicate EffectAt(kv: Kv, ops: seq<Op>, k: Key, after: Kv) {
    (forall v :: Put(k, v) in ops ==> k in after && after[k] == v) &&
    ((exists o :: o in ops && Deletes(o, k)) ==> k !in after) &&
    ((forall o :: o in ops ==> !Deletes(o, k) && !(o.Put? && o.key == k)) ==>
       (k in after <==> k in kv) && (k in kv ==> after[k] == kv[k]))
  }

  lemma OneMoreEffect(kv: Kv, ops: seq<Op>, o: Op, k: Key, after: Kv)
    requires EffectAt(kv, ops, k, after) && forall p :: p in ops ==> !Clashes(p, o)
    ensures EffectAt(kv, ops + [o], k, ApplyOne(after, o))
  {
    hide Under;
    assert forall p :: p in ops + [o] <==> p in ops || p == o;
  }

  lemma {:induction false} ApplyEffect(kv: Kv, ops: seq<Op>, k: Key)
    requires NoOverlap(ops)
    ensures EffectAt(kv, ops, k, Apply(kv, ops))
  {
    hide EffectAt, Clashes, ApplyOne;
    if ops == [] {
      NoEffect(kv, k);
    } else {
      var init, last := ops[..|ops| - 1], ops[|ops| - 1];
      ApplyEffect(kv, init, k);
      forall o | o in init ensures !Clashes(o, last) {
        var i :| 0 <= i < |init| && init[i] == o;
        assert ops[i] == o;
      }
      OneMoreEffect(kv, init, last, k, Apply(kv, init));
      assert init + [last] == ops;
    }
  }

  lemma NoEffect(kv: Kv, k: Key)
    ensures EffectAt(kv, [], k, kv)
  {
  }

  lemma ApplyAt(kv: Kv, ops: seq<Op>, k: Key)
    requires NoOverlap(ops)
    ensures forall v :: Put(k, v) in ops ==> k in Apply(kv, ops) && Apply(kv, ops)[k] == v
    ensures (exists o :: o in ops && Deletes(o, k)) ==> k !in Apply(kv, ops)
    ensures (forall o :: o in ops ==> !Deletes(o, k) && !(o.Put? && o.key == k)) ==>
      (k in Apply(kv, ops) <==> k in kv) && (k in kv ==> Apply(kv, ops)[k] == kv[k])
  {
    hide Apply, NoOverlap, Deletes;
    ApplyEffect(kv, ops, k);
  }

  class Store {
    var kv: Kv

    constructor ()
      ensures kv == map[]
    {
      kv := map[];
    }

    method Txn(cmps: seq<Cmp>, ops: seq<Op>) returns (ok: bool)
      modifies this
      ensures ok == Succeeds(old(kv), cmps, ops) && kv == Transact(old(kv), cmps, ops)
    {
      for i := 0 to |cmps|
        invariant kv == old(kv) && forall c :: c in cmps[..i] ==> Holds(kv, c)
      {
        if !Holds(kv, cmps[i]) {
          return false;
        }
      }
      if !NoOverlap(ops) {
        return false;
      }
      ok := true;
      for i := 0 to |ops|
        invariant kv == Apply(old(kv), ops[..i])
      {
        kv := ApplyOne(kv, ops[i]);
        assert ops[..i + 1][..i] == ops[..i];
      }
      assert ops[..|ops|] == ops;
    }
  }

  // ----- Paths -----

  /** The parts of the path of a key, without the leading slash. */
  function Segments(k: Key): seq<string> {
    match k
    case DeviceIds => ["globals", "device_ids"]
    case SwitchKey(n) => ["entity_view", "LS", n]
    case SwitchPortKey(o, n) => ["entity_view", "LS", o, "lsp", n]
    case SwitchBook(o) => ["ip_book", "LS", o]
    case RouterKey(n) => ["entity_view", "LR", n]
    case RouterPortKey(o, n) => ["entity_view", "LR", o, "lrp", n]
    case RouterBook(o) => ["ip_book", "LR", o]
    case StaticRouteKey(o, n) => ["entity_view", "LR", o, "lsr", n]
    case NatKey(o, n) => ["entity_view", "LR", o, "lnat", n]
    case ChassisKey(n) => ["entity_view", "chassis", n]
  }

  function Path(k: Key): string {
    "/" + Join(Segments(k), '/')
  }

  lemma JoinTwo(a: string, b: string)
    ensures Join([a, b], '/') == a + "/" + b
  {
    assert Join([b], '/') == b && [a, b][1..] == [b];
  }

  lemma JoinThree(a: string, b: string, c: string)
    ensures Join([a, b, c], '/') == a + "/" + b + "/" + c
  {
    JoinTwo(b, c);
    assert [a, b, c][1..] == [b, c];
  }

  lemma JoinFive(a: string, b: string, c: string, d: string, e: string)
    ensures Join([a, b, c, d, e], '/') == a + "/" + b + "/" + c + "/" + d + "/" + e
  {
    JoinThree(c, d, e);
    assert [b, c, d, e][1..] == [c, d, e] && [a, b, c, d, e][1..] == [b, c, d, e];
    assert Join([b, c, d, e], '/') == b + "/" + (c + "/" + d + "/" + e);
  }

  /** The path of every key. */
  lemma PathIs(k: Key)
    ensures Path(k) == match k
      case DeviceIds => "/" + ("globals" + "/" + "device_ids")
      case SwitchKey(n) => "/" + ("entity_view" + "/" + "LS" + "/" + n)
      case SwitchPortKey(o, n) => "/" + ("entity_view" + "/" + "LS" + "/" + o + "/" + "lsp" + "/" + n)
      case SwitchBook(o) => "/" + ("ip_book" + "/" + "LS" + "/" + o)
      case RouterKey(n) => "/" + ("entity_view" + "/" + "LR" + "/" + n)
      case RouterPortKey(o, n) => "/" + ("entity_view" + "/" + "LR" + "/" + o + "/" + "lrp" + "/" + n)
      case RouterBook(o) => "/" + ("ip_book" + "/" + "LR" + "/" + o)
      case StaticRouteKey(o, n) => "/" + ("entity_view" + "/" + "LR" + "/" + o + "/" + "lsr" + "/" + n)
      case NatKey(o, n) => "/" + ("entity_view" + "/" + "LR" + "/" + o + "/" + "lnat" + "/" + n)
      case ChassisKey(n) => "/" + ("entity_view" + "/" + "chassis" + "/" + n)
  {
    hide Join;
    var s := Segments(k);
    if |s| == 2 { JoinTwo(s[0], s[1]); }
    if |s| == 3 { JoinThree(s[0], s[1], s[2]); }
    if |s| == 5 { JoinFive(s[0], s[1], s[2], s[3], s[4]); }
    assert |s| == 2 ==> s == [s[0], s[1]];
    assert |s| == 3 ==> s == [s[0], s[1], s[2]];
    assert |s| == 5 ==> s == [s[0], s[1], s[2], s[3], s[4]];
  }

  /** Names hold no slash. */
  predicate Named(k: Key) {
    forall s :: s in Segments(k) ==> '/' !in s
  }

  lemma SplitAfter(c: char, head: string, whole: string, tail: string, sep: char)
    requires Split(whole, sep) == Split(head, sep) + Split(tail, sep)
    ensures Split([c] + whole, sep) == Split([c] + head, sep) + Split(tail, sep)
  {
    hide Split;
    SplitStep(c, whole, sep);
    SplitStep(c, head, sep);
    var a, b := Split(head, sep), Split(tail, sep);
    if c == sep {
      PrependAssoc("", a, b);
    } else {
      assert (a + b)[0] == a[0] && (a + b)[1..] == a[1..] + b;
      PrependAssoc([c] + a[0], a[1..], b);
    }
  }

  lemma {:induction false} SplitAppend(s: string, t: string, sep: char)
    ensures Split(s + ([sep] + t), sep) == Split(s, sep) + Split(t, sep)
  {
    if s == "" {
      SplitStep(sep, t, sep);
      assert "" + ([sep] + t) == [sep] + t;
    } else {
      hide Split;
      var c, tail, rest := s[0], s[1..], [sep] + t;
      assert s == [c] + tail;
      SplitAppend(tail, t, sep);
      PrependAssoc(c, tail, rest);
      SplitAfter(c, tail, tail + rest, t, sep);
    }
  }

  /** A path extends another one by "/..." exactly when its parts do. */
  lemma PathsNest(a: seq<string>, b: seq<string>)
    requires a != [] && b != [] && (forall s :: s in a || s in b ==> '/' !in s)
    requires Join(a, '/') + "/" <= Join(b, '/')
    ensures a < b
  {
    hide Join, Split;
    SplitJoin(a, '/');
    SplitJoin(b, '/');
    var rest := Join(b, '/')[|Join(a, '/')| + 1..];
    SplitAppend(Join(a, '/'), rest, '/');
    assert Join(b, '/') == Join(a, '/') + (['/'] + rest);
  }

  lemma PathPrefix(a: seq<string>, b: seq<string>)
    requires a != [] && b != [] && (forall s :: s in a || s in b ==> '/' !in s)
    ensures Join(a, '/') + "/" <= Join(b, '/') <==> a < b
  {
    hide Join;
    if Join(a, '/') + "/" <= Join(b, '/') {
      PathsNest(a, b);
    }
    if a < b {
      JoinAppend(a, b[|a|..]);
      assert b == a + b[|a|..];
    }
  }

  lemma {:induction false} JoinAppend(a: seq<string>, b: seq<string>)
    requires a != [] && b != []
    ensures Join(a + b, '/') == Join(a, '/') + "/" + Join(b, '/')
  {
    if |a| > 1 {
      JoinAppend(a[1..], b);
      assert (a + b)[1..] == a[1..] + b;
    } else {
      assert (a + b)[1..] == b;
    }
  }

  /** Deleting k + "/" with a prefix removes the children of k and leaves its name
      siblings, as "sw1" beside "sw10", untouched. */
  lemma PrefixDeletesChildren(k: Key, key: Key)
    requires Named(k) && Named(key)
    ensures Path(k) + "/" <= Path(key) <==> Under(k, key)
  {
    PathPrefix(Segments(k), Segments(key));
    PrefixOfTail(Join(Segments(k), '/') + "/", Join(Segments(key), '/'));
    assert Path(k) + "/" == "/" + (Join(Segments(k), '/') + "/");
    SegmentsNest(k, key);
    hide Join, Split, Segments, Under;
  }

  lemma PrefixOfTail(s: string, t: string)
    ensures "/" + s <= "/" + t <==> s <= t
  {
    if "/" + s <= "/" + t {
      assert s == ("/" + s)[1..] && t == ("/" + t)[1..];
    }
  }

  lemma SegmentsNest(k: Key, key: Key)
    ensures Segments(k) < Segments(key) <==> Under(k, key)
  {
    var a, b := Segments(k), Segments(key);
    assert "LS"[1] != "LR"[1];
    if |a| < |b| {
      assert a < b <==> a == b[..|a|];
      assert a == b[..|a|] ==> a[0] == b[0] && a[1] == b[1];
      if |a| == 3 && a[0] == b[0] && a[1] == b[1] && a[2] == b[2] {
        assert a == b[..|a|];
      }
    }
  }

  lemma PathsDiffer(k: Key, key: Key)
    requires Named(k) && Named(key) && Path(k) == Path(key)
    ensures k == key
  {
    assert Path(k)[1..] == Join(Segments(k), '/') && Path(key)[1..] == Join(Segments(key), '/');
    SplitJoin(Segments(k), '/');
    SplitJoin(Segments(key), '/');
    assert Segments(k) == Segments(key);
    assert Segments(k)[1] == Segments(key)[1] && Segments(k)[|Segments(k)| - 1] == Segments(key)[|Segments(key)| - 1];
    hide Join, Split;
  }
}
