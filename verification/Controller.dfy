// The stateless controllers that save and delete logical devices: device ids and
// low 16 address bits are handed out optimistically, from bitmaps that were read
// earlier, and committed by compare-and-swap transactions.

module Controller {
  import opened Common
  import opened IdMap
  import opened EtcdStore

  datatype Device =
    | Switch(name: string, id: nat)
    | Router(name: string, id: nat)
    | SwitchPort(owner: string, name: string, ip: nat)
    | RouterPort(owner: string, name: string, ip: nat)
    | Chassis(name: string)
    | StaticRoute(owner: string, name: string)
    | Nat(owner: string, name: string)

  function KeyOf(d: Device): Key {
    match d
    case Switch(n, _) => SwitchKey(n)
    case Router(n, _) => RouterKey(n)
    case SwitchPort(o, n, _) => SwitchPortKey(o, n)
    case RouterPort(o, n, _) => RouterPortKey(o, n)
    case Chassis(n) => ChassisKey(n)
    case StaticRoute(o, n) => StaticRouteKey(o, n)
    case Nat(o, n) => NatKey(o, n)
  }

  function ValueOf(d: Device): Value {
    match d
    case Switch(_, id) => Dev(id)
    case Router(_, id) => Dev(id)
    case SwitchPort(_, _, ip) => Port(ip)
    case RouterPort(_, _, ip) => Port(ip)
    case _ => Record
  }

  function Claim(d: Device): nat {
    ClaimOf(ValueOf(d))
  }

  /** An entry of idMaps: the bitmap as it was read, and the working copy. */
  datatype Book = Book(was: Option<set<nat>>, cur: set<nat>)

  type Books = map<Key, Book>

  /** The entry for a key: read once, then taken from the cache. */
  function Opened(books: Books, view: Kv, key: Key): Book {
    if key in books then books[key] else Book(ReadIds(view, key), Bits(ReadIds(view, key)))
  }

  // ----- Save -----

  /** allocateID or markIPUsed for one device. The source gives no id to a device
      that already carries one. */
  function SaveOne(books: Books, d: Device, view: Kv): Option<(Books, Device)> {
    match d
    case Switch(_, id) => if id != 0 then Some((books, d)) else AllocateId(books, d, view)
    case Router(_, id) => if id != 0 then Some((books, d)) else AllocateId(books, d, view)
    case SwitchPort(_, _, ip) => MarkUsed(books, d, view)
    case RouterPort(_, _, ip) => MarkUsed(books, d, view)
    case _ => Some((books, d))
  }

  function AllocateId(books: Books, d: Device, view: Kv): Option<(Books, Device)>
    requires d.Switch? || d.Router?
  {
    var b := Opened(books, view, DeviceIds);
    match LeastFree(b.cur, 1, MAX_UINT16)
    case None => None
    case Some(id) => Some((books[DeviceIds := b.(cur := b.cur + {id})], d.(id := id)))
  }

  function MarkUsed(books: Books, d: Device, view: Kv): Option<(Books, Device)>
    requires d.SwitchPort? || d.RouterPort?
  {
    var p := PoolOf(KeyOf(d)).value;
    var b := Opened(books, view, p);
    if Low16(d.ip) in b.cur then None else Some((books[p := b.(cur := b.cur + {Low16(d.ip)})], d))
  }

  /** The bitmaps and the completed devices after all devices were visited. */
  function SaveAll(devs: seq<Device>, view: Kv): Option<(Books, seq<Device>)> {
    if devs == [] then Some((map[], []))
    else
      match SaveAll(devs[..|devs| - 1], view)
      case None => None
      case Some((books, saved)) =>
        match SaveOne(books, devs[|devs| - 1], view)
        case None => None
        case Some((books', d)) => Some((books', saved + [d]))
  }

  function SaveCmps(saved: seq<Device>): seq<Cmp> {
    seq(|saved|, i requires 0 <= i < |saved| => KeyMissing(KeyOf(saved[i])))
  }

  function SavePuts(saved: seq<Device>): seq<Op> {
    seq(|saved|, i requires 0 <= i < |saved| => Put(KeyOf(saved[i]), ValueOf(saved[i])))
  }

  /** The loop over idMaps at the end of Save, in the order the map yields its keys. */
  function BookCmps(books: Books, order: seq<Key>): seq<Cmp>
    requires forall k :: k in order ==> k in books
  {
    seq(|order|, i requires 0 <= i < |order| =>
      if books[order[i]].was.None? then KeyMissing(order[i]) else ValueIs(order[i], books[order[i]].was))
  }

  function BookPuts(books: Books, order: seq<Key>): seq<Op>
    requires forall k :: k in order ==> k in books
  {
    if order == [] then []
    else
      var last := order[|order| - 1];
      BookPuts(books, order[..|order| - 1]) +
      if books[last].was == Some(books[last].cur) then [] else [Put(last, Ids(books[last].cur))]
  }

  ghost predicate Orders(order: seq<Key>, books: Books) {
    (forall k :: k in order <==> k in books) && (forall i, j :: 0 <= i < j < |order| ==> order[i] != order[j])
  }

  /** The transaction that Save sends for a view and an order of its bitmaps. */
  ghost function SaveTxn(kv: Kv, books: Books, saved: seq<Device>, order: seq<Key>): Kv
    requires Orders(order, books)
  {
    Transact(kv, SaveCmps(saved) + BookCmps(books, order), SavePuts(saved) + BookPuts(books, order))
  }

  lemma {:induction false} BookPutsIn(books: Books, order: seq<Key>, o: Op)
    requires forall k :: k in order ==> k in books
    ensures o in BookPuts(books, order) <==>
      o.Put? && o.key in order && o.value == Ids(books[o.key].cur) && books[o.key].was != Some(books[o.key].cur)
  {
    if order != [] {
      var init, last := order[..|order| - 1], order[|order| - 1];
      BookPutsIn(books, init, o);
      assert forall k :: k in order <==> k in init || k == last;
    }
  }

  // ----- What Save drafts -----

  /** Devices to be saved come without an id. */
  predicate NewDevices(devs: seq<Device>) {
    forall d :: d in devs && (d.Switch? || d.Router?) ==> d.id == 0
  }

  predicate Takes(d: Device, p: Key, x: nat) {
    PoolOf(KeyOf(d)) == Some(p) && Claim(d) == x
  }

  predicate Collide(d: Device, e: Device) {
    PoolOf(KeyOf(d)).Some? && PoolOf(KeyOf(d)) == PoolOf(KeyOf(e)) && Claim(d) == Claim(e)
  }

  /** Every saved device takes a bit that was free when the bitmap was read, and no
      two devices take the same one. */
  ghost predicate DraftSafe(books: Books, saved: seq<Device>) {
    (forall p :: p in books ==> IsBook(p) && Bits(books[p].was) <= books[p].cur) &&
    (forall d :: d in saved && PoolOf(KeyOf(d)).Some? ==>
       PoolOf(KeyOf(d)).value in books && Claim(d) in books[PoolOf(KeyOf(d)).value].cur &&
       Claim(d) !in Bits(books[PoolOf(KeyOf(d)).value].was)) &&
    (forall i, j :: 0 <= i < j < |saved| ==> !Collide(saved[i], saved[j]))
  }

  /** The working copies hold what was read and what the devices took, nothing else. */
  ghost predicate DraftExact(books: Books, saved: seq<Device>) {
    forall p, x :: p in books && x in books[p].cur ==>
      x in Bits(books[p].was) || exists d :: d in saved && Takes(d, p, x)
  }

  ghost predicate DraftOk(books: Books, saved: seq<Device>) {
    DraftSafe(books, saved) && DraftExact(books, saved)
  }

  lemma DraftStaysSafe(books: Books, saved: seq<Device>, p: Key, b: Book, d: Device)
    requires DraftSafe(books, saved) && PoolOf(KeyOf(d)) == Some(p)
    requires b == if p in books then books[p] else Book(b.was, Bits(b.was))
    requires Claim(d) !in b.cur
    ensures DraftSafe(books[p := b.(cur := b.cur + {Claim(d)})], saved + [d])
  {
    var saved' := saved + [d];
    assert IsBook(p);
    hide Claim, PoolOf, KeyOf, Bits;
    assert forall e :: e in saved' <==> e in saved || e == d;
    forall i, j | 0 <= i < j < |saved'| ensures !Collide(saved'[i], saved'[j]) {
      assert saved'[i] in saved;
    }
  }

  lemma DraftStaysExact(books: Books, saved: seq<Device>, p: Key, b: Book, d: Device)
    requires DraftExact(books, saved) && PoolOf(KeyOf(d)) == Some(p)
    requires b == if p in books then books[p] else Book(b.was, Bits(b.was))
    ensures DraftExact(books[p := b.(cur := b.cur + {Claim(d)})], saved + [d])
  {
    hide Claim, PoolOf, KeyOf, Bits;
    var books', saved' := books[p := b.(cur := b.cur + {Claim(d)})], saved + [d];
    forall q, x | q in books' && x in books'[q].cur
      ensures x in Bits(books'[q].was) || exists e :: e in saved' && Takes(e, q, x)
    {
      if q == p && x == Claim(d) {
        assert d in saved' && Takes(d, q, x);
      } else if q in books && x !in Bits(books[q].was) {
        var e :| e in saved && Takes(e, q, x);
        assert e in saved';
      }
    }
  }

  lemma DraftGrows(books: Books, saved: seq<Device>, p: Key, b: Book, d: Device)
    requires DraftOk(books, saved) && PoolOf(KeyOf(d)) == Some(p)
    requires b == if p in books then books[p] else Book(b.was, Bits(b.was))
    requires Claim(d) !in b.cur
    ensures DraftOk(books[p := b.(cur := b.cur + {Claim(d)})], saved + [d])
  {
    hide DraftSafe, DraftExact, Claim, PoolOf, KeyOf, Bits;
    DraftStaysSafe(books, saved, p, b, d);
    DraftStaysExact(books, saved, p, b, d);
  }

  lemma DraftSkips(books: Books, saved: seq<Device>, d: Device)
    requires DraftOk(books, saved) && PoolOf(KeyOf(d)).None?
    ensures DraftOk(books, saved + [d])
  {
    assert d in saved + [d] && forall e :: e in saved ==> e in saved + [d];
    assert forall e :: e in saved + [d] ==> e in saved || e == d;
    hide Claim, PoolOf, KeyOf;
  }

  /** One device either takes a free bit of its bitmap or needs none. */
  lemma SaveOneTakes(books: Books, d: Device, view: Kv)
    requires (d.Switch? || d.Router? ==> d.id == 0) && SaveOne(books, d, view).Some?
    ensures var (books', d') := SaveOne(books, d, view).value;
      KeyOf(d') == KeyOf(d) &&
      match PoolOf(KeyOf(d))
      case None => books' == books
      case Some(p) =>
        var b := Opened(books, view, p);
        Claim(d') !in b.cur && books' == books[p := b.(cur := b.cur + {Claim(d')})]
  {
    LeastFreeIs(Opened(books, view, DeviceIds).cur, 1, MAX_UINT16);
  }

  lemma {:induction false} SaveDrafts(devs: seq<Device>, view: Kv)
    requires NewDevices(devs) && SaveAll(devs, view).Some?
    ensures DraftOk(SaveAll(devs, view).value.0, SaveAll(devs, view).value.1)
  {
    hide DraftOk, SaveOne, KeyOf, PoolOf, Claim;
    if devs == [] {
      EmptyDraft();
    } else {
      var init, last := devs[..|devs| - 1], devs[|devs| - 1];
      SaveDrafts(init, view);
      var (books, saved) := SaveAll(init, view).value;
      SaveOneTakes(books, last, view);
      var (_, d) := SaveOne(books, last, view).value;
      if PoolOf(KeyOf(d)).Some? {
        var p := PoolOf(KeyOf(d)).value;
        DraftGrows(books, saved, p, Opened(books, view, p), d);
      } else {
        DraftSkips(books, saved, d);
      }
    }
  }

  lemma EmptyDraft()
    ensures DraftOk(map[], [])
  {
  }

  // ----- Safety of the store -----

  /** Bitmaps hold bitmaps; every device's claim is marked in its bitmap and no two
      devices of one bitmap share a claim. */
  ghost predicate Safe(kv: Kv) {
    (forall k :: k in kv && IsBook(k) ==> kv[k].Ids?) &&
    (forall k :: k in kv && PoolOf(k).Some? ==> ClaimOf(kv[k]) in BookAt(kv, PoolOf(k).value)) &&
    (forall k, l :: k in kv && l in kv && k != l && PoolOf(k).Some? && PoolOf(k) == PoolOf(l) ==>
       ClaimOf(kv[k]) != ClaimOf(kv[l]))
  }

  /** Some stored device of bitmap p has claim x. */
  ghost predicate Claimed(kv: Kv, p: Key, x: nat) {
    exists k :: k in kv && PoolOf(k) == Some(p) && ClaimOf(kv[k]) == x
  }

  /** Every bitmap is exactly the set of claims of its devices. */
  ghost predicate Exact(kv: Kv) {
    forall p, x :: IsBook(p) ==> (x in BookAt(kv, p) <==> Claimed(kv, p, x))
  }

  lemma ExactAt(kv: Kv, p: Key, x: nat)
    requires Exact(kv) && IsBook(p)
    ensures x in BookAt(kv, p) <==> Claimed(kv, p, x)
  {
  }

  /** The store after a successful Save. */
  ghost predicate SavedInto(kv: Kv, books: Books, saved: seq<Device>, kv': Kv) {
    (forall d :: d in saved ==> KeyOf(d) !in kv && KeyOf(d) in kv' && kv'[KeyOf(d)] == ValueOf(d)) &&
    (forall i, j :: 0 <= i < j < |saved| ==> KeyOf(saved[i]) != KeyOf(saved[j])) &&
    (forall p :: p in books ==> ReadIds(kv, p) == books[p].was && ReadIds(kv', p) == Some(books[p].cur)) &&
    (forall k :: k !in books && (forall d :: d in saved ==> KeyOf(d) != k) ==>
       (k in kv' <==> k in kv) && (k in kv ==> kv'[k] == kv[k]))
  }

  lemma InPuts(saved: seq<Device>)
    ensures forall d :: d in saved ==>
      Put(KeyOf(d), ValueOf(d)) in SavePuts(saved) && KeyMissing(KeyOf(d)) in SaveCmps(saved)
    ensures forall o :: o in SavePuts(saved) ==> exists d :: d in saved && o == Put(KeyOf(d), ValueOf(d))
  {
    hide KeyOf, ValueOf;
    forall d | d in saved
      ensures Put(KeyOf(d), ValueOf(d)) in SavePuts(saved) && KeyMissing(KeyOf(d)) in SaveCmps(saved)
    {
      var i :| 0 <= i < |saved| && saved[i] == d;
      assert SavePuts(saved)[i] == Put(KeyOf(d), ValueOf(d)) && SaveCmps(saved)[i] == KeyMissing(KeyOf(d));
    }
  }

  lemma BookCmpHolds(kv: Kv, books: Books, order: seq<Key>, p: Key)
    requires Orders(order, books) && p in books
    requires forall c :: c in BookCmps(books, order) ==> Holds(kv, c)
    ensures ReadIds(kv, p) == books[p].was && (books[p].was.None? ==> p !in kv)
  {
    var i :| 0 <= i < |order| && order[i] == p;
    assert Holds(kv, BookCmps(books, order)[i]);
  }

  ghost predicate SaveSucceeds(kv: Kv, books: Books, saved: seq<Device>, order: seq<Key>)
    requires Orders(order, books)
  {
    Succeeds(kv, SaveCmps(saved) + BookCmps(books, order), SavePuts(saved) + BookPuts(books, order))
  }

  /** The operations of Save: puts of the devices and of the changed bitmaps. */
  lemma SaveOps(books: Books, saved: seq<Device>, order: seq<Key>)
    requires Orders(order, books)
    ensures forall o :: o in SavePuts(saved) + BookPuts(books, order) <==>
      o.Put? && ((exists d :: d in saved && o == Put(KeyOf(d), ValueOf(d))) ||
                 (o.key in books && o.value == Ids(books[o.key].cur) && books[o.key].was != Some(books[o.key].cur)))
  {
    InPuts(saved);
    hide KeyOf, ValueOf, SavePuts, BookPuts;
    forall o ensures o in BookPuts(books, order) <==>
      o.Put? && o.key in order && o.value == Ids(books[o.key].cur) && books[o.key].was != Some(books[o.key].cur)
    {
      BookPutsIn(books, order, o);
    }
  }

  lemma SaveWritesDevice(kv: Kv, books: Books, saved: seq<Device>, order: seq<Key>, d: Device)
    requires Orders(order, books) && SaveSucceeds(kv, books, saved, order) && d in saved
    ensures var k, kv' := KeyOf(d), SaveTxn(kv, books, saved, order);
      k !in kv && k in kv' && kv'[k] == ValueOf(d)
  {
    var ops := SavePuts(saved) + BookPuts(books, order);
    InPuts(saved);
    ApplyAt(kv, ops, KeyOf(d));
    assert Put(KeyOf(d), ValueOf(d)) in ops;
    assert KeyMissing(KeyOf(d)) in SaveCmps(saved) + BookCmps(books, order);
    hide SavePuts, BookPuts, KeyOf, ValueOf, NoOverlap, Apply, SaveCmps, BookCmps;
  }

  lemma SaveWritesBook(kv: Kv, books: Books, saved: seq<Device>, order: seq<Key>, p: Key)
    requires Orders(order, books) && SaveSucceeds(kv, books, saved, order) && p in books && IsBook(p)
    ensures var kv' := SaveTxn(kv, books, saved, order);
      ReadIds(kv, p) == books[p].was && ReadIds(kv', p) == Some(books[p].cur)
  {
    assert forall d :: d in saved ==> KeyOf(d) != p;
    hide SavePuts, BookPuts, KeyOf, ValueOf, NoOverlap, Apply, SaveCmps, BookCmps;
    var ops := SavePuts(saved) + BookPuts(books, order);
    SaveOps(books, saved, order);
    ApplyAt(kv, ops, p);
    assert forall c :: c in BookCmps(books, order) ==> c in SaveCmps(saved) + BookCmps(books, order);
    BookCmpHolds(kv, books, order, p);
    assert books[p].was != Some(books[p].cur) ==> Put(p, Ids(books[p].cur)) in ops;
  }

  lemma SaveKeepsOther(kv: Kv, books: Books, saved: seq<Device>, order: seq<Key>, k: Key)
    requires Orders(order, books) && SaveSucceeds(kv, books, saved, order)
    requires k !in books && forall d :: d in saved ==> KeyOf(d) != k
    ensures var kv' := SaveTxn(kv, books, saved, order);
      (k in kv' <==> k in kv) && (k in kv ==> kv'[k] == kv[k])
  {
    SaveOps(books, saved, order);
    ApplyAt(kv, SavePuts(saved) + BookPuts(books, order), k);
    hide SavePuts, BookPuts, KeyOf, ValueOf, NoOverlap, Apply, SaveCmps, BookCmps;
  }

  lemma SavedKeysDiffer(saved: seq<Device>, rest: seq<Op>)
    requires NoOverlap(SavePuts(saved) + rest)
    ensures forall i, j :: 0 <= i < j < |saved| ==> KeyOf(saved[i]) != KeyOf(saved[j])
  {
    hide KeyOf, ValueOf;
    var ops := SavePuts(saved) + rest;
    forall i, j | 0 <= i < j < |saved| ensures KeyOf(saved[i]) != KeyOf(saved[j]) {
      assert !Clashes(ops[i], ops[j]);
    }
  }

  lemma SaveWritesAll(kv: Kv, books: Books, saved: seq<Device>, order: seq<Key>)
    requires Orders(order, books) && SaveSucceeds(kv, books, saved, order)
    requires forall p :: p in books ==> IsBook(p)
    ensures SavedInto(kv, books, saved, SaveTxn(kv, books, saved, order))
  {
    SavedKeysDiffer(saved, BookPuts(books, order));
    hide SaveTxn, SaveSucceeds, KeyOf, ValueOf, ReadIds;
    var kv' := SaveTxn(kv, books, saved, order);
    forall d | d in saved ensures KeyOf(d) !in kv && KeyOf(d) in kv' && kv'[KeyOf(d)] == ValueOf(d) {
      SaveWritesDevice(kv, books, saved, order, d);
    }
    forall p | p in books ensures ReadIds(kv, p) == books[p].was && ReadIds(kv', p) == Some(books[p].cur) {
      SaveWritesBook(kv, books, saved, order, p);
    }
    forall k | k !in books && (forall d :: d in saved ==> KeyOf(d) != k)
      ensures (k in kv' <==> k in kv) && (k in kv ==> kv'[k] == kv[k])
    {
      SaveKeepsOther(kv, books, saved, order, k);
    }
  }

  /** A key of the new store is an old one or the key of exactly one saved device. */
  lemma SavedKey(kv: Kv, books: Books, saved: seq<Device>, kv': Kv, k: Key) returns (i: int)
    requires SavedInto(kv, books, saved, kv') && DraftSafe(books, saved) && k in kv' && PoolOf(k).Some?
    ensures -1 <= i < |saved|
    ensures i == -1 ==> k in kv && kv'[k] == kv[k]
    ensures i >= 0 ==> KeyOf(saved[i]) == k && kv'[k] == ValueOf(saved[i])
  {
    if d :| d in saved && KeyOf(d) == k {
      i :| 0 <= i < |saved| && saved[i] == d;
    } else {
      i := -1;
      assert k !in books;
    }
  }

  lemma SavedBook(kv: Kv, books: Books, saved: seq<Device>, kv': Kv, p: Key)
    requires SavedInto(kv, books, saved, kv') && DraftSafe(books, saved) && IsBook(p)
    ensures if p in books then BookAt(kv, p) == Bits(books[p].was) && BookAt(kv', p) == books[p].cur
      else BookAt(kv', p) == BookAt(kv, p) && forall d :: d in saved ==> PoolOf(KeyOf(d)) != Some(p)
  {
  }

  lemma SaveClaimMarked(kv: Kv, books: Books, saved: seq<Device>, kv': Kv, k: Key)
    requires Safe(kv) && SavedInto(kv, books, saved, kv') && DraftSafe(books, saved) && k in kv' && PoolOf(k).Some?
    ensures ClaimOf(kv'[k]) in BookAt(kv', PoolOf(k).value)
  {
    SavedBook(kv, books, saved, kv', PoolOf(k).value);
    var i := SavedKey(kv, books, saved, kv', k);
    if i >= 0 { assert saved[i] in saved; }
    hide SavedInto, KeyOf, ValueOf, ClaimOf, BookAt;
  }

  lemma SaveClaimsDiffer(kv: Kv, books: Books, saved: seq<Device>, kv': Kv, k: Key, l: Key)
    requires Safe(kv) && SavedInto(kv, books, saved, kv') && DraftSafe(books, saved)
    requires k in kv' && l in kv' && k != l && PoolOf(k).Some? && PoolOf(k) == PoolOf(l)
    ensures ClaimOf(kv'[k]) != ClaimOf(kv'[l])
  {
    SavedBook(kv, books, saved, kv', PoolOf(k).value);
    var i := SavedKey(kv, books, saved, kv', k);
    var j := SavedKey(kv, books, saved, kv', l);
    if i >= 0 { assert saved[i] in saved; }
    if j >= 0 { assert saved[j] in saved; }
    if i >= 0 && j >= 0 {
      assert !Collide(if i < j then saved[i] else saved[j], if i < j then saved[j] else saved[i]);
    }
    hide SavedInto, KeyOf, ValueOf, ClaimOf, BookAt;
  }

  lemma SaveKeepsSafe(kv: Kv, books: Books, saved: seq<Device>, kv': Kv)
    requires Safe(kv) && SavedInto(kv, books, saved, kv') && DraftSafe(books, saved)
    ensures Safe(kv')
  {
    forall k | k in kv' && PoolOf(k).Some? ensures ClaimOf(kv'[k]) in BookAt(kv', PoolOf(k).value) {
      SaveClaimMarked(kv, books, saved, kv', k);
    }
    forall k, l | k in kv' && l in kv' && k != l && PoolOf(k).Some? && PoolOf(k) == PoolOf(l)
      ensures ClaimOf(kv'[k]) != ClaimOf(kv'[l])
    {
      SaveClaimsDiffer(kv, books, saved, kv', k, l);
    }
    hide BookAt, ClaimOf, DraftSafe;
  }

  lemma SaveKeepsExact(kv: Kv, books: Books, saved: seq<Device>, kv': Kv)
    requires Exact(kv) && SavedInto(kv, books, saved, kv') && DraftOk(books, saved)
    ensures Exact(kv')
  {
    forall p, x | IsBook(p) ensures x in BookAt(kv', p) <==> Claimed(kv', p, x) {
      SavedBook(kv, books, saved, kv', p);
      if Claimed(kv', p, x) {
        var k :| k in kv' && PoolOf(k) == Some(p) && ClaimOf(kv'[k]) == x;
        var i := SavedKey(kv, books, saved, kv', k);
        if i >= 0 { assert saved[i] in saved; }
        assert i == -1 ==> Claimed(kv, p, x);
      }
      if x in BookAt(kv', p) {
        OldClaimStays(kv, books, saved, kv', p, x);
        if p in books && x !in Bits(books[p].was) {
          var d :| d in saved && Takes(d, p, x);
          assert KeyOf(d) in kv';
        }
      }
    }
  }

  lemma OldClaimStays(kv: Kv, books: Books, saved: seq<Device>, kv': Kv, p: Key, x: nat)
    requires SavedInto(kv, books, saved, kv') && DraftSafe(books, saved)
    ensures Claimed(kv, p, x) ==> Claimed(kv', p, x)
  {
    if k :| k in kv && PoolOf(k) == Some(p) && ClaimOf(kv[k]) == x {
      assert k !in books && k in kv' && kv'[k] == kv[k];
    }
  }

  // ----- Saved devices that carry an id -----

  predicate CarriesId(d: Device) {
    (d.Switch? || d.Router?) && d.id != 0
  }

  /** A working copy holds what was read and what the devices without an id took; a
      device with an id was passed on as it is. */
  ghost predicate Drafted(devs: seq<Device>, books: Books, saved: seq<Device>) {
    |saved| == |devs| && (forall p :: p in books ==> IsBook(p)) &&
    (forall i :: 0 <= i < |devs| && CarriesId(devs[i]) ==> saved[i] == devs[i]) &&
    (forall p, x :: p in books && x in books[p].cur ==> x in Bits(books[p].was) || Took(devs, saved, p, x))
  }

  ghost predicate Took(devs: seq<Device>, saved: seq<Device>, p: Key, x: nat)
    requires |saved| == |devs|
  {
    exists i :: 0 <= i < |devs| && !CarriesId(devs[i]) && Takes(saved[i], p, x)
  }

  lemma TookOneMore(devs: seq<Device>, saved: seq<Device>, d: Device, d': Device, p: Key, x: nat)
    requires |saved| == |devs|
    requires Took(devs, saved, p, x) || (!CarriesId(d) && Takes(d', p, x))
    ensures Took(devs + [d], saved + [d'], p, x)
  {
    hide CarriesId, Takes;
    var all, all' := devs + [d], saved + [d'];
    if Took(devs, saved, p, x) {
      var i :| 0 <= i < |devs| && !CarriesId(devs[i]) && Takes(saved[i], p, x);
      assert all[i] == devs[i] && all'[i] == saved[i];
    } else {
      assert all[|devs|] == d && all'[|devs|] == d';
    }
  }

  lemma DraftedOneMore(devs: seq<Device>, books: Books, saved: seq<Device>, d: Device, d': Device, books': Books)
    requires Drafted(devs, books, saved) && (CarriesId(d) ==> d' == d)
    requires forall p :: p in books' ==> IsBook(p)
    requires forall p, x :: p in books' && x in books'[p].cur ==>
      x in Bits(books'[p].was) || (p in books && books'[p].was == books[p].was && x in books[p].cur) ||
      (!CarriesId(d) && Takes(d', p, x))
    ensures Drafted(devs + [d], books', saved + [d'])
  {
    hide CarriesId, Takes, IsBook, Bits, Took;
    forall p, x | p in books' && x in books'[p].cur
      ensures x in Bits(books'[p].was) || Took(devs + [d], saved + [d'], p, x)
    {
      if x !in Bits(books'[p].was) { TookOneMore(devs, saved, d, d', p, x); }
    }
  }

  /** What one device does to the bitmaps, whether it carries an id or not. */
  lemma SaveOneDrafts(books: Books, d: Device, view: Kv)
    requires SaveOne(books, d, view).Some? && forall p :: p in books ==> IsBook(p)
    ensures var (books', d') := SaveOne(books, d, view).value;
      (CarriesId(d) ==> d' == d) && (forall p :: p in books' ==> IsBook(p)) &&
      forall p, x :: p in books' && x in books'[p].cur ==>
        x in Bits(books'[p].was) || (p in books && books'[p].was == books[p].was && x in books[p].cur) ||
        (!CarriesId(d) && Takes(d', p, x))
  {
    if !CarriesId(d) {
      hide SaveOne, KeyOf, Claim;
      SaveOneTakes(books, d, view);
    }
  }

  lemma {:induction false} SaveAllDrafts(devs: seq<Device>, view: Kv)
    requires SaveAll(devs, view).Some?
    ensures Drafted(devs, SaveAll(devs, view).value.0, SaveAll(devs, view).value.1)
  {
    if devs != [] {
      var init, last := devs[..|devs| - 1], devs[|devs| - 1];
      hide SaveOne, CarriesId, Takes, IsBook, Bits, Took;
      SaveAllDrafts(init, view);
      var (books, saved) := SaveAll(init, view).value;
      SaveOneDrafts(books, last, view);
      var (books', d) := SaveOne(books, last, view).value;
      DraftedOneMore(init, books, saved, last, d, books');
      assert init + [last] == devs;
    }
  }

  lemma UnmarkedIsUnsafe(kv: Kv, k: Key)
    requires k in kv && PoolOf(k).Some? && ClaimOf(kv[k]) !in BookAt(kv, PoolOf(k).value)
    ensures !Safe(kv)
  {
  }

  lemma SharedClaimIsUnsafe(kv: Kv, k: Key, l: Key)
    requires k in kv && l in kv && k != l && PoolOf(k).Some? && PoolOf(k) == PoolOf(l)
    requires ClaimOf(kv[k]) == ClaimOf(kv[l])
    ensures !Safe(kv)
  {
  }

  /** A marked id that a device carries is the claim of a second device. */
  lemma CarriedIdIsClaimed(devs: seq<Device>, books: Books, saved: seq<Device>, kv: Kv, kv': Kv, i: nat)
    returns (k: Key)
    requires Exact(kv) && Drafted(devs, books, saved) && SavedInto(kv, books, saved, kv')
    requires i < |devs| && CarriesId(devs[i]) && devs[i].id in BookAt(kv', DeviceIds)
    ensures k in kv' && k != KeyOf(devs[i]) && PoolOf(k) == Some(DeviceIds) && ClaimOf(kv'[k]) == devs[i].id
  {
    hide KeyOf, Exact, Took, ValueOf;
    var id := devs[i].id;
    assert saved[i] in saved;
    if DeviceIds in books && id !in Bits(books[DeviceIds].was) {
      var j := Taker(devs, saved, DeviceIds, id);
      assert saved[j] in saved && KeyOf(saved[j]) != KeyOf(saved[i]);
      k := KeyOf(saved[j]);
    } else {
      assert id in BookAt(kv, DeviceIds) by { StillMarked(books, saved, kv, kv', id); }
      ExactAt(kv, DeviceIds, id);
      k :| k in kv && PoolOf(k) == Some(DeviceIds) && ClaimOf(kv[k]) == id;
      assert !IsBook(k);
    }
  }

  lemma Taker(devs: seq<Device>, saved: seq<Device>, p: Key, x: nat) returns (j: nat)
    requires |saved| == |devs| && Took(devs, saved, p, x)
    ensures j < |devs| && !CarriesId(devs[j]) && PoolOf(KeyOf(saved[j])) == Some(p) && ClaimOf(ValueOf(saved[j])) == x
  {
    j :| 0 <= j < |devs| && !CarriesId(devs[j]) && Takes(saved[j], p, x);
  }

  lemma StillMarked(books: Books, saved: seq<Device>, kv: Kv, kv': Kv, id: nat)
    requires SavedInto(kv, books, saved, kv') && id in BookAt(kv', DeviceIds)
    requires DeviceIds in books ==> id in Bits(books[DeviceIds].was)
    ensures id in BookAt(kv, DeviceIds)
  {
  }

  lemma CarriedIdIsUnsafe(devs: seq<Device>, books: Books, saved: seq<Device>, kv: Kv, kv': Kv)
    requires Exact(kv) && Drafted(devs, books, saved) && SavedInto(kv, books, saved, kv') && !NewDevices(devs)
    ensures !Safe(kv')
  {
    hide Exact, Took, BookAt;
    var d :| d in devs && CarriesId(d);
    var i :| 0 <= i < |devs| && devs[i] == d;
    assert saved[i] == d && saved[i] in saved;
    assert PoolOf(KeyOf(d)) == Some(DeviceIds) && ClaimOf(ValueOf(d)) == d.id;
    hide KeyOf, ValueOf, Drafted, SavedInto;
    if d.id in BookAt(kv', DeviceIds) {
      var k := CarriedIdIsClaimed(devs, books, saved, kv, kv', i);
      SharedClaimIsUnsafe(kv', KeyOf(d), k);
    } else {
      UnmarkedIsUnsafe(kv', KeyOf(d));
    }
  }

  /** A successful Save on an exact store keeps it safe if and only if no switch and no
      router comes with an id of its own. */
  lemma SaveKeepsSafeIff(kv: Kv, devs: seq<Device>, view: Kv, order: seq<Key>)
    requires Safe(kv) && Exact(kv) && SaveAll(devs, view).Some?
    requires var (books, saved) := SaveAll(devs, view).value;
      Orders(order, books) && SaveSucceeds(kv, books, saved, order)
    ensures var (books, saved) := SaveAll(devs, view).value;
      Safe(SaveTxn(kv, books, saved, order)) <==> NewDevices(devs)
  {
    var (books, saved) := SaveAll(devs, view).value;
    SaveAllDrafts(devs, view);
    hide Exact, SaveTxn, SaveSucceeds, SavedInto, NewDevices, DraftSafe, Took;
    SaveWritesAll(kv, books, saved, order);
    if NewDevices(devs) {
      SaveDrafts(devs, view);
      SaveKeepsSafe(kv, books, saved, SaveTxn(kv, books, saved, order));
    } else {
      CarriedIdIsUnsafe(devs, books, saved, kv, SaveTxn(kv, books, saved, order));
    }
  }

  // ----- What Save stores -----

  /** The device as it was given, except for the id that a new switch or router gets. */
  predicate StoredAs(d: Device, d': Device) {
    match d
    case Switch(n, 0) => d' == Switch(n, Claim(d')) && 0 < Claim(d') <= 65535
    case Router(n, 0) => d' == Router(n, Claim(d')) && 0 < Claim(d') <= 65535
    case _ => d' == d
  }

  /** What the store holds for a saved device. */
  predicate StoredIn(kv: Kv, d: Device) {
    match d
    case Switch(n, id) => SwitchKey(n) in kv && HoldsId(kv[SwitchKey(n)], id)
    case Router(n, id) => RouterKey(n) in kv && HoldsId(kv[RouterKey(n)], id)
    case SwitchPort(o, n, ip) => SwitchPortKey(o, n) in kv && kv[SwitchPortKey(o, n)] == Port(ip)
    case RouterPort(o, n, ip) => RouterPortKey(o, n) in kv && kv[RouterPortKey(o, n)] == Port(ip)
    case Chassis(n) => ChassisKey(n) in kv && kv[ChassisKey(n)] == Record
    case StaticRoute(o, n) => StaticRouteKey(o, n) in kv && kv[StaticRouteKey(o, n)] == Record
    case Nat(o, n) => NatKey(o, n) in kv && kv[NatKey(o, n)] == Record
  }

  /** The id that was asked for, or a new one. */
  predicate HoldsId(v: Value, id: nat) {
    v.Dev? && if id == 0 then 0 < v.id <= 65535 else v.id == id
  }

  /** A new id is the least one that is free in the working copy. */
  lemma SaveOneKeeps(books: Books, d: Device, view: Kv)
    requires SaveOne(books, d, view).Some?
    ensures var d' := SaveOne(books, d, view).value.1;
      StoredAs(d, d') &&
      (d' != d ==> forall j :: 0 < j < Claim(d') ==> j in Opened(books, view, DeviceIds).cur)
  {
    LeastFreeIs(Opened(books, view, DeviceIds).cur, 1, MAX_UINT16);
  }

  lemma {:induction false} SaveAllKeeps(devs: seq<Device>, view: Kv)
    requires SaveAll(devs, view).Some?
    ensures var saved := SaveAll(devs, view).value.1;
      |saved| == |devs| && forall i :: 0 <= i < |devs| ==> StoredAs(devs[i], saved[i])
  {
    hide StoredAs, SaveOne;
    if devs != [] {
      var init, last := devs[..|devs| - 1], devs[|devs| - 1];
      SaveAllKeeps(init, view);
      var (books, saved) := SaveAll(init, view).value;
      SaveOneKeeps(books, last, view);
      var all := SaveAll(devs, view).value.1;
      forall i | 0 <= i < |devs| ensures StoredAs(devs[i], all[i]) {
        assert i < |init| ==> all[i] == saved[i] && devs[i] == init[i];
      }
    }
  }

  /** A successful Save stores every device under its own key, with the fields it came
      with and, for a new switch or router, an id between 1 and 65535. */
  lemma SaveStores(kv: Kv, devs: seq<Device>, view: Kv, order: seq<Key>, d: Device)
    requires SaveAll(devs, view).Some? && d in devs
    requires var (books, saved) := SaveAll(devs, view).value;
      Orders(order, books) && SaveSucceeds(kv, books, saved, order)
    ensures var (books, saved) := SaveAll(devs, view).value;
      KeyOf(d) !in kv && StoredIn(SaveTxn(kv, books, saved, order), d)
  {
    var (books, saved) := SaveAll(devs, view).value;
    hide SaveTxn, SaveSucceeds, SaveAll;
    SaveAllKeeps(devs, view);
    var i :| 0 <= i < |devs| && devs[i] == d;
    assert saved[i] in saved;
    SaveWritesDevice(kv, books, saved, order, saved[i]);
  }

  lemma {:induction false} BookPutsDiffer(books: Books, order: seq<Key>)
    requires forall k :: k in order ==> k in books
    requires forall i, j :: 0 <= i < j < |order| ==> order[i] != order[j]
    ensures forall o :: o in BookPuts(books, order) ==> o.Put? && o.key in order
    ensures forall i, j :: 0 <= i < j < |BookPuts(books, order)| ==>
      BookPuts(books, order)[i].key != BookPuts(books, order)[j].key
  {
    forall o | o in BookPuts(books, order) ensures o.Put? && o.key in order {
      BookPutsIn(books, order, o);
    }
    if order != [] {
      var init, last := order[..|order| - 1], order[|order| - 1];
      BookPutsDiffer(books, init);
      var before, puts := BookPuts(books, init), BookPuts(books, order);
      forall i, j | 0 <= i < j < |puts| ensures puts[i].key != puts[j].key {
        assert before[i] in before && puts[i] == before[i];
        assert j < |before| ==> puts[j] == before[j];
      }
    }
  }

  lemma SavePutsDiffer(books: Books, saved: seq<Device>, order: seq<Key>)
    requires Orders(order, books) && forall p :: p in books ==> IsBook(p)
    requires forall i, j :: 0 <= i < j < |saved| ==> KeyOf(saved[i]) != KeyOf(saved[j])
    ensures NoOverlap(SavePuts(saved) + BookPuts(books, order))
  {
    BookPutsDiffer(books, order);
    assert forall d :: d in saved ==> !IsBook(KeyOf(d));
    hide KeyOf, ValueOf, BookPuts, IsBook;
    var n, ops := |saved|, SavePuts(saved) + BookPuts(books, order);
    forall i, j | 0 <= i < j < |ops| ensures !Clashes(ops[i], ops[j]) {
      assert i < n ==> ops[i] == Put(KeyOf(saved[i]), ValueOf(saved[i])) && saved[i] in saved;
      assert j < n ==> ops[j] == Put(KeyOf(saved[j]), ValueOf(saved[j])) && saved[j] in saved;
    }
  }

  lemma SaveComparesIff(kv: Kv, books: Books, saved: seq<Device>, order: seq<Key>)
    requires Orders(order, books)
    ensures (forall c :: c in SaveCmps(saved) + BookCmps(books, order) ==> Holds(kv, c)) <==>
      (forall d :: d in saved ==> KeyOf(d) !in kv) &&
      forall p :: p in books ==>
        if books[p].was.None? then p !in kv else p in kv && kv[p] == Ids(books[p].was.value)
  {
    hide KeyOf;
    DeviceComparesIff(kv, saved);
    BookComparesIff(kv, books, order);
    hide SaveCmps, BookCmps, Holds;
    assert forall c :: c in SaveCmps(saved) + BookCmps(books, order) <==>
      c in SaveCmps(saved) || c in BookCmps(books, order);
  }

  lemma DeviceComparesIff(kv: Kv, saved: seq<Device>)
    ensures (forall c :: c in SaveCmps(saved) ==> Holds(kv, c)) <==> forall d :: d in saved ==> KeyOf(d) !in kv
  {
    hide KeyOf;
    forall d | d in saved ensures KeyMissing(KeyOf(d)) in SaveCmps(saved) {
      var i :| 0 <= i < |saved| && saved[i] == d;
      assert SaveCmps(saved)[i] == KeyMissing(KeyOf(d));
    }
  }

  lemma BookComparesIff(kv: Kv, books: Books, order: seq<Key>)
    requires Orders(order, books)
    ensures (forall c :: c in BookCmps(books, order) ==> Holds(kv, c)) <==>
      forall p :: p in books ==>
        if books[p].was.None? then p !in kv else p in kv && kv[p] == Ids(books[p].was.value)
  {
    forall p | p in books
      ensures (if books[p].was.None? then KeyMissing(p) else ValueIs(p, books[p].was)) in BookCmps(books, order)
    {
      var i :| 0 <= i < |order| && order[i] == p;
      assert BookCmps(books, order)[i] == if books[p].was.None? then KeyMissing(p) else ValueIs(p, books[p].was);
    }
  }

  /** When Save goes through: all devices are new and differ, and every bitmap is as it was read. */
  lemma SaveSucceedsIff(kv: Kv, books: Books, saved: seq<Device>, order: seq<Key>)
    requires Orders(order, books) && forall p :: p in books ==> IsBook(p)
    ensures SaveSucceeds(kv, books, saved, order) <==>
      (forall d :: d in saved ==> KeyOf(d) !in kv) &&
      (forall i, j :: 0 <= i < j < |saved| ==> KeyOf(saved[i]) != KeyOf(saved[j])) &&
      forall p :: p in books ==>
        if books[p].was.None? then p !in kv else p in kv && kv[p] == Ids(books[p].was.value)
  {
    hide KeyOf, ValueOf, SaveCmps, BookCmps, SavePuts, BookPuts, Holds, NoOverlap, IsBook;
    SaveComparesIff(kv, books, saved, order);
    if NoOverlap(SavePuts(saved) + BookPuts(books, order)) { SavedKeysDiffer(saved, BookPuts(books, order)); }
    if forall i, j :: 0 <= i < j < |saved| ==> KeyOf(saved[i]) != KeyOf(saved[j]) {
      SavePutsDiffer(books, saved, order);
    }
  }

  // ----- SaveSwitchPort -----

  /** One turn of the retry loop: the bitmap is read with the switch, the address is
      computed, and the bitmap is looked at a second time before the commit. */
  datatype Attempt = Attempt(owner: string, name: string, cip: nat, prefix: nat, first: Kv, second: Kv)

  function FirstBits(a: Attempt): set<nat> {
    BookAt(a.first, SwitchBook(a.owner))
  }

  /** The address and the marked id, or none when the source returns an error. */
  function AllocSwitchPortIp(a: Attempt): Option<(nat, nat)>
    requires a.prefix <= 32
  {
    if SwitchKey(a.owner) !in a.first then None
    else
      match AllocAddress(FirstBits(a), a.cip, a.prefix)
      case Allocated(ip, id) => Some((ip, id))
      case _ => None
  }

  function PortOf(a: Attempt, ip: nat): Device {
    SwitchPort(a.owner, a.name, ip)
  }

  /** The compare depends on the second look, its value on the first. */
  function PortBooks(a: Attempt, id: nat): Books {
    map[SwitchBook(a.owner) :=
        Book(if SwitchBook(a.owner) in a.second then Some(FirstBits(a)) else None, FirstBits(a) + {id})]
  }

  function PortCmps(a: Attempt): seq<Cmp> {
    var p := SwitchBook(a.owner);
    [KeyMissing(SwitchPortKey(a.owner, a.name)),
     if p in a.second then ValueIs(p, Some(FirstBits(a))) else KeyMissing(p)]
  }

  function PortOps(a: Attempt, ip: nat, id: nat): seq<Op> {
    [Put(SwitchPortKey(a.owner, a.name), Port(ip)), Put(SwitchBook(a.owner), Ids(FirstBits(a) + {id}))]
  }

  /** The bitmap that was read has room: the search for a free id will not come back
      below the network. */
  predicate HasRoom(a: Attempt)
    requires a.prefix <= 32
  {
    SwitchKey(a.owner) in a.first ==> HasRoomFor(FirstBits(a), a.cip, a.prefix)
  }

  /** The id that the allocator returns is not below the network exactly when there was room. */
  lemma RoomAbove(a: Attempt)
    requires a.prefix <= 32 && AllocSwitchPortIp(a).Some?
    ensures HasRoom(a) <==> AllocSwitchPortIp(a).value.1 >= Low16(Net(a.cip, a.prefix))
  {
    hide AllocAddress, FreeInSubnet, Net, Low16, Broadcast, HasRoomFor;
    IdAboveNetworkIff(FirstBits(a), a.cip, a.prefix);
  }

  lemma AttemptIsSave(kv: Kv, a: Attempt, ip: nat, id: nat)
    requires a.prefix <= 32 && AllocSwitchPortIp(a) == Some((ip, id))
    ensures var books, saved, order := PortBooks(a, id), [PortOf(a, ip)], [SwitchBook(a.owner)];
      Orders(order, books) && id !in FirstBits(a) && (id == Low16(ip) <==> HasRoom(a)) &&
      (HasRoom(a) ==> DraftSafe(books, saved)) &&
      SaveCmps(saved) + BookCmps(books, order) == PortCmps(a) &&
      SavePuts(saved) + BookPuts(books, order) == PortOps(a, ip, id)
  {
    hide AllocAddress, Net, Low16, HasRoom;
    AddressKeepsId(FirstBits(a), a.cip, a.prefix);
    RoomAbove(a);
    assert FirstBits(a) + {id} != FirstBits(a);
  }

  lemma AttemptWrites(kv: Kv, a: Attempt, ip: nat, id: nat)
    requires a.prefix <= 32 && AllocSwitchPortIp(a) == Some((ip, id))
    requires Succeeds(kv, PortCmps(a), PortOps(a, ip, id))
    ensures id !in FirstBits(a) && (id == Low16(ip) <==> HasRoom(a))
    ensures HasRoom(a) ==> DraftSafe(PortBooks(a, id), [PortOf(a, ip)])
    ensures SavedInto(kv, PortBooks(a, id), [PortOf(a, ip)], Transact(kv, PortCmps(a), PortOps(a, ip, id)))
  {
    AttemptIsSave(kv, a, ip, id);
    hide SaveCmps, BookCmps, SavePuts, BookPuts, Succeeds, HasRoom, AllocSwitchPortIp, SavedInto, DraftSafe;
    SaveWritesAll(kv, PortBooks(a, id), [PortOf(a, ip)], [SwitchBook(a.owner)]);
  }

  /** What an attempt asks of the store and what it writes: the port must be new, and its
      book as it was read first, or missing if it was missing the second time; the port
      gets the computed address and the book the marked id. */
  lemma AttemptMeans(kv: Kv, a: Attempt, ip: nat, id: nat)
    ensures var port, book := SwitchPortKey(a.owner, a.name), SwitchBook(a.owner);
      (Succeeds(kv, PortCmps(a), PortOps(a, ip, id)) <==>
         port !in kv && if book in a.second then book in kv && kv[book] == Ids(FirstBits(a)) else book !in kv) &&
      (Succeeds(kv, PortCmps(a), PortOps(a, ip, id)) ==>
         Transact(kv, PortCmps(a), PortOps(a, ip, id)) == kv[port := Port(ip)][book := Ids(FirstBits(a) + {id})])
  {
    hide FirstBits;
    var cmps, ops := PortCmps(a), PortOps(a, ip, id);
    assert !Clashes(ops[0], ops[1]);
    assert NoOverlap(ops);
    assert cmps[0] in cmps && cmps[1] in cmps && forall c :: c in cmps ==> c == cmps[0] || c == cmps[1];
    assert Holds(kv, cmps[0]) <==> SwitchPortKey(a.owner, a.name) !in kv;
    assert ops[..1] == [ops[0]] && [ops[0]][..0] == [];
    assert Apply(kv, []) == kv;
    assert Apply(kv, [ops[0]]) == ApplyOne(kv, ops[0]);
  }

  /** A successful attempt on an exact store keeps it safe exactly when the bitmap that
      was read has a free id above the network or none below it, or when it revives a
      bitmap that marks the stored address. Otherwise the search wraps and the stored
      address is not the marked one: another port has it, or nothing marks it. */
  lemma AttemptKeepsSafeIff(kv: Kv, a: Attempt, ip: nat, id: nat)
    requires Safe(kv) && Exact(kv) && a.prefix <= 32 && AllocSwitchPortIp(a) == Some((ip, id))
    requires Succeeds(kv, PortCmps(a), PortOps(a, ip, id))
    ensures Safe(Transact(kv, PortCmps(a), PortOps(a, ip, id))) <==>
      FreeInSubnet(FirstBits(a), a.cip, a.prefix) ||
      (forall j: nat :: j < Low16(Net(a.cip, a.prefix)) ==> j in FirstBits(a)) ||
      (SwitchBook(a.owner) !in a.second && Low16(ip) in FirstBits(a))
  {
    assert SwitchKey(a.owner) in a.first;
    assert HasRoom(a) <==> HasRoomFor(FirstBits(a), a.cip, a.prefix);
    AttemptWrites(kv, a, ip, id);
    var kv' := Transact(kv, PortCmps(a), PortOps(a, ip, id));
    hide HasRoom, AllocSwitchPortIp, Succeeds, Transact, PortCmps, PortOps, FirstBits, Low16, DraftSafe, Exact;
    hide FreeInSubnet, Net;
    if HasRoom(a) {
      SaveKeepsSafe(kv, PortBooks(a, id), [PortOf(a, ip)], kv');
    } else if SwitchBook(a.owner) !in a.second && Low16(ip) in FirstBits(a) {
      RevivedPortIsMarked(a, ip, id);
      SaveKeepsSafe(kv, PortBooks(a, id), [PortOf(a, ip)], kv');
    } else {
      StrayPortIsUnsafe(kv, a, ip, id, kv');
    }
  }

  lemma RevivedPortIsMarked(a: Attempt, ip: nat, id: nat)
    requires SwitchBook(a.owner) !in a.second && Low16(ip) in FirstBits(a)
    ensures DraftSafe(PortBooks(a, id), [PortOf(a, ip)])
  {
    hide FirstBits, Low16;
  }

  lemma StrayPortIsUnsafe(kv: Kv, a: Attempt, ip: nat, id: nat, kv': Kv)
    requires Exact(kv) && SavedInto(kv, PortBooks(a, id), [PortOf(a, ip)], kv') && id != Low16(ip)
    requires SwitchBook(a.owner) in a.second || Low16(ip) !in FirstBits(a)
    ensures !Safe(kv')
  {
    hide FirstBits, Low16, Safe;
    var p, port, c := SwitchBook(a.owner), PortOf(a, ip), Low16(ip);
    assert port in [port] && PoolOf(KeyOf(port)) == Some(p) && ClaimOf(kv'[KeyOf(port)]) == c;
    assert IsBook(p) && BookAt(kv', p) == FirstBits(a) + {id};
    assert p in a.second ==> BookAt(kv, p) == FirstBits(a);
    if c in FirstBits(a) {
      var k :| k in kv && PoolOf(k) == Some(p) && ClaimOf(kv[k]) == c;
      assert k !in PortBooks(a, id) && k in kv' && kv'[k] == kv[k];
      SharedClaimIsUnsafe(kv', KeyOf(port), k);
    } else {
      UnmarkedIsUnsafe(kv', KeyOf(port));
    }
  }

  /** A successful attempt keeps the bitmap exact unless it revives ids of a bitmap
      that was deleted between the two looks. */
  lemma AttemptKeepsExactIff(kv: Kv, a: Attempt, ip: nat, id: nat)
    requires Exact(kv) && a.prefix <= 32 && HasRoom(a) && AllocSwitchPortIp(a) == Some((ip, id))
    requires Succeeds(kv, PortCmps(a), PortOps(a, ip, id))
    ensures Exact(Transact(kv, PortCmps(a), PortOps(a, ip, id))) <==>
      SwitchBook(a.owner) in a.second || FirstBits(a) == {}
  {
    AttemptWrites(kv, a, ip, id);
    var p, books, port := SwitchBook(a.owner), PortBooks(a, id), PortOf(a, ip);
    var kv' := Transact(kv, PortCmps(a), PortOps(a, ip, id));
    hide HasRoom, AllocSwitchPortIp, Succeeds, Transact, PortCmps, PortOps, FirstBits, Low16;
    if p in a.second || FirstBits(a) == {} {
      assert port in [port];
      assert Takes(port, p, id);
      SaveKeepsExact(kv, books, [port], kv');
    } else {
      var x :| x in FirstBits(a);
      assert IsBook(p) && BookAt(kv', p) == FirstBits(a) + {id} && BookAt(kv, p) == {};
      NoMembers(kv, p);
      forall k | k in kv' && PoolOf(k) == Some(p) ensures ClaimOf(kv'[k]) == id {
        var i := SavedKey(kv, books, [port], kv', k);
      }
      assert !Claimed(kv', p, x);
    }
  }

  lemma NoMembers(kv: Kv, p: Key)
    requires Exact(kv) && IsBook(p) && BookAt(kv, p) == {}
    ensures forall k :: k in kv ==> PoolOf(k) != Some(p)
  {
    forall k | k in kv ensures PoolOf(k) != Some(p) {
      assert PoolOf(k) == Some(p) ==> Claimed(kv, p, ClaimOf(kv[k]));
    }
  }

  // ----- Delete -----

  /** returnID or returnIP for one device. */
  function DeleteOne(books: Books, d: Device, view: Kv): Books {
    match PoolOf(KeyOf(d))
    case None => books
    case Some(p) => var b := Opened(books, view, p); books[p := b.(cur := b.cur - {Claim(d)})]
  }

  function DeleteAll(devs: seq<Device>, view: Kv): Books {
    if devs == [] then map[] else DeleteOne(DeleteAll(devs[..|devs| - 1], view), devs[|devs| - 1], view)
  }

  /** A recursive delete of a switch or router takes its address bitmap along. */
  function DeleteKeys(recursive: bool, d: Device): seq<Key> {
    [KeyOf(d)] +
    match d
    case Switch(n, _) => if recursive then [SwitchBook(n)] else []
    case Router(n, _) => if recursive then [RouterBook(n)] else []
    case _ => []
  }

  function KeyOps(recursive: bool, keys: seq<Key>): seq<Op> {
    if keys == [] then []
    else
      KeyOps(recursive, keys[..|keys| - 1]) +
      (if recursive then [DelUnder(keys[|keys| - 1])] else []) + [Del(keys[|keys| - 1])]
  }

  function KeyCmps(keys: seq<Key>): seq<Cmp> {
    seq(|keys|, i requires 0 <= i < |keys| => KeyExists(keys[i]))
  }

  function AllDeleteKeys(recursive: bool, devs: seq<Device>): seq<Key> {
    if devs == [] then []
    else AllDeleteKeys(recursive, devs[..|devs| - 1]) + DeleteKeys(recursive, devs[|devs| - 1])
  }

  function ReturnCmps(books: Books, order: seq<Key>): seq<Cmp>
    requires forall k :: k in order ==> k in books
  {
    seq(|order|, i requires 0 <= i < |order| => ValueIs(order[i], books[order[i]].was))
  }

  function ReturnOp(p: Key, b: Book): seq<Op> {
    if b.cur == {} then [Del(p)] else if b.was == Some(b.cur) then [] else [Put(p, Ids(b.cur))]
  }

  function ReturnOps(books: Books, order: seq<Key>): seq<Op>
    requires forall k :: k in order ==> k in books
  {
    if order == [] then []
    else ReturnOps(books, order[..|order| - 1]) + ReturnOp(order[|order| - 1], books[order[|order| - 1]])
  }

  function DeleteCmps(recursive: bool, devs: seq<Device>, books: Books, order: seq<Key>): seq<Cmp>
    requires forall k :: k in order ==> k in books
  {
    KeyCmps(AllDeleteKeys(recursive, devs)) + ReturnCmps(books, order)
  }

  function DeleteOps(recursive: bool, devs: seq<Device>, books: Books, order: seq<Key>): seq<Op>
    requires forall k :: k in order ==> k in books
  {
    KeyOps(recursive, AllDeleteKeys(recursive, devs)) + ReturnOps(books, order)
  }

  predicate Covers(recursive: bool, key: Key, k: Key) {
    k == key || (recursive && Under(key, k))
  }

  /** A key that Delete removes: of a device, of its bitmap, or below one of them. */
  ghost predicate Removes(recursive: bool, devs: seq<Device>, k: Key) {
    exists d, key :: d in devs && key in DeleteKeys(recursive, d) && Covers(recursive, key, k)
  }

  /** Every device given to Delete still is what is stored. */
  ghost predicate Current(kv: Kv, devs: seq<Device>) {
    forall d :: d in devs && KeyOf(d) in kv ==> kv[KeyOf(d)] == ValueOf(d)
  }

  ghost predicate Returned(books: Books, devs: seq<Device>) {
    (forall p :: p in books ==> IsBook(p)) &&
    (forall d :: d in devs && PoolOf(KeyOf(d)).Some? ==> PoolOf(KeyOf(d)).value in books) &&
    (forall p, x :: p in books ==>
       (x in books[p].cur <==> x in Bits(books[p].was) && forall d :: d in devs ==> !Takes(d, p, x)))
  }

  lemma ReturnsOneMore(books: Books, devs: seq<Device>, d: Device, view: Kv)
    requires Returned(books, devs)
    ensures Returned(DeleteOne(books, d, view), devs + [d])
  {
    assert forall e :: e in devs + [d] <==> e in devs || e == d;
    if PoolOf(KeyOf(d)).Some? {
      var p := PoolOf(KeyOf(d)).value;
      var b := Opened(books, view, p);
      var books' := DeleteOne(books, d, view);
      assert p !in books ==> forall e :: e in devs ==> PoolOf(KeyOf(e)) != Some(p);
      forall x ensures x in books'[p].cur <==> x in Bits(b.was) && forall e :: e in devs + [d] ==> !Takes(e, p, x) {
        assert x in b.cur <==> x in Bits(b.was) && forall e :: e in devs ==> !Takes(e, p, x);
        assert Takes(d, p, x) <==> x == Claim(d);
      }
    }
    hide KeyOf, Claim;
  }

  lemma {:induction false} DeleteReturns(devs: seq<Device>, view: Kv)
    ensures Returned(DeleteAll(devs, view), devs)
  {
    if devs != [] {
      var init, last := devs[..|devs| - 1], devs[|devs| - 1];
      DeleteReturns(init, view);
      ReturnsOneMore(DeleteAll(init, view), init, last, view);
      assert init + [last] == devs;
    }
  }

  lemma {:induction false} KeyOpsIn(recursive: bool, keys: seq<Key>, o: Op)
    ensures o in KeyOps(recursive, keys) <==>
      (o.Del? && o.key in keys) || (recursive && o.DelUnder? && o.key in keys)
  {
    if keys != [] {
      KeyOpsIn(recursive, keys[..|keys| - 1], o);
      assert forall k :: k in keys <==> k in keys[..|keys| - 1] || k == keys[|keys| - 1];
    }
  }

  lemma {:induction false} ReturnOpsIn(books: Books, order: seq<Key>, o: Op)
    requires forall k :: k in order ==> k in books
    ensures o in ReturnOps(books, order) <==>
      !o.DelUnder? && o.key in order && o in ReturnOp(o.key, books[o.key])
  {
    if order != [] {
      ReturnOpsIn(books, order[..|order| - 1], o);
      assert forall k :: k in order <==> k in order[..|order| - 1] || k == order[|order| - 1];
    }
  }

  lemma {:induction false} AllKeysIn(recursive: bool, devs: seq<Device>, k: Key)
    ensures k in AllDeleteKeys(recursive, devs) <==> exists d :: d in devs && k in DeleteKeys(recursive, d)
  {
    hide DeleteKeys;
    if devs != [] {
      AllKeysIn(recursive, devs[..|devs| - 1], k);
      assert forall d :: d in devs <==> d in devs[..|devs| - 1] || d == devs[|devs| - 1];
    }
  }

  ghost predicate DeleteSucceeds(kv: Kv, recursive: bool, devs: seq<Device>, books: Books, order: seq<Key>)
    requires Orders(order, books)
  {
    Succeeds(kv, DeleteCmps(recursive, devs, books, order), DeleteOps(recursive, devs, books, order))
  }

  ghost function DeleteTxn(kv: Kv, recursive: bool, devs: seq<Device>, books: Books, order: seq<Key>): Kv
    requires Orders(order, books)
  {
    Transact(kv, DeleteCmps(recursive, devs, books, order), DeleteOps(recursive, devs, books, order))
  }

  /** The store after a successful Delete. */
  ghost predicate DeletedFrom(kv: Kv, recursive: bool, devs: seq<Device>, books: Books, kv': Kv) {
    (forall d :: d in devs ==> KeyOf(d) in kv) &&
    (forall p :: p in books ==> ReadIds(kv, p) == books[p].was) &&
    (forall k :: Removes(recursive, devs, k) ==> k !in kv') &&
    (forall p :: p in books && !Removes(recursive, devs, p) ==>
      BookAt(kv', p) == books[p].cur && (p in kv' <==> books[p].cur != {}) && (p in kv' ==> kv'[p].Ids?)) &&
    (forall k :: k !in books && !Removes(recursive, devs, k) ==>
       (k in kv' <==> k in kv) && (k in kv ==> kv'[k] == kv[k]))
  }

  lemma KeyOpsDelete(recursive: bool, keys: seq<Key>, k: Key)
    ensures (exists o :: o in KeyOps(recursive, keys) && Deletes(o, k)) <==>
      exists key :: key in keys && Covers(recursive, key, k)
  {
    forall o ensures o in KeyOps(recursive, keys) <==>
      (o.Del? && o.key in keys) || (recursive && o.DelUnder? && o.key in keys)
    {
      KeyOpsIn(recursive, keys, o);
    }
    hide KeyOps, Under;
    if key :| key in keys && Covers(recursive, key, k) {
      assert Deletes(if k == key then Del(key) else DelUnder(key), k);
    }
  }

  lemma RemovedByOps(recursive: bool, devs: seq<Device>, k: Key)
    ensures Removes(recursive, devs, k) <==>
      exists o :: o in KeyOps(recursive, AllDeleteKeys(recursive, devs)) && Deletes(o, k)
  {
    var keys := AllDeleteKeys(recursive, devs);
    hide KeyOps, AllDeleteKeys, DeleteKeys, Under, Deletes;
    KeyOpsDelete(recursive, keys, k);
    forall key ensures key in keys <==> exists d :: d in devs && key in DeleteKeys(recursive, d) {
      AllKeysIn(recursive, devs, key);
    }
    if Removes(recursive, devs, k) {
      var d, key :| d in devs && key in DeleteKeys(recursive, d) && Covers(recursive, key, k);
      assert key in keys;
    }
    if key :| key in keys && Covers(recursive, key, k) {
      var d :| d in devs && key in DeleteKeys(recursive, d);
    }
  }

  lemma DeleteOpsIn(recursive: bool, devs: seq<Device>, books: Books, order: seq<Key>)
    requires Orders(order, books)
    ensures forall o :: o in DeleteOps(recursive, devs, books, order) <==>
      o in KeyOps(recursive, AllDeleteKeys(recursive, devs)) ||
      (!o.DelUnder? && o.key in books && o in ReturnOp(o.key, books[o.key]))
    ensures forall o :: o in KeyOps(recursive, AllDeleteKeys(recursive, devs)) ==> !o.Put?
  {
    forall o
      ensures o in ReturnOps(books, order) <==> !o.DelUnder? && o.key in order && o in ReturnOp(o.key, books[o.key])
    {
      ReturnOpsIn(books, order, o);
    }
    var keys := AllDeleteKeys(recursive, devs);
    forall o ensures o in KeyOps(recursive, keys) <==>
      (o.Del? && o.key in keys) || (recursive && o.DelUnder? && o.key in keys)
    {
      KeyOpsIn(recursive, keys, o);
    }
    hide KeyOps, ReturnOps, AllDeleteKeys, ReturnOp;
  }

  lemma DeleteRemoves(kv: Kv, recursive: bool, devs: seq<Device>, books: Books, order: seq<Key>, k: Key)
    requires Orders(order, books) && DeleteSucceeds(kv, recursive, devs, books, order)
    requires Removes(recursive, devs, k)
    ensures k !in DeleteTxn(kv, recursive, devs, books, order)
  {
    RemovedByOps(recursive, devs, k);
    ApplyAt(kv, DeleteOps(recursive, devs, books, order), k);
    DeleteOpsIn(recursive, devs, books, order);
    hide DeleteOps, DeleteCmps, KeyOps, AllDeleteKeys, Apply, NoOverlap, Removes, ReturnOp;
  }

  lemma DeleteReturnsBook(kv: Kv, recursive: bool, devs: seq<Device>, books: Books, order: seq<Key>, p: Key)
    requires Orders(order, books) && DeleteSucceeds(kv, recursive, devs, books, order) && p in books
    ensures ReadIds(kv, p) == books[p].was
    ensures var kv' := DeleteTxn(kv, recursive, devs, books, order);
      !Removes(recursive, devs, p) ==>
        BookAt(kv', p) == books[p].cur && (p in kv' <==> books[p].cur != {}) && (p in kv' ==> kv'[p].Ids?)
  {
    hide DeleteOps, DeleteCmps, KeyOps, AllDeleteKeys, Apply, NoOverlap, Removes, KeyOf, Under;
    ReturnCmpHolds(kv, recursive, devs, books, order, p);
    RemovedByOps(recursive, devs, p);
    ApplyAt(kv, DeleteOps(recursive, devs, books, order), p);
    DeleteOpsIn(recursive, devs, books, order);
    if books[p].cur == {} {
      assert Del(p) in DeleteOps(recursive, devs, books, order);
    } else if books[p].was != Some(books[p].cur) {
      assert Put(p, Ids(books[p].cur)) in DeleteOps(recursive, devs, books, order);
    }
  }

  lemma ReturnCmpHolds(kv: Kv, recursive: bool, devs: seq<Device>, books: Books, order: seq<Key>, p: Key)
    requires Orders(order, books) && DeleteSucceeds(kv, recursive, devs, books, order) && p in books
    ensures books[p].was.Some? && p in kv && kv[p] == Ids(books[p].was.value)
  {
    hide AllDeleteKeys, DeleteOps, KeyCmps;
    ReturnCmpIn(recursive, devs, books, order, p);
  }

  lemma ReturnCmpIn(recursive: bool, devs: seq<Device>, books: Books, order: seq<Key>, p: Key)
    requires Orders(order, books) && p in books
    ensures ValueIs(p, books[p].was) in DeleteCmps(recursive, devs, books, order)
  {
    hide AllDeleteKeys, KeyCmps;
    var i :| 0 <= i < |order| && order[i] == p;
    assert DeleteCmps(recursive, devs, books, order)[|KeyCmps(AllDeleteKeys(recursive, devs))| + i] ==
      ValueIs(p, books[p].was);
  }

  lemma DeleteKeepsOther(kv: Kv, recursive: bool, devs: seq<Device>, books: Books, order: seq<Key>, k: Key)
    requires Orders(order, books) && DeleteSucceeds(kv, recursive, devs, books, order)
    requires k !in books && !Removes(recursive, devs, k)
    ensures var kv' := DeleteTxn(kv, recursive, devs, books, order);
      (k in kv' <==> k in kv) && (k in kv ==> kv'[k] == kv[k])
  {
    RemovedByOps(recursive, devs, k);
    ApplyAt(kv, DeleteOps(recursive, devs, books, order), k);
    DeleteOpsIn(recursive, devs, books, order);
    hide DeleteOps, DeleteCmps, KeyOps, AllDeleteKeys, Apply, NoOverlap, Removes;
  }

  lemma DeletedKeyExists(kv: Kv, recursive: bool, devs: seq<Device>, books: Books, order: seq<Key>, d: Device)
    requires Orders(order, books) && DeleteSucceeds(kv, recursive, devs, books, order) && d in devs
    ensures KeyOf(d) in kv
  {
    var keys := AllDeleteKeys(recursive, devs);
    assert KeyOf(d) == DeleteKeys(recursive, d)[0];
    AllKeysIn(recursive, devs, KeyOf(d));
    var i :| 0 <= i < |keys| && keys[i] == KeyOf(d);
    assert KeyCmps(keys)[i] == KeyExists(KeyOf(d));
    assert DeleteCmps(recursive, devs, books, order)[i] == KeyExists(KeyOf(d));
    hide AllDeleteKeys, KeyOf, DeleteKeys, DeleteOps, KeyCmps;
    assert KeyExists(KeyOf(d)) in DeleteCmps(recursive, devs, books, order);
  }

  lemma DeleteDeletesAll(kv: Kv, recursive: bool, devs: seq<Device>, books: Books, order: seq<Key>)
    requires Orders(order, books) && DeleteSucceeds(kv, recursive, devs, books, order)
    ensures DeletedFrom(kv, recursive, devs, books, DeleteTxn(kv, recursive, devs, books, order))
  {
    hide Removes, DeleteTxn, DeleteSucceeds, KeyOf, ReadIds, BookAt;
    var kv' := DeleteTxn(kv, recursive, devs, books, order);
    forall d | d in devs ensures KeyOf(d) in kv {
      DeletedKeyExists(kv, recursive, devs, books, order, d);
    }
    forall k | Removes(recursive, devs, k) ensures k !in kv' {
      DeleteRemoves(kv, recursive, devs, books, order, k);
    }
    forall p | p in books
      ensures ReadIds(kv, p) == books[p].was
      ensures !Removes(recursive, devs, p) ==>
        BookAt(kv', p) == books[p].cur && (p in kv' <==> books[p].cur != {}) && (p in kv' ==> kv'[p].Ids?)
    {
      DeleteReturnsBook(kv, recursive, devs, books, order, p);
    }
    forall k | k !in books && !Removes(recursive, devs, k)
      ensures (k in kv' <==> k in kv) && (k in kv ==> kv'[k] == kv[k])
    {
      DeleteKeepsOther(kv, recursive, devs, books, order, k);
    }
  }

  /** A delete that is not recursive removes the devices themselves and nothing else. */
  lemma PlainDeleteRemoves(devs: seq<Device>, k: Key)
    ensures Removes(false, devs, k) <==> exists d :: d in devs && KeyOf(d) == k
  {
    if d :| d in devs && KeyOf(d) == k {
      assert k in DeleteKeys(false, d) && Covers(false, k, k);
    }
  }

  /** A recursive one also removes the address bitmaps of switches and routers, and what is
      stored below any of them. */
  lemma DeepDeleteRemoves(devs: seq<Device>, k: Key)
    ensures Removes(true, devs, k) <==>
      exists d :: d in devs && (k == KeyOf(d) || Under(KeyOf(d), k) || ((d.Switch? || d.Router?) && k == OwnBook(d)))
  {
    hide Under;
    forall d | d in devs
      ensures (exists key :: key in DeleteKeys(true, d) && Covers(true, key, k)) <==>
        k == KeyOf(d) || Under(KeyOf(d), k) || ((d.Switch? || d.Router?) && k == OwnBook(d))
    {
      OneDeepDelete(d, k);
    }
  }

  lemma OneDeepDelete(d: Device, k: Key)
    ensures (exists key :: key in DeleteKeys(true, d) && Covers(true, key, k)) <==>
      k == KeyOf(d) || Under(KeyOf(d), k) || ((d.Switch? || d.Router?) && k == OwnBook(d))
  {
    var keys := DeleteKeys(true, d);
    assert KeyOf(d) == keys[0];
    if d.Switch? || d.Router? { assert OwnBook(d) == keys[1]; }
    assert forall key :: key in keys <==> key == keys[0] || (|keys| == 2 && key == keys[1]);
    assert Covers(true, keys[0], k) <==> k == KeyOf(d) || Under(KeyOf(d), k);
    assert |keys| == 2 ==> (Covers(true, keys[1], k) <==> k == keys[1]);
  }

  /** When the comparisons of Delete hold: everything named is stored, and every bitmap that
      gets ids back is as it was read. */
  lemma DeleteComparesIff(kv: Kv, recursive: bool, devs: seq<Device>, books: Books, order: seq<Key>)
    requires Orders(order, books)
    ensures (forall c :: c in DeleteCmps(recursive, devs, books, order) ==> Holds(kv, c)) <==>
      (forall d :: d in devs ==> KeyOf(d) in kv && (recursive && (d.Switch? || d.Router?) ==> OwnBook(d) in kv)) &&
      forall p :: p in books ==> books[p].was.Some? && p in kv && kv[p] == Ids(books[p].was.value)
  {
    KeyComparesIff(kv, AllDeleteKeys(recursive, devs));
    ReturnComparesIff(kv, books, order);
    NamedKeysIff(kv, recursive, devs);
    hide KeyOf, OwnBook, KeyCmps, ReturnCmps, AllDeleteKeys, Holds;
    assert forall c :: c in DeleteCmps(recursive, devs, books, order) <==>
      c in KeyCmps(AllDeleteKeys(recursive, devs)) || c in ReturnCmps(books, order);
  }

  lemma KeyComparesIff(kv: Kv, keys: seq<Key>)
    ensures (forall c :: c in KeyCmps(keys) ==> Holds(kv, c)) <==> forall k :: k in keys ==> k in kv
  {
    forall k | k in keys ensures KeyExists(k) in KeyCmps(keys) {
      var i :| 0 <= i < |keys| && keys[i] == k;
      assert KeyCmps(keys)[i] == KeyExists(k);
    }
  }

  lemma ReturnComparesIff(kv: Kv, books: Books, order: seq<Key>)
    requires Orders(order, books)
    ensures (forall c :: c in ReturnCmps(books, order) ==> Holds(kv, c)) <==>
      forall p :: p in books ==> books[p].was.Some? && p in kv && kv[p] == Ids(books[p].was.value)
  {
    forall p | p in books ensures ValueIs(p, books[p].was) in ReturnCmps(books, order) {
      var i :| 0 <= i < |order| && order[i] == p;
      assert ReturnCmps(books, order)[i] == ValueIs(p, books[p].was);
    }
  }

  lemma NamedKeysIff(kv: Kv, recursive: bool, devs: seq<Device>)
    ensures (forall k :: k in AllDeleteKeys(recursive, devs) ==> k in kv) <==>
      forall d :: d in devs ==> KeyOf(d) in kv && (recursive && (d.Switch? || d.Router?) ==> OwnBook(d) in kv)
  {
    forall k ensures k in AllDeleteKeys(recursive, devs) <==> exists d :: d in devs && k in DeleteKeys(recursive, d) {
      AllKeysIn(recursive, devs, k);
    }
    hide AllDeleteKeys;
    forall d | d in devs
      ensures (forall k :: k in DeleteKeys(recursive, d) ==> k in kv) <==>
        KeyOf(d) in kv && (recursive && (d.Switch? || d.Router?) ==> OwnBook(d) in kv)
    {
      var keys := DeleteKeys(recursive, d);
      assert keys[0] == KeyOf(d) && (|keys| == 2 ==> keys[1] == OwnBook(d));
    }
  }

  function OwnBook(d: Device): Key
    requires d.Switch? || d.Router?
  {
    if d.Switch? then SwitchBook(d.name) else RouterBook(d.name)
  }

  /** The key itself, everything whose text continues it with "/", and the bitmap. */
  ghost predicate InSubtree(d: Device, k: Key)
    requires d.Switch? || d.Router?
  {
    Path(k) == Path(KeyOf(d)) || Path(KeyOf(d)) + "/" <= Path(k) || k == OwnBook(d)
  }

  lemma RemovesKeys(d: Device, k: Key)
    requires d.Switch? || d.Router?
    ensures Removes(true, [d], k) <==> k == KeyOf(d) || Under(KeyOf(d), k) || k == OwnBook(d)
  {
    assert DeleteKeys(true, d) == [KeyOf(d), OwnBook(d)];
    assert forall key :: key in DeleteKeys(true, d) <==> key == KeyOf(d) || key == OwnBook(d);
    assert Covers(true, OwnBook(d), k) <==> k == OwnBook(d);
    hide DeleteKeys, KeyOf, OwnBook, Under;
    assert d in [d];
    assert Covers(true, KeyOf(d), k) <==> k == KeyOf(d) || Under(KeyOf(d), k);
  }

  lemma RemovesSubtree(d: Device, k: Key)
    requires (d.Switch? || d.Router?) && Named(KeyOf(d)) && Named(k)
    ensures Removes(true, [d], k) <==> InSubtree(d, k)
  {
    hide Path, Named, Removes, KeyOf, OwnBook, Under;
    RemovesKeys(d, k);
    PrefixDeletesChildren(KeyOf(d), k);
    if Path(k) == Path(KeyOf(d)) { PathsDiffer(k, KeyOf(d)); }
  }

  /** A recursive delete of a switch or router removes exactly its key, what is stored
      below it, and its address bitmap; name siblings such as "sw1" beside "sw10" stay. */
  lemma RecursiveDeleteIsExact(kv: Kv, d: Device, view: Kv, order: seq<Key>, k: Key)
    requires (d.Switch? || d.Router?) && Named(KeyOf(d)) && Named(k) && k != DeviceIds
    requires var books := DeleteAll([d], view); Orders(order, books) && DeleteSucceeds(kv, true, [d], books, order)
    ensures var kv' := DeleteTxn(kv, true, [d], DeleteAll([d], view), order);
      if InSubtree(d, k) then k !in kv' else (k in kv' <==> k in kv) && (k in kv ==> kv'[k] == kv[k])
  {
    var books := DeleteAll([d], view);
    assert [d][..0] == [];
    assert DeleteAll([], view) == map[];
    assert k !in books;
    DeleteDeletesAll(kv, true, [d], books, order);
    RemovesSubtree(d, k);
    hide DeleteAll, DeleteTxn, DeleteSucceeds, InSubtree, Removes, Path, Named;
  }

  /** A device of a bitmap disappears only if it was named itself, or together with
      the bitmap of its owner. */
  lemma RemovedMember(recursive: bool, devs: seq<Device>, k: Key)
    requires PoolOf(k).Some? && !Removes(recursive, devs, PoolOf(k).value) && forall d :: d in devs ==> KeyOf(d) != k
    ensures !Removes(recursive, devs, k)
  {
    forall d, key | d in devs && key in DeleteKeys(recursive, d) ensures !Covers(recursive, key, k) {
      assert KeyOf(d) in DeleteKeys(recursive, d) && KeyOf(d) != k;
      assert !Covers(recursive, key, PoolOf(k).value);
      if recursive && Under(key, k) {
        assert PoolOf(k).value in DeleteKeys(recursive, d);
        assert Covers(recursive, PoolOf(k).value, PoolOf(k).value);
      }
    }
  }

  /** A bitmap that goes with its owner takes all its ports along. */
  lemma RemovedBook(recursive: bool, devs: seq<Device>, p: Key, k: Key)
    requires Removes(recursive, devs, p) && IsBook(p) && PoolOf(k) == Some(p)
    ensures Removes(recursive, devs, k)
  {
    var d, key :| d in devs && key in DeleteKeys(recursive, d) && Covers(recursive, key, p);
    assert KeyOf(d) in DeleteKeys(recursive, d);
    assert recursive && Covers(recursive, KeyOf(d), k);
  }

  lemma DeletedSurvivor(kv: Kv, recursive: bool, devs: seq<Device>, books: Books, kv': Kv, k: Key)
    requires DeletedFrom(kv, recursive, devs, books, kv') && Returned(books, devs) && PoolOf(k).Some? && k in kv'
    ensures k in kv && kv'[k] == kv[k] && !Removes(recursive, devs, k) && !Removes(recursive, devs, PoolOf(k).value)
    ensures forall d :: d in devs ==> KeyOf(d) != k
  {
    if Removes(recursive, devs, PoolOf(k).value) {
      RemovedBook(recursive, devs, PoolOf(k).value, k);
    }
    forall d | d in devs ensures KeyOf(d) != k {
      assert KeyOf(d) in DeleteKeys(recursive, d) && Covers(recursive, KeyOf(d), KeyOf(d));
    }
  }

  /** The surviving bits of a bitmap that was not removed. */
  lemma DeletedBook(kv: Kv, recursive: bool, devs: seq<Device>, books: Books, kv': Kv, p: Key, x: nat)
    requires DeletedFrom(kv, recursive, devs, books, kv') && Returned(books, devs) && IsBook(p)
    ensures if Removes(recursive, devs, p) then BookAt(kv', p) == {}
      else x in BookAt(kv', p) <==> x in BookAt(kv, p) && forall d :: d in devs ==> !Takes(d, p, x)
  {
    hide Removes, KeyOf, Claim;
    if p !in books {
      assert forall d :: d in devs ==> !Takes(d, p, x);
    }
  }

  /** A delete of a missing device fails. */
  predicate AllStored(kv: Kv, devs: seq<Device>) {
    forall d :: d in devs ==> KeyOf(d) in kv
  }

  /** No claim of a device that stays is given back. */
  ghost predicate FreesOnlyRemoved(kv: Kv, recursive: bool, devs: seq<Device>) {
    forall k :: k in kv && PoolOf(k).Some? && Frees(devs, PoolOf(k).value, ClaimOf(kv[k])) ==>
      Removes(recursive, devs, k)
  }

  /** Every device that goes without its bitmap has its claim given back. */
  ghost predicate FreesAllRemoved(kv: Kv, recursive: bool, devs: seq<Device>) {
    forall k :: k in kv && PoolOf(k).Some? && Removes(recursive, devs, k) ==>
      Removes(recursive, devs, PoolOf(k).value) || Frees(devs, PoolOf(k).value, ClaimOf(kv[k]))
  }

  ghost predicate Frees(devs: seq<Device>, p: Key, x: nat) {
    exists d :: d in devs && Takes(d, p, x)
  }

  /** Records that still are what is stored give back exactly the right claims. */
  lemma CurrentFrees(kv: Kv, recursive: bool, devs: seq<Device>)
    requires Safe(kv) && Current(kv, devs) && AllStored(kv, devs)
    ensures FreesOnlyRemoved(kv, recursive, devs) && FreesAllRemoved(kv, recursive, devs)
  {
    hide Removes, KeyOf, Claim, BookAt;
    forall k | k in kv && PoolOf(k).Some? && Frees(devs, PoolOf(k).value, ClaimOf(kv[k]))
      ensures Removes(recursive, devs, k)
    {
      var d :| d in devs && Takes(d, PoolOf(k).value, ClaimOf(kv[k]));
      ClaimIsStored(kv, d);
      NamedIsRemoved(recursive, devs, d);
      assert KeyOf(d) == k;
    }
    forall k | k in kv && PoolOf(k).Some? && Removes(recursive, devs, k) && !Removes(recursive, devs, PoolOf(k).value)
      ensures Frees(devs, PoolOf(k).value, ClaimOf(kv[k]))
    {
      var d := NamedMember(recursive, devs, k);
      ClaimIsStored(kv, d);
      assert Takes(d, PoolOf(k).value, ClaimOf(kv[k]));
    }
  }

  lemma NamedIsRemoved(recursive: bool, devs: seq<Device>, d: Device)
    requires d in devs
    ensures Removes(recursive, devs, KeyOf(d))
  {
    assert KeyOf(d) in DeleteKeys(recursive, d) && Covers(recursive, KeyOf(d), KeyOf(d));
  }

  lemma NamedMember(recursive: bool, devs: seq<Device>, k: Key) returns (d: Device)
    requires PoolOf(k).Some? && Removes(recursive, devs, k) && !Removes(recursive, devs, PoolOf(k).value)
    ensures d in devs && KeyOf(d) == k
  {
    hide Removes, KeyOf;
    if forall d :: d in devs ==> KeyOf(d) != k {
      RemovedMember(recursive, devs, k);
      assert false;
    }
    d :| d in devs && KeyOf(d) == k;
  }

  lemma ClaimIsStored(kv: Kv, d: Device)
    requires KeyOf(d) in kv && kv[KeyOf(d)] == ValueOf(d)
    ensures ClaimOf(kv[KeyOf(d)]) == Claim(d)
  {
  }

  lemma SurvivorStays(kv: Kv, recursive: bool, devs: seq<Device>, books: Books, kv': Kv, k: Key)
    requires DeletedFrom(kv, recursive, devs, books, kv') && Returned(books, devs)
    requires k in kv && PoolOf(k).Some? && !Removes(recursive, devs, k)
    ensures k in kv' && kv'[k] == kv[k]
  {
    hide Removes, KeyOf, Claim, BookAt;
    assert !IsBook(k);
  }

  /** A surviving device keeps its mark unless its claim was given back. */
  lemma SurvivorMark(kv: Kv, recursive: bool, devs: seq<Device>, books: Books, kv': Kv, k: Key)
    requires Safe(kv) && DeletedFrom(kv, recursive, devs, books, kv') && Returned(books, devs)
    requires k in kv && PoolOf(k).Some? && !Removes(recursive, devs, k)
    ensures var p, x := PoolOf(k).value, ClaimOf(kv[k]);
      !Removes(recursive, devs, p) && (x in BookAt(kv', p) <==> !Frees(devs, p, x))
  {
    hide Removes, KeyOf, Claim, BookAt, DeletedFrom, Returned, Takes;
    var p, x := PoolOf(k).value, ClaimOf(kv[k]);
    if Removes(recursive, devs, p) { RemovedBook(recursive, devs, p, k); }
    DeletedBook(kv, recursive, devs, books, kv', p, x);
  }

  /** Safety of what a Delete leaves, as a fact of the store before it. */
  lemma DeleteKeepsSafe(kv: Kv, recursive: bool, devs: seq<Device>, books: Books, kv': Kv)
    requires Safe(kv) && DeletedFrom(kv, recursive, devs, books, kv') && Returned(books, devs)
    ensures Safe(kv') <==> FreesOnlyRemoved(kv, recursive, devs)
  {
    hide Removes, KeyOf, Claim, BookAt, Frees, Returned;
    if FreesOnlyRemoved(kv, recursive, devs) {
      forall k | k in kv' && PoolOf(k).Some?
        ensures k in kv && kv'[k] == kv[k]
        ensures ClaimOf(kv'[k]) in BookAt(kv', PoolOf(k).value)
      {
        DeletedSurvivor(kv, recursive, devs, books, kv', k);
        SurvivorMark(kv, recursive, devs, books, kv', k);
      }
    } else {
      var k :| k in kv && PoolOf(k).Some? && Frees(devs, PoolOf(k).value, ClaimOf(kv[k])) &&
        !Removes(recursive, devs, k);
      SurvivorStays(kv, recursive, devs, books, kv', k);
      SurvivorMark(kv, recursive, devs, books, kv', k);
    }
  }

  /** A successful Delete keeps the store safe if and only if no claim that it gives
      back is that of a device that stays. */
  lemma DeleteKeepsSafeIff(kv: Kv, recursive: bool, devs: seq<Device>, view: Kv, order: seq<Key>)
    requires Safe(kv)
    requires Orders(order, DeleteAll(devs, view)) && DeleteSucceeds(kv, recursive, devs, DeleteAll(devs, view), order)
    ensures Safe(DeleteTxn(kv, recursive, devs, DeleteAll(devs, view), order)) <==>
      forall d, k :: d in devs && k in kv && PoolOf(k).Some? && Takes(d, PoolOf(k).value, ClaimOf(kv[k])) ==>
        Removes(recursive, devs, k)
  {
    var books := DeleteAll(devs, view);
    hide Safe, DeleteAll, DeleteTxn, DeleteSucceeds, Returned, Removes, Takes, Orders;
    DeleteReturns(devs, view);
    DeleteDeletesAll(kv, recursive, devs, books, order);
    DeleteKeepsSafe(kv, recursive, devs, books, DeleteTxn(kv, recursive, devs, books, order));
  }

  /** A surviving bit is the claim of a surviving device. */
  lemma SurvivingBitIsClaimed(
    kv: Kv, recursive: bool, devs: seq<Device>, books: Books, kv': Kv, p: Key, x: nat)
    requires Exact(kv) && FreesAllRemoved(kv, recursive, devs) && IsBook(p) && x in BookAt(kv', p)
    requires DeletedFrom(kv, recursive, devs, books, kv') && Returned(books, devs)
    ensures Claimed(kv', p, x)
  {
    DeletedBook(kv, recursive, devs, books, kv', p, x);
    assert x in BookAt(kv, p) && !Removes(recursive, devs, p);
    hide Removes, KeyOf, Claim, BookAt, Returned, Exact, Takes;
    ExactAt(kv, p, x);
    var k :| k in kv && PoolOf(k) == Some(p) && ClaimOf(kv[k]) == x;
    assert !Frees(devs, p, x);
    SurvivorStays(kv, recursive, devs, books, kv', k);
  }

  /** A device that goes without its bitmap and its claim leaves a bit that nobody claims. */
  lemma UnclaimedBit(kv: Kv, recursive: bool, devs: seq<Device>, books: Books, kv': Kv, k: Key)
    requires Safe(kv) && DeletedFrom(kv, recursive, devs, books, kv') && Returned(books, devs)
    requires k in kv && PoolOf(k).Some? && Removes(recursive, devs, k)
    requires !Removes(recursive, devs, PoolOf(k).value) && !Frees(devs, PoolOf(k).value, ClaimOf(kv[k]))
    ensures !Exact(kv')
  {
    hide Removes, KeyOf, Claim, BookAt, Takes;
    var p, x := PoolOf(k).value, ClaimOf(kv[k]);
    DeletedBook(kv, recursive, devs, books, kv', p, x);
    assert IsBook(p) && x in BookAt(kv', p);
    forall l | l in kv' && PoolOf(l) == Some(p) ensures ClaimOf(kv'[l]) != x {
      DeletedSurvivor(kv, recursive, devs, books, kv', l);
    }
    assert !Claimed(kv', p, x);
  }

  lemma DeleteKeepsExact(kv: Kv, recursive: bool, devs: seq<Device>, books: Books, kv': Kv)
    requires Safe(kv) && Exact(kv) && FreesOnlyRemoved(kv, recursive, devs)
    requires DeletedFrom(kv, recursive, devs, books, kv') && Returned(books, devs)
    ensures Exact(kv') <==> FreesAllRemoved(kv, recursive, devs)
  {
    hide Removes, KeyOf, Claim, BookAt, DeletedFrom, Returned, IsBook, Frees, FreesOnlyRemoved;
    if FreesAllRemoved(kv, recursive, devs) {
      DeleteKeepsSafe(kv, recursive, devs, books, kv');
      forall p, x | IsBook(p) ensures x in BookAt(kv', p) <==> Claimed(kv', p, x) {
        if x in BookAt(kv', p) {
          SurvivingBitIsClaimed(kv, recursive, devs, books, kv', p, x);
        }
      }
    } else {
      var k :| k in kv && PoolOf(k).Some? && Removes(recursive, devs, k) &&
        !Removes(recursive, devs, PoolOf(k).value) && !Frees(devs, PoolOf(k).value, ClaimOf(kv[k]));
      UnclaimedBit(kv, recursive, devs, books, kv', k);
    }
  }

  /** A device that stays and loses its mark. */
  lemma LostMark(kv: Kv, recursive: bool, devs: seq<Device>, books: Books, kv': Kv, k: Key)
    requires Safe(kv) && DeletedFrom(kv, recursive, devs, books, kv') && Returned(books, devs)
    requires k in kv && PoolOf(k).Some? && !Removes(recursive, devs, k)
    requires Frees(devs, PoolOf(k).value, ClaimOf(kv[k]))
    ensures !Exact(kv')
  {
    hide Removes, KeyOf, BookAt, DeletedFrom, Returned, Frees;
    SurvivorStays(kv, recursive, devs, books, kv', k);
    SurvivorMark(kv, recursive, devs, books, kv', k);
    assert Claimed(kv', PoolOf(k).value, ClaimOf(kv[k]));
    assert IsBook(PoolOf(k).value);
  }

  /** A successful Delete on an exact store keeps every bitmap exact if and only if it gives
      back the claim of no device that stays and of each one that goes without its bitmap. */
  lemma DeleteKeepsExactIff(kv: Kv, recursive: bool, devs: seq<Device>, view: Kv, order: seq<Key>)
    requires Safe(kv) && Exact(kv)
    requires Orders(order, DeleteAll(devs, view)) && DeleteSucceeds(kv, recursive, devs, DeleteAll(devs, view), order)
    ensures Exact(DeleteTxn(kv, recursive, devs, DeleteAll(devs, view), order)) <==>
      FreesOnlyRemoved(kv, recursive, devs) && FreesAllRemoved(kv, recursive, devs)
  {
    var books := DeleteAll(devs, view);
    hide Safe, Exact, DeleteAll, DeleteTxn, DeleteSucceeds, Returned, FreesAllRemoved, Orders, DeletedFrom, Removes,
      Frees;
    DeleteReturns(devs, view);
    DeleteDeletesAll(kv, recursive, devs, books, order);
    var kv' := DeleteTxn(kv, recursive, devs, books, order);
    if FreesOnlyRemoved(kv, recursive, devs) {
      DeleteKeepsExact(kv, recursive, devs, books, kv');
    } else {
      var k :| k in kv && PoolOf(k).Some? && Frees(devs, PoolOf(k).value, ClaimOf(kv[k])) &&
        !Removes(recursive, devs, k);
      LostMark(kv, recursive, devs, books, kv', k);
    }
  }

  // ----- Runs: any number of clients, any interleaving -----

  /** A commit by some client. Its view is whatever its reads returned, however long
      ago; nothing relates it to the store that the commit meets. */
  datatype Step =
    | SaveStep(devs: seq<Device>, view: Kv)
    | DeleteStep(recursive: bool, devs: seq<Device>, view: Kv)
    | PortStep(attempt: Attempt)

  /** What the clients are assumed to do: new devices carry no id, a delete that can succeed
      gives back no claim of a device that stays, and subnets have room. */
  ghost predicate Allowed(kv: Kv, step: Step)
    requires step.PortStep? ==> step.attempt.prefix <= 32
  {
    match step
    case SaveStep(devs, _) => NewDevices(devs)
    case DeleteStep(recursive, devs, _) => AllStored(kv, devs) ==> FreesOnlyRemoved(kv, recursive, devs)
    case PortStep(a) => HasRoom(a)
  }

  ghost predicate Commits(kv: Kv, step: Step, kv': Kv)
    requires step.PortStep? ==> step.attempt.prefix <= 32
  {
    match step
    case SaveStep(devs, view) =>
      if SaveAll(devs, view).None? then kv' == kv
      else
        var (books, saved) := SaveAll(devs, view).value;
        exists order :: Orders(order, books) && kv' == SaveTxn(kv, books, saved, order)
    case DeleteStep(recursive, devs, view) =>
      var books := DeleteAll(devs, view);
      exists order :: Orders(order, books) && kv' == DeleteTxn(kv, recursive, devs, books, order)
    case PortStep(a) =>
      match AllocSwitchPortIp(a)
      case None => kv' == kv
      case Some((ip, id)) => kv' == Transact(kv, PortCmps(a), PortOps(a, ip, id))
  }

  /** The bitmap did not disappear between the two looks of SaveSwitchPort, and a delete
      gives back the claims of what it removes. */
  ghost predicate Steady(kv: Kv, step: Step) {
    match step
    case SaveStep(_, _) => true
    case DeleteStep(recursive, devs, _) => AllStored(kv, devs) ==> FreesAllRemoved(kv, recursive, devs)
    case PortStep(a) => SwitchBook(a.owner) in a.second || FirstBits(a) == {}
  }

  lemma SaveStepKeeps(kv: Kv, devs: seq<Device>, view: Kv, kv': Kv)
    requires Safe(kv) && NewDevices(devs) && Commits(kv, SaveStep(devs, view), kv')
    ensures Safe(kv') && (Exact(kv) ==> Exact(kv'))
  {
    if SaveAll(devs, view).Some? {
      SaveDrafts(devs, view);
      var (books, saved) := SaveAll(devs, view).value;
      var order :| Orders(order, books) && kv' == SaveTxn(kv, books, saved, order);
      hide SaveAll, Safe, Exact, Orders;
      if SaveSucceeds(kv, books, saved, order) {
        SaveWritesAll(kv, books, saved, order);
        SaveKeepsSafe(kv, books, saved, kv');
        if Exact(kv) { SaveKeepsExact(kv, books, saved, kv'); }
      }
    }
  }

  lemma DeleteStepKeeps(kv: Kv, recursive: bool, devs: seq<Device>, view: Kv, kv': Kv)
    requires Safe(kv) && Allowed(kv, DeleteStep(recursive, devs, view))
    requires Commits(kv, DeleteStep(recursive, devs, view), kv')
    ensures Safe(kv') && (Exact(kv) && Steady(kv, DeleteStep(recursive, devs, view)) ==> Exact(kv'))
  {
    var books := DeleteAll(devs, view);
    DeleteReturns(devs, view);
    var order :| Orders(order, books) && kv' == DeleteTxn(kv, recursive, devs, books, order);
    hide DeleteAll, Safe, Exact, Orders, Returned, DeleteCmps, DeleteOps, Succeeds, Apply, FreesOnlyRemoved,
      FreesAllRemoved;
    if DeleteSucceeds(kv, recursive, devs, books, order) {
      DeleteDeletesAll(kv, recursive, devs, books, order);
      DeleteKeepsSafe(kv, recursive, devs, books, kv');
      if Exact(kv) { DeleteKeepsExact(kv, recursive, devs, books, kv'); }
    }
  }

  lemma PortStepKeeps(kv: Kv, a: Attempt, kv': Kv)
    requires Safe(kv) && a.prefix <= 32 && HasRoom(a) && Commits(kv, PortStep(a), kv')
    ensures Safe(kv') && (Exact(kv) && Steady(kv, PortStep(a)) ==> Exact(kv'))
  {
    hide Safe, Exact, HasRoom, Apply;
    if AllocSwitchPortIp(a).Some? {
      var (ip, id) := AllocSwitchPortIp(a).value;
      hide AllocSwitchPortIp, PortCmps, PortOps, FirstBits;
      if Succeeds(kv, PortCmps(a), PortOps(a, ip, id)) {
        AttemptWrites(kv, a, ip, id);
        SaveKeepsSafe(kv, PortBooks(a, id), [PortOf(a, ip)], kv');
        if Exact(kv) { AttemptKeepsExactIff(kv, a, ip, id); }
      }
    }
  }

  ghost predicate Run(states: seq<Kv>, steps: seq<Step>) {
    |states| == |steps| + 1 &&
    forall i :: 0 <= i < |steps| ==>
      (steps[i].PortStep? ==> steps[i].attempt.prefix <= 32) && Allowed(states[i], steps[i]) &&
      Commits(states[i], steps[i], states[i + 1])
  }

  lemma StepKeeps(kv: Kv, step: Step, kv': Kv)
    requires (step.PortStep? ==> step.attempt.prefix <= 32) && Safe(kv) && Allowed(kv, step) && Commits(kv, step, kv')
    ensures Safe(kv') && (Exact(kv) && Steady(kv, step) ==> Exact(kv'))
  {
    hide Safe, Exact;
    match step
    case SaveStep(devs, view) => SaveStepKeeps(kv, devs, view, kv');
    case DeleteStep(recursive, devs, view) => DeleteStepKeeps(kv, recursive, devs, view, kv');
    case PortStep(a) => PortStepKeeps(kv, a, kv');
  }

  /** Allocation safety over all interleavings: live device ids are distinct and
      marked, ports of one owner have distinct low 16 bits, all marked in its book. */
  lemma {:induction false} RunKeepsSafe(states: seq<Kv>, steps: seq<Step>)
    requires Run(states, steps) && Safe(states[0])
    ensures forall kv :: kv in states ==> Safe(kv)
    decreases |steps|
  {
    hide Safe, Allowed, Commits;
    if steps != [] {
      var n := |steps|;
      RunKeepsSafe(states[..n], steps[..n - 1]);
      assert states[n - 1] in states[..n];
      StepKeeps(states[n - 1], steps[n - 1], states[n]);
      assert forall kv :: kv in states ==> kv in states[..n] || kv == states[n];
    }
  }

  /** Conservation: as long as no bitmap vanishes between two looks and deletes give back
      what they remove, every bitmap is exactly the set of claims of its live devices. */
  lemma {:induction false} RunKeepsExact(states: seq<Kv>, steps: seq<Step>)
    requires Run(states, steps) && Safe(states[0]) && Exact(states[0])
    requires forall i :: 0 <= i < |steps| ==> Steady(states[i], steps[i])
    ensures Exact(states[|steps|])
    decreases |steps|
  {
    hide Safe, Allowed, Commits, Exact, Steady;
    if steps != [] {
      var n := |steps|;
      RunKeepsExact(states[..n], steps[..n - 1]);
      RunKeepsSafe(states[..n], steps[..n - 1]);
      assert states[n - 1] in states[..n];
      StepKeeps(states[n - 1], steps[n - 1], states[n]);
    }
  }

  lemma EmptyIsSafe()
    ensures Safe(map[]) && Exact(map[])
  {
  }

  /** Why Steady is needed: between the two looks the switch and its book were
      deleted, the commit revives id 7, and no port has it. */
  lemma RevivedBook()
    ensures var a := Attempt("s", "p", 0, 16, map[SwitchKey("s") := Dev(1), SwitchBook("s") := Ids({7})], map[]);
      var kv' := Transact(map[], PortCmps(a), PortOps(a, 2, 2));
      HasRoom(a) && AllocSwitchPortIp(a) == Some((2, 2)) && Succeeds(map[], PortCmps(a), PortOps(a, 2, 2)) &&
      Exact(map[]) && !Exact(kv')
  {
    var a := Attempt("s", "p", 0, 16, map[SwitchKey("s") := Dev(1), SwitchBook("s") := Ids({7})], map[]);
    assert FirstBits(a) == {7};
    ZeroNetwork();
    EmptyIsSafe();
    RevivedCommit(a);
    hide AllocAddress, FreeInSubnet, PortCmps, PortOps, Transact, Succeeds, Exact, FirstBits, HasRoom;
    AttemptKeepsExactIff(map[], a, 2, 2);
  }

  lemma RevivedCommit(a: Attempt)
    requires SwitchBook(a.owner) !in a.second
    ensures Succeeds(map[], PortCmps(a), PortOps(a, 2, 2))
  {
    assert !Clashes(PortOps(a, 2, 2)[0], PortOps(a, 2, 2)[1]);
    hide FirstBits;
  }

  lemma ZeroNetwork()
    ensures AllocAddress({7}, 0, 16) == Allocated(2, 2) && FreeInSubnet({7}, 0, 16)
  {
    ShrShl(0, 16);
    SmallSubnet(0, 16);
    Shl16(1);
    hide Shl, Shr, BitOr;
  }

  /** Why devices must come without an id: the one they carry is not marked. */
  lemma CarriedIdIsUnmarked()
    ensures var devs := [Switch("s", 7)];
      SaveAll(devs, map[]) == Some((map[], devs)) && Orders([], map[]) && SaveSucceeds(map[], map[], devs, []) &&
      !Safe(SaveTxn(map[], map[], devs, []))
  {
    var devs := [Switch("s", 7)];
    assert devs[..0] == [] && [] + [devs[0]] == devs;
    assert SaveAll([], map[]) == Some((map[], []));
    assert SaveCmps(devs) + [] == [KeyMissing(SwitchKey("s"))];
    var ops := SavePuts(devs) + [];
    assert ops == [Put(SwitchKey("s"), Dev(7))];
    ApplyAt(map[], ops, SwitchKey("s"));
    ApplyAt(map[], ops, DeviceIds);
    hide SaveAll, SaveCmps, SavePuts, Apply;
    assert PoolOf(SwitchKey("s")) == Some(DeviceIds);
  }

  /** Why a delete may free only what it removes: the id of the stale record is given back,
      although another port holds it. */
  lemma StaleDeleteFreesOther()
    ensures var p, q, book := SwitchPortKey("s", "p"), SwitchPortKey("s", "q"), SwitchBook("s");
      var kv, devs := map[p := Port(9), q := Port(8), book := Ids({8, 9})], [SwitchPort("s", "p", 8)];
      var books := DeleteAll(devs, kv);
      Safe(kv) && Orders([book], books) && DeleteSucceeds(kv, false, devs, books, [book]) &&
      !Safe(DeleteTxn(kv, false, devs, books, [book]))
  {
    var p, q, book := SwitchPortKey("s", "p"), SwitchPortKey("s", "q"), SwitchBook("s");
    var kv, devs := map[p := Port(9), q := Port(8), book := Ids({8, 9})], [SwitchPort("s", "p", 8)];
    StaleDraft(kv, devs);
    StaleCommit(kv);
    StaleStore(kv);
    hide DeleteAll, DeleteCmps, DeleteOps, Transact, Succeeds, Safe, Orders;
    UnmarkedIsUnsafe(DeleteTxn(kv, false, devs, DeleteAll(devs, kv), [book]), q);
  }

  lemma StaleStore(kv: Kv)
    requires kv == map[SwitchPortKey("s", "p") := Port(9), SwitchPortKey("s", "q") := Port(8),
                       SwitchBook("s") := Ids({8, 9})]
    ensures Safe(kv)
  {
    assert kv[SwitchBook("s")] == Ids({8, 9});
  }

  lemma StaleCommit(kv: Kv)
    requires SwitchPortKey("s", "p") in kv && SwitchPortKey("s", "q") in kv && kv[SwitchPortKey("s", "q")] == Port(8)
    requires SwitchBook("s") in kv && kv[SwitchBook("s")] == Ids({8, 9})
    ensures var p, q, book := SwitchPortKey("s", "p"), SwitchPortKey("s", "q"), SwitchBook("s");
      var cmps, ops := [KeyExists(p), ValueIs(book, Some({8, 9}))], [Del(p), Put(book, Ids({9}))];
      var kv' := Transact(kv, cmps, ops);
      Succeeds(kv, cmps, ops) && q in kv' && ClaimOf(kv'[q]) == 8 && 8 !in BookAt(kv', book)
  {
    var ops := [Del(SwitchPortKey("s", "p")), Put(SwitchBook("s"), Ids({9}))];
    ApplyAt(kv, ops, SwitchPortKey("s", "q"));
    ApplyAt(kv, ops, SwitchBook("s"));
    hide Apply;
  }

  lemma StaleBooks(kv: Kv, devs: seq<Device>)
    requires devs == [SwitchPort("s", "p", 8)] && SwitchBook("s") in kv && kv[SwitchBook("s")] == Ids({8, 9})
    ensures DeleteAll(devs, kv) == map[SwitchBook("s") := Book(Some({8, 9}), {9})]
  {
    assert devs[..0] == [] && DeleteAll([], kv) == map[];
    assert {8, 9} - {8} == {9};
  }

  lemma StaleKeys(devs: seq<Device>)
    requires devs == [SwitchPort("s", "p", 8)]
    ensures var p := SwitchPortKey("s", "p");
      KeyCmps(AllDeleteKeys(false, devs)) == [KeyExists(p)] && KeyOps(false, AllDeleteKeys(false, devs)) == [Del(p)]
  {
    var p := SwitchPortKey("s", "p");
    assert devs[..0] == [] && [p][..0] == [];
    assert AllDeleteKeys(false, []) == [] && KeyOps(false, []) == [];
    assert AllDeleteKeys(false, devs) == [p];
  }

  lemma StaleReturns(books: Books)
    requires books == map[SwitchBook("s") := Book(Some({8, 9}), {9})]
    ensures Orders([SwitchBook("s")], books)
    ensures ReturnCmps(books, [SwitchBook("s")]) == [ValueIs(SwitchBook("s"), Some({8, 9}))]
    ensures ReturnOps(books, [SwitchBook("s")]) == [Put(SwitchBook("s"), Ids({9}))]
  {
    var book := SwitchBook("s");
    assert [book][..0] == [] && ReturnOps(books, []) == [];
    assert 8 !in {9} && 9 in {9};
    assert ReturnOp(book, Book(Some({8, 9}), {9})) == [Put(book, Ids({9}))];
  }

  lemma StaleDraft(kv: Kv, devs: seq<Device>)
    requires devs == [SwitchPort("s", "p", 8)] && SwitchBook("s") in kv && kv[SwitchBook("s")] == Ids({8, 9})
    ensures var book, books := SwitchBook("s"), DeleteAll(devs, kv);
      books == map[book := Book(Some({8, 9}), {9})] && Orders([book], books) &&
      DeleteCmps(false, devs, books, [book]) == [KeyExists(SwitchPortKey("s", "p")), ValueIs(book, Some({8, 9}))] &&
      DeleteOps(false, devs, books, [book]) == [Del(SwitchPortKey("s", "p")), Put(book, Ids({9}))]
  {
    hide DeleteAll, AllDeleteKeys, KeyOps, KeyCmps, ReturnOps, ReturnCmps, Orders;
    StaleBooks(kv, devs);
    StaleKeys(devs);
    StaleReturns(DeleteAll(devs, kv));
  }

  // ----- The operations as the client runs them -----

  /** The keys of books that are not in todo were visited, each once. */
  ghost predicate Visited(books: Books, keys: seq<Key>, todo: set<Key>) {
    (forall k :: k in keys <==> k in books && k !in todo) &&
    forall i, j :: 0 <= i < j < |keys| ==> keys[i] != keys[j]
  }

  lemma WritesNothing(books: Books)
    ensures BookCmps(books, []) == [] && BookPuts(books, []) == []
    ensures ReturnCmps(books, []) == [] && ReturnOps(books, []) == []
  {
  }

  lemma WritesOneMore(books: Books, keys: seq<Key>, key: Key)
    requires key in books && forall k :: k in keys ==> k in books
    ensures forall k :: k in keys + [key] ==> k in books
    ensures BookCmps(books, keys + [key]) == BookCmps(books, keys) +
      [if books[key].was.None? then KeyMissing(key) else ValueIs(key, books[key].was)]
    ensures BookPuts(books, keys + [key]) == BookPuts(books, keys) +
      if books[key].was == Some(books[key].cur) then [] else [Put(key, Ids(books[key].cur))]
  {
    assert (keys + [key])[..|keys|] == keys;
  }

  lemma ReturnsOneKey(books: Books, keys: seq<Key>, key: Key)
    requires key in books && forall k :: k in keys ==> k in books
    ensures forall k :: k in keys + [key] ==> k in books
    ensures ReturnCmps(books, keys + [key]) == ReturnCmps(books, keys) + [ValueIs(key, books[key].was)]
    ensures ReturnOps(books, keys + [key]) == ReturnOps(books, keys) + ReturnOp(key, books[key])
  {
    assert (keys + [key])[..|keys|] == keys;
  }

  class Client {
    const etcd: Store

    constructor (etcd: Store)
      ensures this.etcd == etcd
    {
      this.etcd := etcd;
    }

    /** The loop over the devices: fills idMaps and completes the devices. */
    method Draft(devs: seq<Device>, view: Kv) returns (ok: bool, books: Books, saved: seq<Device>)
      ensures ok == SaveAll(devs, view).Some?
      ensures ok ==> (books, saved) == SaveAll(devs, view).value
    {
      books, saved := map[], [];
      for i := 0 to |devs|
        invariant SaveAll(devs[..i], view) == Some((books, saved))
      {
        assert devs[..i + 1][..i] == devs[..i];
        match SaveOne(books, devs[i], view) {
          case None =>
            DraftFails(devs, i + 1, view);
            return false, map[], [];
          case Some(next) =>
            books, saved := next.0, saved + [next.1];
        }
      }
      assert devs[..|devs|] == devs;
      ok := true;
    }

    /** The loop over idMaps: compare every bitmap, then create or update it. */
    method WriteBack(books: Books) returns (cmps: seq<Cmp>, ops: seq<Op>, keys: seq<Key>)
      ensures Orders(keys, books) && cmps == BookCmps(books, keys) && ops == BookPuts(books, keys)
    {
      hide BookCmps, BookPuts;
      WritesNothing(books);
      cmps, ops, keys := [], [], [];
      var todo := books.Keys;
      while todo != {}
        invariant todo <= books.Keys && Visited(books, keys, todo)
        invariant cmps == BookCmps(books, keys) && ops == BookPuts(books, keys)
      {
        var key :| key in todo;
        todo := todo - {key};
        var b := books[key];
        WritesOneMore(books, keys, key);
        if b.was.None? {
          cmps, ops := cmps + [KeyMissing(key)], ops + [Put(key, Ids(b.cur))];
        } else {
          cmps := cmps + [ValueIs(key, b.was)];
          if Some(b.cur) != b.was {
            ops := ops + [Put(key, Ids(b.cur))];
          }
        }
        keys := keys + [key];
      }
    }

    /** Save; `view` is what its reads of the bitmaps returned. */
    method Save(devs: seq<Device>, view: Kv) returns (ok: bool, saved: seq<Device>, ghost order: seq<Key>)
      modifies etcd
      ensures match SaveAll(devs, view)
        case None => !ok && etcd.kv == old(etcd.kv)
        case Some((books, ds)) =>
          Orders(order, books) && saved == ds && ok == SaveSucceeds(old(etcd.kv), books, ds, order) &&
          etcd.kv == SaveTxn(old(etcd.kv), books, ds, order)
    {
      hide SaveAll, SaveCmps, SavePuts, BookCmps, BookPuts, Succeeds, Apply, Orders;
      var books;
      order := [];
      ok, books, saved := Draft(devs, view);
      if ok {
        var cmps, ops, keys := WriteBack(books);
        order := keys;
        ok := etcd.Txn(SaveCmps(saved) + cmps, SavePuts(saved) + ops);
      }
    }

    /** The keys of one device: compare that they exist, delete them. */
    method Drop(recursive: bool, keys: seq<Key>) returns (cmps: seq<Cmp>, ops: seq<Op>)
      ensures cmps == KeyCmps(keys) && ops == KeyOps(recursive, keys)
    {
      cmps, ops := [], [];
      for i := 0 to |keys|
        invariant cmps == KeyCmps(keys[..i]) && ops == KeyOps(recursive, keys[..i])
      {
        assert keys[..i + 1][..i] == keys[..i];
        if recursive {
          ops := ops + [DelUnder(keys[i])];
        }
        cmps, ops := cmps + [KeyExists(keys[i])], ops + [Del(keys[i])];
      }
      assert keys[..|keys|] == keys;
    }

    method Collect(recursive: bool, devs: seq<Device>, view: Kv) returns (books: Books, dropped: seq<Key>)
      ensures books == DeleteAll(devs, view) && dropped == AllDeleteKeys(recursive, devs)
    {
      books, dropped := map[], [];
      for i := 0 to |devs|
        invariant books == DeleteAll(devs[..i], view) && dropped == AllDeleteKeys(recursive, devs[..i])
      {
        assert devs[..i + 1][..i] == devs[..i];
        books := DeleteOne(books, devs[i], view);
        dropped := dropped + DeleteKeys(recursive, devs[i]);
      }
      assert devs[..|devs|] == devs;
    }

    /** The loop over idMaps: compare every bitmap, then drop or update it. */
    method GiveBack(books: Books) returns (cmps: seq<Cmp>, ops: seq<Op>, keys: seq<Key>)
      ensures Orders(keys, books) && cmps == ReturnCmps(books, keys) && ops == ReturnOps(books, keys)
    {
      hide ReturnCmps, ReturnOps;
      WritesNothing(books);
      cmps, ops, keys := [], [], [];
      var todo := books.Keys;
      while todo != {}
        invariant todo <= books.Keys && Visited(books, keys, todo)
        invariant cmps == ReturnCmps(books, keys) && ops == ReturnOps(books, keys)
      {
        var key :| key in todo;
        todo := todo - {key};
        var b := books[key];
        ReturnsOneKey(books, keys, key);
        cmps := cmps + [ValueIs(key, b.was)];
        if b.cur == {} {
          ops := ops + [Del(key)];
        } else if Some(b.cur) != b.was {
          ops := ops + [Put(key, Ids(b.cur))];
        }
        keys := keys + [key];
      }
    }

    method Delete(recursive: bool, devs: seq<Device>, view: Kv) returns (ok: bool, ghost order: seq<Key>)
      modifies etcd
      ensures var books := DeleteAll(devs, view);
        Orders(order, books) && ok == DeleteSucceeds(old(etcd.kv), recursive, devs, books, order) &&
        etcd.kv == DeleteTxn(old(etcd.kv), recursive, devs, books, order)
    {
      hide DeleteAll, AllDeleteKeys, KeyOps, ReturnOps, Succeeds, Apply, Orders;
      var books, dropped := Collect(recursive, devs, view);
      var cmps, ops := Drop(recursive, dropped);
      var bookCmps, bookOps, keys := GiveBack(books);
      order := keys;
      ok := etcd.Txn(cmps + bookCmps, ops + bookOps);
    }

    /** The retry loop. Before the commit of turn i the other clients have turned the
        store into now[i]; the loop ends with a success, an error, or when the same
        address comes up twice in a row. */
    method SaveSwitchPort(turns: seq<Attempt>, now: seq<Kv>) returns (ip: Option<nat>, ghost last: nat)
      requires |now| == |turns| && forall a :: a in turns ==> a.prefix <= 32
      modifies etcd
      ensures ip.Some? ==> last < |turns| && Attempted(now[last], turns[last], ip.value, etcd.kv)
      ensures ip.None? ==> etcd.kv == old(etcd.kv) || etcd.kv in now
    {
      var prev: Option<nat> := None;
      ip, last := None, 0;
      for i := 0 to |turns|
        invariant ip.None? && (etcd.kv == old(etcd.kv) || etcd.kv in now)
      {
        var a := turns[i];
        var r := AllocSwitchPortIp(a);
        if r.None? || prev == Some(r.value.0) {
          return;
        }
        var (addr, id) := r.value;
        prev := Some(addr);
        etcd.kv := now[i];
        var ok := etcd.Txn(PortCmps(a), PortOps(a, addr, id));
        if ok {
          return Some(addr), i;
        }
      }
    }
  }

  /** A successful turn stored the port under the address that it computed. */
  ghost predicate Attempted(kv: Kv, a: Attempt, ip: nat, kv': Kv)
    requires a.prefix <= 32
  {
    exists id :: AllocSwitchPortIp(a) == Some((ip, id)) && Succeeds(kv, PortCmps(a), PortOps(a, ip, id)) &&
      kv' == Transact(kv, PortCmps(a), PortOps(a, ip, id))
  }

  lemma {:induction false} DraftFails(devs: seq<Device>, n: nat, view: Kv)
    requires n <= |devs| && SaveAll(devs[..n], view).None?
    ensures SaveAll(devs, view).None?
    decreases |devs| - n
  {
    hide SaveOne;
    if n < |devs| {
      assert devs[..n + 1][..n] == devs[..n];
      DraftFails(devs, n + 1, view);
    } else {
      assert devs[..n] == devs;
    }
  }
}
