// WatchMaster as an object, and whole runs of it beside a store that goes on
// changing: commits, deliveries, stream errors, compactions and reads in any order.
// What was delivered and drained, and what still waits, always makes up the store.

module Mirror {
  import opened Common
  import opened TextCodec
  import opened Records
  import opened LinkMaster

  /** `full` stands for read_remote_func being the entire read. */
  datatype Master = Master(lastVer: int, full: bool, canceled: bool, pools: Pools)

  function Max(a: int, b: int): int {
    if a > b then a else b
  }

  function OnEvent(m: Master, e: Event): Master {
    if m.canceled then m else m.(lastVer := Max(e.rev, m.lastVer), pools := Pooled(m.pools, e))
  }

  function OnEvents(m: Master, events: seq<Event>): Master {
    if events == [] then m else OnEvent(OnEvents(m, events[..|events| - 1]), events[|events| - 1])
  }

  /** RevisionCompactedError; the pools are given up (None in the source). */
  function OnCompacted(m: Master, rev: int): Master {
    if m.canceled then m else Master(rev, true, true, NO_POOLS)
  }

  function OnRpcError(m: Master): Master {
    m.(canceled := true)
  }

  /** run_default_watch: a disabled watch restarts after lastVer with empty pools. */
  function Rewatched(m: Master): Master {
    if m.canceled then m.(canceled := false, pools := NO_POOLS) else m
  }

  function Listed(data: seq<(string, Stored)>): View {
    if data == [] then map[]
    else
      var (k, s) := data[|data| - 1];
      var pool := Listed(data[..|data| - 1]);
      if MarkOf(k).None? then pool else pool[k := EntryOf(k, s.value)]
  }

  function TopRevision(data: seq<(string, Stored)>): int {
    if data == [] then -1 else Max(data[|data| - 1].1.rev, TopRevision(data[..|data| - 1]))
  }

  /** read_remote_kvdata when it reads everything: the snapshot becomes the view. */
  function ReadEntire(m: Master, data: seq<(string, Stored)>): Master {
    Rewatched(m.(lastVer := Max(TopRevision(data), m.lastVer))).(full := false)
  }

  /** read_remote_kvdata otherwise: the pools are handed over, then watched again if needed. */
  function ReadIncremental(m: Master): Master {
    Rewatched(m.(pools := NO_POOLS)).(full := false)
  }

  /** A watch that has ended hears nothing until it is registered again. */
  lemma CanceledIgnores(m: Master, e: Event, rev: int)
    requires m.canceled
    ensures OnEvent(m, e) == m && OnCompacted(m, rev) == m && OnRpcError(m) == m
  {
  }

  /** The version is that of the newest event delivered, and never goes back. */
  lemma {:induction false} VersionIsTop(m: Master, events: seq<Event>)
    requires !m.canceled
    ensures var v := OnEvents(m, events).lastVer;
      v >= m.lastVer && (forall e :: e in events ==> e.rev <= v) &&
      (v == m.lastVer || exists e :: e in events && e.rev == v)
    ensures !OnEvents(m, events).canceled
  {
    if events != [] {
      var init, last := events[..|events| - 1], events[|events| - 1];
      VersionIsTop(m, init);
      assert forall e :: e in events <==> e in init || e == last;
      hide Pooled;
    }
  }

  lemma {:induction false} TopRevisionIs(data: seq<(string, Stored)>)
    ensures TopRevision(data) >= -1 && forall x :: x in data ==> x.1.rev <= TopRevision(data)
    ensures data != [] ==> TopRevision(data) == -1 || exists x :: x in data && x.1.rev == TopRevision(data)
    ensures data == [] ==> TopRevision(data) == -1
  {
    if data != [] {
      var init, last := data[..|data| - 1], data[|data| - 1];
      TopRevisionIs(init);
      assert forall x :: x in data <==> x in init || x == last;
    }
  }

  /** The resync after a compaction asks for nothing that was compacted away: the watch goes
      on after the compaction and after everything in the snapshot, and nothing before it. */
  lemma ResyncStartsAfter(m: Master, rev: int, data: seq<(string, Stored)>)
    requires !m.canceled
    ensures var n := ReadEntire(OnCompacted(m, rev), data);
      !n.canceled && !n.full && n.pools == NO_POOLS && n.lastVer >= rev &&
      (forall x :: x in data ==> x.1.rev <= n.lastVer) &&
      (n.lastVer == rev || n.lastVer == -1 || exists x :: x in data && x.1.rev == n.lastVer)
  {
    TopRevisionIs(data);
    hide TopRevision;
  }

  // ----- The object -----

  class WatchMaster {
    var lastVer: int
    var readsEntire: bool
    var watchCanceled: bool
    var entityAddPool: View
    var entityDelPool: set<string>

    function State(): Master
      reads this
    {
      Master(lastVer, readsEntire, watchCanceled, Pools(entityAddPool, entityDelPool))
    }

    constructor ()
      ensures State() == Master(-1, true, true, NO_POOLS)
    {
      lastVer, readsEntire, watchCanceled, entityAddPool, entityDelPool := -1, true, true, map[], {};
    }

    method WatchCallback(e: Event)
      modifies this
      ensures State() == OnEvent(old(State()), e)
    {
      if watchCanceled {
        return;
      }
      lastVer := if e.rev > lastVer then e.rev else lastVer;
      var mark := MarkOf(e.key);
      if mark.None? {
        return;
      }
      if e.DeleteEvent? {
        if e.key in entityAddPool {
          entityAddPool := entityAddPool - {e.key};
        } else {
          entityDelPool := entityDelPool + {e.key};
        }
        return;
      }
      entityDelPool := entityDelPool - {e.key};
      var kvSet := ParseValue(e.value);
      entityAddPool := entityAddPool[e.key := kvSet["TYPE" := mark.value]];
    }

    method Compacted(rev: int)
      modifies this
      ensures State() == OnCompacted(old(State()), rev)
    {
      if !watchCanceled {
        lastVer, readsEntire, watchCanceled, entityAddPool, entityDelPool := rev, true, true, map[], {};
      }
    }

    method RpcError()
      modifies this
      ensures State() == OnRpcError(old(State()))
    {
      watchCanceled := true;
    }

    method RunDefaultWatch()
      modifies this
      ensures State() == Rewatched(old(State()))
    {
      if watchCanceled {
        watchCanceled, entityAddPool, entityDelPool := false, map[], {};
      }
    }

    method ReadRemoteEntire(data: seq<(string, Stored)>) returns (addPool: View)
      modifies this
      ensures addPool == Listed(data) && State() == ReadEntire(old(State()), data)
    {
      var version := -1;
      addPool := map[];
      for i := 0 to |data|
        invariant State() == old(State())
        invariant addPool == Listed(data[..i]) && version == TopRevision(data[..i])
      {
        assert data[..i + 1][..i] == data[..i];
        var (key, stored) := data[i];
        version := if stored.rev > version then stored.rev else version;
        var mark := MarkOf(key);
        if mark.None? {
          continue;
        }
        var kvSet := ParseValue(stored.value);
        addPool := addPool[key := kvSet["TYPE" := mark.value]];
      }
      assert data[..|data|] == data;
      lastVer := if version > lastVer then version else lastVer;
      RunDefaultWatch();
      readsEntire := false;
    }

    method ReadRemoteIncremental() returns (addPool: View, delPool: set<string>)
      modifies this
      ensures Pools(addPool, delPool) == old(State()).pools && State() == ReadIncremental(old(State()))
    {
      addPool, delPool := entityAddPool, entityDelPool;
      entityAddPool, entityDelPool := map[], {};
      RunDefaultWatch();
      readsEntire := false;
    }
  }

  // ----- Runs -----

  /** The store's history and revision, the mirror, and the view it feeds. `window`
      records the events since the last read, `began` the revision of the store when
      the watch was registered. */
  datatype World = World(events: seq<Event>, rev: int, master: Master, view: View, window: seq<Event>, began: int)

  datatype Step =
    | CommitStep(events: seq<Event>)
    | DeliverStep(n: nat)
    | CompactStep(at: int)
    | RpcErrorStep
    | ReadStep(data: seq<(string, Stored)>)

  ghost predicate Lists(data: seq<(string, Stored)>, s: Store) {
    (forall i, j :: 0 <= i < j < |data| ==> data[i].0 != data[j].0) &&
    (forall k, x :: (k, x) in data <==> k in s && s[k] == x)
  }

  /** The watch asks for lastVer + 1 and later. A request for revision 0, before any
      revision was seen, means "from now". */
  function Start(w: World): int {
    if w.master.lastVer >= 0 then w.master.lastVer else w.began
  }

  /** The undelivered events: what the watch will bring. */
  function Waiting(w: World): seq<Event> {
    After(w.events, Start(w))
  }

  ghost predicate Possible(w: World, step: Step) {
    match step
    case CommitStep(events) => forall e :: e in events ==> e.rev == w.rev + 1
    case DeliverStep(n) =>
      0 < n <= |Waiting(w)| && !w.master.canceled && (n < |Waiting(w)| ==> Waiting(w)[n - 1].rev < Waiting(w)[n].rev)
    case CompactStep(at) => 0 <= at <= w.rev
    case RpcErrorStep => true
    case ReadStep(data) =>
      if w.master.full then Lists(data, StoreAfter(w.events)) else NoLostDelete(w.view, w.window)
  }

  ghost function Next(w: World, step: Step): World
    requires Possible(w, step)
  {
    match step
    case CommitStep(events) => w.(events := w.events + events, rev := w.rev + 1)
    case DeliverStep(n) => w.(master := OnEvents(w.master, Waiting(w)[..n]), window := w.window + Waiting(w)[..n])
    case CompactStep(at) => w.(master := OnCompacted(w.master, at))
    case RpcErrorStep => w.(master := OnRpcError(w.master))
    case ReadStep(data) =>
      var began := if w.master.canceled then w.rev else w.began;
      if w.master.full then w.(master := ReadEntire(w.master, data), view := Listed(data), window := [], began := began)
      else
        w.(master := ReadIncremental(w.master), view := Applied(w.view, w.master.pools), window := [], began := began)
  }

  ghost predicate Timely(w: World) {
    Ordered(w.events) && (forall e :: e in w.events ==> 0 < e.rev <= w.rev) && -1 <= w.master.lastVer <= w.rev &&
    0 <= w.began <= w.rev
  }

  /** Nothing was read or delivered as long as no revision was seen. */
  ghost predicate UnseenIsEmpty(w: World) {
    w.master.lastVer < 0 && !w.master.full ==> w.view == map[] && w.window == []
  }

  /** The view, the drained window and what still waits make up the store's contents. */
  ghost predicate Faithful(w: World) {
    w.master.pools == Aggregate(w.window) && Replay(w.view, w.window + Waiting(w)) == ViewOf(StoreAfter(w.events))
  }

  ghost predicate MirrorInv(w: World) {
    Timely(w) && UnseenIsEmpty(w) && if w.master.full then w.master.canceled else Faithful(w)
  }

  lemma ViewStep(s: Store, e: Event)
    ensures ViewOf(Stepped(s, e)) == Replayed(ViewOf(s), e)
  {
    hide MarkOf, EntryOf;
  }

  lemma {:induction false} ViewSteps(a: seq<Event>, b: seq<Event>)
    ensures ViewOf(StoreAfter(a + b)) == Replay(ViewOf(StoreAfter(a)), b)
  {
    hide ViewOf, Stepped, Replayed;
    if b == [] {
      assert a + b == a;
    } else {
      var init, last := b[..|b| - 1], b[|b| - 1];
      ViewSteps(a, init);
      assert (a + b)[..|a + b| - 1] == a + init;
      ViewStep(StoreAfter(a + init), last);
    }
  }

  lemma {:induction false} AfterAll(events: seq<Event>, rev: int)
    requires forall e :: e in events ==> e.rev > rev
    ensures After(events, rev) == events
  {
    if events != [] {
      var init, last := events[..|events| - 1], events[|events| - 1];
      assert last in events && init + [last] == events;
      AfterAll(init, rev);
      assert After(events, rev) == After(init, rev) + [last];
    }
  }

  lemma CommitKeepsTimely(w: World, events: seq<Event>)
    requires Timely(w) && forall e :: e in events ==> e.rev == w.rev + 1
    ensures Timely(Next(w, CommitStep(events)))
  {
  }

  lemma CommitReplays(view: View, window: seq<Event>, waiting: seq<Event>, history: seq<Event>, events: seq<Event>)
    requires Replay(view, window + waiting) == ViewOf(StoreAfter(history))
    ensures Replay(view, window + (waiting + events)) == ViewOf(StoreAfter(history + events))
  {
    hide Replay, StoreAfter, ViewOf;
    ViewSteps(history, events);
    ReplayAppend(view, window + waiting, events);
    assert window + waiting + events == window + (waiting + events);
  }

  lemma CommitKeepsFaithful(w: World, events: seq<Event>)
    requires Faithful(w) && forall e :: e in events ==> e.rev > Start(w)
    ensures Faithful(w.(events := w.events + events, rev := w.rev + 1))
  {
    hide After, Replay, StoreAfter, Aggregate, ViewOf;
    AfterAll(events, Start(w));
    AfterAppend(w.events, events, Start(w));
    CommitReplays(w.view, w.window, Waiting(w), w.events, events);
  }

  lemma CommitKeepsMirror(w: World, events: seq<Event>)
    requires MirrorInv(w) && Possible(w, CommitStep(events))
    ensures MirrorInv(Next(w, CommitStep(events)))
  {
    assert forall e :: e in events ==> e.rev > Start(w);
    CommitKeepsTimely(w, events);
    hide Timely, Faithful, Start;
    if !w.master.full {
      CommitKeepsFaithful(w, events);
    }
  }

  /** Delivering events one by one. */
  lemma {:induction false} OnEventsIs(m: Master, events: seq<Event>, window: seq<Event>)
    requires !m.canceled && m.pools == Aggregate(window) && Ordered(events)
    requires events != [] ==> m.lastVer <= events[0].rev
    ensures var m' := OnEvents(m, events);
      m' == m.(lastVer := if events == [] then m.lastVer else events[|events| - 1].rev,
               pools := Aggregate(window + events))
  {
    if events == [] {
      assert window + events == window;
    } else {
      OnEventsIs(m, events[..|events| - 1], window);
      assert (window + events)[..|window + events| - 1] == window + events[..|events| - 1];
      hide Pooled;
    }
  }

  lemma {:induction false} AfterIsSorted(events: seq<Event>, rev: int)
    requires Ordered(events)
    ensures Ordered(After(events, rev))
    ensures forall e :: e in After(events, rev) ==> e in events && e.rev > rev
  {
    if events != [] {
      var init, last := events[..|events| - 1], events[|events| - 1];
      hide Ordered;
      OrderedInit(events);
      AfterIsSorted(init, rev);
      if last.rev > rev { OrderedAppend(After(init, rev), last); }
    }
  }

  lemma OrderedInit(events: seq<Event>)
    requires Ordered(events) && events != []
    ensures Ordered(events[..|events| - 1])
    ensures forall e :: e in events[..|events| - 1] ==> e in events && e.rev <= events[|events| - 1].rev
  {
  }

  lemma OrderedAppend(events: seq<Event>, last: Event)
    requires Ordered(events) && forall e :: e in events ==> e.rev <= last.rev
    ensures Ordered(events + [last])
  {
  }

  lemma {:induction false} AfterAfter(events: seq<Event>, rev: int, later: int)
    requires rev <= later
    ensures After(events, later) == After(After(events, rev), later)
  {
    if events != [] {
      var init, last := events[..|events| - 1], events[|events| - 1];
      AfterAfter(init, rev, later);
      var newer := if last.rev > rev then [last] else [];
      AfterAppend(After(init, rev), newer, later);
      assert [last][..0] == [];
    }
  }

  lemma {:induction false} AfterNone(events: seq<Event>, rev: int)
    requires forall e :: e in events ==> e.rev <= rev
    ensures After(events, rev) == []
  {
    if events != [] {
      AfterNone(events[..|events| - 1], rev);
    }
  }

  lemma CutRevisions(all: seq<Event>, n: nat)
    requires Ordered(all) && 0 < n <= |all| && (n < |all| ==> all[n - 1].rev < all[n].rev)
    ensures forall e :: e in all[..n] ==> e.rev <= all[n - 1].rev
    ensures forall e :: e in all[n..] ==> e.rev > all[n - 1].rev
  {
  }

  /** A cut at a revision boundary. */
  lemma CutAfter(all: seq<Event>, n: nat)
    requires Ordered(all) && 0 < n <= |all| && (n < |all| ==> all[n - 1].rev < all[n].rev)
    ensures After(all, all[n - 1].rev) == all[n..]
  {
    CutRevisions(all, n);
    hide After, Ordered;
    var rev, sent, rest := all[n - 1].rev, all[..n], all[n..];
    assert all == sent + rest;
    AfterAppend(sent, rest, rev);
    AfterNone(sent, rev);
    AfterAll(rest, rev);
  }

  /** The next n undelivered events come in order, after everything seen so far. */
  lemma NextEvents(w: World, n: nat)
    requires Timely(w) && 0 < n <= |Waiting(w)|
    ensures var now, last := Waiting(w)[..n], Waiting(w)[n - 1];
      Ordered(now) && w.master.lastVer <= now[0].rev && now[n - 1] == last && 0 < last.rev <= w.rev
  {
    AfterIsSorted(w.events, Start(w));
    hide After;
    assert Waiting(w)[0] in Waiting(w) && Waiting(w)[n - 1] in Waiting(w);
  }

  lemma DeliverKeepsTimely(w: World, n: nat)
    requires Timely(w) && Possible(w, DeliverStep(n))
    ensures var w', rev := Next(w, DeliverStep(n)), Waiting(w)[n - 1].rev;
      Timely(w') && w'.master == w.master.(lastVer := rev, pools := w'.master.pools) && rev > 0 &&
      (w.master.pools == Aggregate(w.window) ==> w'.master.pools == Aggregate(w.window + Waiting(w)[..n]))
  {
    hide OnEvents, After, Aggregate, Ordered;
    NextEvents(w, n);
    OnEventsLast(w.master, Waiting(w)[..n]);
    if w.master.pools == Aggregate(w.window) {
      OnEventsIs(w.master, Waiting(w)[..n], w.window);
    }
  }

  lemma {:induction false} OnEventsLast(m: Master, events: seq<Event>)
    requires !m.canceled && Ordered(events) && (events != [] ==> m.lastVer <= events[0].rev)
    ensures var m' := OnEvents(m, events);
      m' == m.(lastVer := if events == [] then m.lastVer else events[|events| - 1].rev, pools := m'.pools)
  {
    if events != [] {
      OnEventsLast(m, events[..|events| - 1]);
      hide Pooled;
    }
  }

  /** What waits after a delivery up to a revision boundary is exactly the rest. */
  lemma RestWaits(events: seq<Event>, rev: int, n: nat)
    requires Ordered(events) && 0 < n <= |After(events, rev)|
    requires n < |After(events, rev)| ==> After(events, rev)[n - 1].rev < After(events, rev)[n].rev
    ensures After(events, After(events, rev)[n - 1].rev) == After(events, rev)[n..]
  {
    var all := After(events, rev);
    AfterIsSorted(events, rev);
    assert all[n - 1] in all;
    hide After, Ordered;
    AfterAfter(events, rev, all[n - 1].rev);
    CutAfter(all, n);
  }

  lemma DeliverKeepsFaithful(w: World, n: nat, w': World)
    requires Faithful(w) && Ordered(w.events) && 0 < n <= |Waiting(w)|
    requires n < |Waiting(w)| ==> Waiting(w)[n - 1].rev < Waiting(w)[n].rev
    requires w'.events == w.events && w'.view == w.view && w'.window == w.window + Waiting(w)[..n]
    requires w'.master.pools == Aggregate(w'.window) && w'.master.lastVer == Waiting(w)[n - 1].rev >= 0
    ensures Faithful(w')
  {
    hide Replay, StoreAfter, Aggregate, ViewOf, After, Ordered;
    RestWaits(w.events, Start(w), n);
    assert w.window + Waiting(w)[..n] + Waiting(w)[n..] == w.window + Waiting(w);
  }

  lemma DeliverKeepsMirror(w: World, n: nat)
    requires MirrorInv(w) && Possible(w, DeliverStep(n))
    ensures MirrorInv(Next(w, DeliverStep(n)))
  {
    DeliverKeepsTimely(w, n);
    assert Ordered(w.events) && !w.master.full;
    hide Timely, Ordered, Faithful, OnEvents, After, Aggregate;
    assert Faithful(w) && w.master.pools == Aggregate(w.window) by { FaithfulPools(w); }
    DeliverKeepsFaithful(w, n, Next(w, DeliverStep(n)));
  }

  lemma FaithfulPools(w: World)
    requires Faithful(w)
    ensures w.master.pools == Aggregate(w.window)
  {
  }

  lemma {:induction false} TopIs(data: seq<(string, Stored)>)
    ensures TopRevision(data) >= -1 && forall p :: p in data ==> TopRevision(data) >= p.1.rev
    ensures TopRevision(data) == -1 || exists p :: p in data && TopRevision(data) == p.1.rev
  {
    if data != [] {
      var init, last := data[..|data| - 1], data[|data| - 1];
      TopIs(init);
      assert last in data && forall p :: p in data <==> p in init || p == last;
    }
  }

  lemma SnapshotTop(data: seq<(string, Stored)>, s: Store, lastVer: int)
    requires Lists(data, s) && lastVer >= -1
    ensures IsTop(Max(TopRevision(data), lastVer), s, lastVer)
  {
    TopIs(data);
    forall k | k in s ensures TopRevision(data) >= s[k].rev {
      assert (k, s[k]) in data;
    }
    if TopRevision(data) > lastVer {
      var p :| p in data && TopRevision(data) == p.1.rev;
      assert (p.0, p.1) in data;
      assert p.0 in s && s[p.0] == p.1;
    }
  }

  lemma {:induction false} ListedIs(data: seq<(string, Stored)>, s: Store)
    requires Lists(data, s)
    ensures Listed(data) == ViewOf(s)
    decreases |data|
  {
    hide MarkOf, EntryOf;
    if data == [] {
      assert forall p :: p in s.Items ==> (p.0, p.1) in data;
      assert forall k :: k in s.Keys ==> exists p :: p in s.Items && p.0 == k;
    } else {
      var init := data[..|data| - 1];
      var (k, x) := data[|data| - 1];
      var rest := s - {k};
      assert (k, x) in data;
      forall l, y ensures (l, y) in init <==> l in rest && rest[l] == y {
        assert (l, y) in data <==> (l, y) in init || (l, y) == (k, x);
        if (l, y) in init {
          var i :| 0 <= i < |init| && init[i] == (l, y);
          assert data[i].0 != data[|data| - 1].0;
        }
      }
      ListedIs(init, rest);
    }
  }

  lemma KeyHasRevision(w: World, data: seq<(string, Stored)>, k: string)
    requires Timely(w) && Lists(data, StoreAfter(w.events)) && k in StoreAfter(w.events)
    ensures TopRevision(data) > 0
  {
    hide StoreAfter, TopRevision;
    TopIs(data);
    assert (k, StoreAfter(w.events)[k]) in data;
    StoredRevisions(w.events, k);
  }

  /** A snapshot without revisions is empty. */
  lemma NoRevisionNoKey(w: World, data: seq<(string, Stored)>)
    requires Timely(w) && Lists(data, StoreAfter(w.events)) && TopRevision(data) < 0
    ensures StoreAfter(w.events) == map[]
  {
    hide StoreAfter, TopRevision, Lists, Timely;
    forall k ensures k !in StoreAfter(w.events) {
      if k in StoreAfter(w.events) { KeyHasRevision(w, data, k); }
    }
  }

  lemma EntireReadKeepsMirror(w: World, data: seq<(string, Stored)>)
    requires MirrorInv(w) && Possible(w, ReadStep(data)) && w.master.full
    ensures MirrorInv(Next(w, ReadStep(data)))
  {
    var w', s := Next(w, ReadStep(data)), StoreAfter(w.events);
    assert Aggregate([]) == NO_POOLS && w.events[..|w.events|] == w.events;
    ListedIs(data, s);
    if w'.master.lastVer < 0 {
      NoRevisionNoKey(w, data);
      AfterNone(w.events, w.rev);
      assert Replay(map[], []) == map[];
    } else {
      SnapshotTop(data, s, w.master.lastVer);
      hide StoreAfter, Replay, After, ViewOf, Listed, TopRevision, Aggregate, Lists;
      TopIsReached(w.events, |w.events|, w.master.lastVer, w'.master.lastVer, w.rev);
      SnapshotReplayConverges(w.events, |w.events|, w.master.lastVer, w'.master.lastVer, w.rev);
      assert [] + Waiting(w') == Waiting(w');
    }
  }

  lemma IncrementalReadKeepsMirror(w: World, data: seq<(string, Stored)>)
    requires MirrorInv(w) && Possible(w, ReadStep(data)) && !w.master.full
    requires w.master.canceled ==> w.master.lastVer >= 0
    ensures MirrorInv(Next(w, ReadStep(data)))
  {
    hide StoreAfter, Replay, After, ViewOf, Aggregate, Applied, NoLostDelete;
    var w' := Next(w, ReadStep(data));
    BatchIsReplay(w.view, w.window);
    DrainsNothing();
    ReplayAppend(w.view, w.window, Waiting(w));
    assert [] + Waiting(w') == Waiting(w');
  }

  lemma DrainsNothing()
    ensures Aggregate([]) == NO_POOLS && Applied(map[], Aggregate([])) == map[]
  {
  }

  /** A watch that is registered again before any revision was seen starts from now:
      the mirror stays faithful if and only if the store holds no known key then. */
  lemma BlindRestartIff(w: World, data: seq<(string, Stored)>)
    requires MirrorInv(w) && Possible(w, ReadStep(data))
    requires !w.master.full && w.master.canceled && w.master.lastVer < 0
    ensures MirrorInv(Next(w, ReadStep(data))) <==> ViewOf(StoreAfter(w.events)) == map[]
  {
    var w' := Next(w, ReadStep(data));
    assert w.master.pools == Aggregate([]) == NO_POOLS;
    DrainsNothing();
    AfterNone(w.events, w.rev);
    assert w'.view == map[] && w'.window + Waiting(w') == [];
    assert Replay(map[], []) == map[];
    hide StoreAfter, ViewOf, After, Aggregate, Applied;
  }

  /** The watch does not miss anything when it is registered again. */
  ghost predicate Sighted(w: World, step: Step) {
    step.ReadStep? && !w.master.full && w.master.canceled && w.master.lastVer < 0 ==>
      ViewOf(StoreAfter(w.events)) == map[]
  }

  lemma ReadKeepsMirror(w: World, data: seq<(string, Stored)>)
    requires MirrorInv(w) && Possible(w, ReadStep(data)) && Sighted(w, ReadStep(data))
    ensures MirrorInv(Next(w, ReadStep(data)))
  {
    hide MirrorInv, Possible, Next, StoreAfter, ViewOf;
    if w.master.full {
      EntireReadKeepsMirror(w, data);
    } else if w.master.canceled && w.master.lastVer < 0 {
      BlindRestartIff(w, data);
    } else {
      IncrementalReadKeepsMirror(w, data);
    }
  }

  lemma CompactKeepsMirror(w: World, at: int)
    requires MirrorInv(w) && 0 <= at <= w.rev
    ensures MirrorInv(Next(w, CompactStep(at)))
  {
    hide StoreAfter, Replay, After, ViewOf, Aggregate, Ordered;
  }

  lemma RpcErrorKeepsMirror(w: World)
    requires MirrorInv(w)
    ensures MirrorInv(Next(w, RpcErrorStep))
  {
    hide StoreAfter, Replay, After, ViewOf, Aggregate, Ordered;
  }

  ghost predicate Run(worlds: seq<World>, steps: seq<Step>) {
    |worlds| == |steps| + 1 &&
    forall i :: 0 <= i < |steps| ==> Possible(worlds[i], steps[i]) && worlds[i + 1] == Next(worlds[i], steps[i])
  }

  ghost predicate AllSighted(worlds: seq<World>, steps: seq<Step>)
    requires |worlds| == |steps| + 1
  {
    forall i :: 0 <= i < |steps| ==> Sighted(worlds[i], steps[i])
  }

  ghost predicate Initial(w: World) {
    w == World([], 0, Master(-1, true, true, NO_POOLS), map[], [], 0)
  }

  lemma StepKeepsMirror(w: World, step: Step)
    requires MirrorInv(w) && Possible(w, step) && Sighted(w, step)
    ensures MirrorInv(Next(w, step))
  {
    hide MirrorInv, Next, Sighted, Waiting;
    match step
    case CommitStep(events) => CommitKeepsMirror(w, events);
    case DeliverStep(n) => DeliverKeepsMirror(w, n);
    case CompactStep(at) => CompactKeepsMirror(w, at);
    case RpcErrorStep => RpcErrorKeepsMirror(w);
    case ReadStep(data) => ReadKeepsMirror(w, data);
  }

  lemma {:induction false} RunKeepsMirror(worlds: seq<World>, steps: seq<Step>)
    requires Run(worlds, steps) && Initial(worlds[0]) && AllSighted(worlds, steps)
    ensures MirrorInv(worlds[|steps|])
    decreases |steps|
  {
    hide MirrorInv, Possible, Next, Sighted;
    if steps == [] {
      InitialMirror(worlds[0]);
    } else {
      var n := |steps|;
      RunKeepsMirror(worlds[..n], steps[..n - 1]);
      assert worlds[n] == Next(worlds[n - 1], steps[n - 1]);
      StepKeepsMirror(worlds[n - 1], steps[n - 1]);
    }
  }

  lemma InitialMirror(w: World)
    requires Initial(w)
    ensures MirrorInv(w)
  {
  }

  /** Whatever commits, deliveries, stream errors, compactions and reads came before:
      once everything was delivered and read, the view is the store's contents. */
  lemma MirrorConverges(worlds: seq<World>, steps: seq<Step>)
    requires Run(worlds, steps) && Initial(worlds[0]) && AllSighted(worlds, steps)
    requires var last := worlds[|steps|]; !last.master.full && Waiting(last) == [] && last.window == []
    ensures worlds[|steps|].view == ViewOf(StoreAfter(worlds[|steps|].events))
  {
    RunKeepsMirror(worlds, steps);
    hide Run, StoreAfter, ViewOf, Timely, After, Aggregate, Initial;
  }

  /** Why AllSighted is needed: a first read of an empty store, a stream error, a put,
      and a read that registers the watch again. The put is never delivered. */
  lemma MissedPut(key: string, value: string) returns (worlds: seq<World>, steps: seq<Step>)
    requires MarkOf(key).Some?
    ensures Run(worlds, steps) && Initial(worlds[0])
    ensures var last := worlds[|steps|];
      !last.master.full && Waiting(last) == [] && last.window == [] && last.view != ViewOf(StoreAfter(last.events))
  {
    hide MarkOf, EntryOf;
    var put := PutEvent(key, value, 1);
    var read := World([], 0, Master(-1, false, false, NO_POOLS), map[], [], 0);
    var failed := read.(master := Master(-1, false, true, NO_POOLS));
    var behind := failed.(events := [put], rev := 1);
    var last := behind.(master := Master(-1, false, false, NO_POOLS), began := 1);
    worlds := [World([], 0, Master(-1, true, true, NO_POOLS), map[], [], 0), read, failed, behind, last];
    steps := [ReadStep([]), RpcErrorStep, CommitStep([put]), ReadStep([])];
    BlindReads(worlds[0], behind);
    assert [] + [put] == [put];
    assert Possible(read, RpcErrorStep) && Next(read, RpcErrorStep) == failed;
    assert Possible(failed, CommitStep([put])) && Next(failed, CommitStep([put])) == behind;
    AfterNone([put], 1);
    PutIsStored(put);
    hide Possible, Next, StoreAfter, ViewOf, After;
  }

  lemma BlindReads(first: World, behind: World)
    requires first == World([], 0, Master(-1, true, true, NO_POOLS), map[], [], 0)
    requires behind.master == Master(-1, false, true, NO_POOLS) && behind.rev == 1
    requires behind.view == map[] && behind.window == []
    ensures Possible(first, ReadStep([])) &&
      Next(first, ReadStep([])) == first.(master := Master(-1, false, false, NO_POOLS))
    ensures Possible(behind, ReadStep([])) &&
      Next(behind, ReadStep([])) == behind.(master := Master(-1, false, false, NO_POOLS), began := 1)
  {
    assert NO_POOLS.del == {};
    assert Applied(map[], NO_POOLS) == map[];
  }

  lemma PutIsStored(put: Event)
    requires put.PutEvent? && MarkOf(put.key).Some?
    ensures put.key in ViewOf(StoreAfter([put]))
  {
    assert [put][..0] == [];
    hide MarkOf, EntryOf;
  }
}
