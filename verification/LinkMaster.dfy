// The agent's mirror of etcd: a snapshot, a watch from the last revision seen,
// pools that aggregate events between two reads, and a full resync after a
// compaction. The view is what the agent's zoo is fed with.

module LinkMaster {
  import opened Common
  import opened TextCodec
  import opened Records

  // ----- Keys, values and events -----

  const MARKS := ["lsp", "lrp", "lsr", "lnat", "chassis", "LS", "LR", "cmd"]

  /** parse_key: the parent directory is the type, if it is a known one. */
  function MarkOf(key: string): Option<string> {
    var parts := Split(key, '/');
    if |parts| >= 2 && parts[|parts| - 2] in MARKS then Some(parts[|parts| - 2]) else None
  }

  /** The type of a key is the part before its last one, if that is one of these words. */
  lemma MarkMeans(dir: string, word: string, name: string)
    requires '/' !in word && '/' !in name
    ensures MarkOf(name) == None && MarkOf(dir + "/" + word + "/" + name) == MarkOf(word + "/" + name)
    ensures MarkOf(word + "/" + name) ==
      if word in {"lsp", "lrp", "lsr", "lnat", "chassis", "LS", "LR", "cmd"} then Some(word) else None
  {
    SplitOne(word, '/');
    SplitOne(name, '/');
    SplitAppend(word, name, '/');
    SplitAppend(dir, word + "/" + name, '/');
    assert dir + "/" + word + "/" + name == dir + "/" + (word + "/" + name);
    hide Split;
    Words(word);
  }

  lemma Words(word: string)
    ensures word in MARKS <==> word in {"lsp", "lrp", "lsr", "lnat", "chassis", "LS", "LR", "cmd"}
  {
    assert MARKS[0] == "lsp" && MARKS[1] == "lrp" && MARKS[2] == "lsr" && MARKS[3] == "lnat";
    assert MARKS[4] == "chassis" && MARKS[5] == "LS" && MARKS[6] == "LR" && MARKS[7] == "cmd";
  }

  type Entry = map<string, string>

  /** What a pool holds for a put: the parsed record and its type. */
  function EntryOf(key: string, value: string): Entry
    requires MarkOf(key).Some?
  {
    Parsed(Split(value, ','))["TYPE" := MarkOf(key).value]
  }

  datatype Event = PutEvent(key: string, value: string, rev: int) | DeleteEvent(key: string, rev: int)

  /** The mirrored keys and their entries. */
  type View = map<string, Entry>

  function Replayed(view: View, e: Event): View {
    if MarkOf(e.key).None? then view
    else if e.PutEvent? then view[e.key := EntryOf(e.key, e.value)]
    else view - {e.key}
  }

  /** Event-by-event replay. */
  function Replay(view: View, events: seq<Event>): View {
    if events == [] then view else Replayed(Replay(view, events[..|events| - 1]), events[|events| - 1])
  }

  // ----- The store -----

  datatype Stored = Stored(value: string, rev: int)

  type Store = map<string, Stored>

  function Stepped(s: Store, e: Event): Store {
    match e
    case PutEvent(k, v, r) => s[k := Stored(v, r)]
    case DeleteEvent(k, _) => s - {k}
  }

  /** The store after a history of events. */
  function StoreAfter(events: seq<Event>): Store {
    if events == [] then map[] else Stepped(StoreAfter(events[..|events| - 1]), events[|events| - 1])
  }

  function ViewOf(s: Store): View {
    map k | k in s && MarkOf(k).Some? :: EntryOf(k, s[k].value)
  }

  /** Revisions never go back; keys of one transaction share one. */
  ghost predicate Ordered(events: seq<Event>) {
    forall i, j :: 0 <= i < j < |events| ==> events[i].rev <= events[j].rev
  }

  function After(events: seq<Event>, rev: int): seq<Event> {
    if events == [] then []
    else
      After(events[..|events| - 1], rev) +
      if events[|events| - 1].rev > rev then [events[|events| - 1]] else []
  }

  // ----- Replay depends on the last event of a key -----

  /** The events on one key. */
  function On(events: seq<Event>, k: string): seq<Event> {
    if events == [] then []
    else
      On(events[..|events| - 1], k) + if events[|events| - 1].key == k then [events[|events| - 1]] else []
  }

  /** The entry of k after replay: the last event on k decides, or the view does. */
  function EntryAfter(view: View, events: seq<Event>, k: string): Option<Entry> {
    var own := On(events, k);
    if own == [] then if k in view then Some(view[k]) else None
    else if own[|own| - 1].PutEvent? && MarkOf(k).Some? then Some(EntryOf(k, own[|own| - 1].value)) else None
  }

  function At(view: View, k: string): Option<Entry> {
    if k in view then Some(view[k]) else None
  }

  lemma {:induction false} OnIsAbout(events: seq<Event>, k: string)
    ensures forall e :: e in On(events, k) <==> e in events && e.key == k
  {
    if events != [] {
      var init, last := events[..|events| - 1], events[|events| - 1];
      OnIsAbout(init, k);
      assert forall e :: e in events <==> e in init || e == last;
    }
  }

  lemma {:induction false} ReplayAt(view: View, events: seq<Event>, k: string)
    requires MarkOf(k).Some?
    ensures At(Replay(view, events), k) == EntryAfter(view, events, k)
  {
    hide MarkOf, EntryOf;
    if events != [] {
      ReplayAt(view, events[..|events| - 1], k);
      OnIsAbout(events, k);
    }
  }

  lemma {:induction false} UnknownKeysStay(view: View, events: seq<Event>, k: string)
    requires MarkOf(k).None?
    ensures At(Replay(view, events), k) == At(view, k)
  {
    hide MarkOf, EntryOf;
    if events != [] {
      UnknownKeysStay(view, events[..|events| - 1], k);
    }
  }

  lemma {:induction false} AfterKeepsLast(events: seq<Event>, rev: int, k: string)
    requires Ordered(events)
    ensures On(After(events, rev), k) == After(On(events, k), rev)
  {
    if events != [] {
      var init, last := events[..|events| - 1], events[|events| - 1];
      AfterKeepsLast(init, rev, k);
      var newer, own := if last.rev > rev then [last] else [], if last.key == k then [last] else [];
      OnAppend(After(init, rev), newer, k);
      AfterAppend(On(init, k), own, rev);
      assert [last][..0] == [];
    }
  }

  lemma {:induction false} OnAppend(a: seq<Event>, b: seq<Event>, k: string)
    ensures On(a + b, k) == On(a, k) + On(b, k)
  {
    if b == [] {
      assert a + b == a;
    } else {
      OnAppend(a, b[..|b| - 1], k);
      assert (a + b)[..|a + b| - 1] == a + b[..|b| - 1];
    }
  }

  lemma {:induction false} AfterAppend(a: seq<Event>, b: seq<Event>, rev: int)
    ensures After(a + b, rev) == After(a, rev) + After(b, rev)
  {
    if b == [] {
      assert a + b == a;
    } else {
      AfterAppend(a, b[..|b| - 1], rev);
      assert (a + b)[..|a + b| - 1] == a + b[..|b| - 1];
    }
  }

  lemma {:induction false} ReplayAppend(view: View, a: seq<Event>, b: seq<Event>)
    ensures Replay(view, a + b) == Replay(Replay(view, a), b)
  {
    hide Replayed;
    if b == [] {
      assert a + b == a;
    } else {
      ReplayAppend(view, a, b[..|b| - 1]);
      assert (a + b)[..|a + b| - 1] == a + b[..|b| - 1];
    }
  }

  /** The store agrees with the last event on every key. */
  lemma {:induction false} StoreAt(events: seq<Event>, k: string)
    ensures var own := On(events, k);
      if own == [] then k !in StoreAfter(events)
      else
        var last := own[|own| - 1];
        last.key == k &&
        if last.PutEvent? then k in StoreAfter(events) && StoreAfter(events)[k] == Stored(last.value, last.rev)
        else k !in StoreAfter(events)
  {
    if events != [] {
      StoreAt(events[..|events| - 1], k);
    }
  }

  // ----- Snapshot and replay -----

  /** The events after a revision end like the whole history, or there are none. */
  lemma {:induction false} AfterEndsAlike(events: seq<Event>, rev: int)
    requires Ordered(events)
    ensures var tail := After(events, rev);
      if tail == [] then forall e :: e in events ==> e.rev <= rev
      else events != [] && tail[|tail| - 1] == events[|events| - 1] && events[|events| - 1].rev > rev
  {
    if events != [] {
      AfterEndsAlike(events[..|events| - 1], rev);
    }
  }

  lemma {:induction false} OnOrdered(events: seq<Event>, k: string)
    requires Ordered(events)
    ensures Ordered(On(events, k))
  {
    if events != [] {
      OnOrdered(events[..|events| - 1], k);
      OnIsAbout(events[..|events| - 1], k);
    }
  }

  lemma NoneOn(events: seq<Event>, k: string)
    requires forall e :: e in events ==> e.key != k
    ensures On(events, k) == []
  {
    OnIsAbout(events, k);
    if On(events, k) != [] {
      assert On(events, k)[0] in On(events, k);
    }
  }

  /** A key without events after L has all its events in the snapshot. */
  lemma QuietKey(events: seq<Event>, n: nat, L: int, R: int, k: string)
    requires Ordered(events) && n <= |events| && L <= R && After(On(events, k), L) == []
    requires forall i :: n <= i < |events| ==> events[i].rev > R
    ensures On(events[..n], k) == On(events, k)
  {
    hide After, On;
    OnOrdered(events, k);
    AfterEndsAlike(On(events, k), L);
    OnIsAbout(events, k);
    assert events == events[..n] + events[n..];
    OnAppend(events[..n], events[n..], k);
    forall e | e in events[n..] ensures e.key != k {
      assert e in events && e.rev > R;
    }
    NoneOn(events[n..], k);
  }

  /** What the mirror holds for k after the snapshot of the first n events and the
      replay of everything after L. */
  lemma SnapshotReplayAt(events: seq<Event>, n: nat, L: int, R: int, k: string)
    requires Ordered(events) && n <= |events| && L <= R && MarkOf(k).Some?
    requires forall i :: n <= i < |events| ==> events[i].rev > R
    ensures At(Replay(ViewOf(StoreAfter(events[..n])), After(events, L)), k) == At(ViewOf(StoreAfter(events)), k)
  {
    hide StoreAfter, Replay, On, After, MarkOf, EntryOf;
    ReplayAt(ViewOf(StoreAfter(events[..n])), After(events, L), k);
    AfterKeepsLast(events, L, k);
    StoreAt(events, k);
    if After(On(events, k), L) == [] {
      QuietKey(events, n, L, R, k);
      StoreAt(events[..n], k);
    } else {
      OnOrdered(events, k);
      AfterEndsAlike(On(events, k), L);
    }
  }

  /** The revision that a snapshot sets: the largest of its mod revisions and lastVer. */
  ghost predicate IsTop(L: int, s: Store, lastVer: int) {
    L >= lastVer && (forall k :: k in s ==> L >= s[k].rev) && (L == lastVer || exists k :: k in s && L == s[k].rev)
  }

  lemma {:induction false} StoredRevisions(events: seq<Event>, k: string)
    requires k in StoreAfter(events)
    ensures exists e :: e in events && e.rev == StoreAfter(events)[k].rev
  {
    var init, last := events[..|events| - 1], events[|events| - 1];
    if last.key != k {
      StoredRevisions(init, k);
      var e :| e in init && e.rev == StoreAfter(init)[k].rev;
      assert e in events;
    } else {
      assert last in events;
    }
  }

  lemma TopIsReached(events: seq<Event>, n: nat, lastVer: int, L: int, R: int)
    requires n <= |events| && lastVer <= R && IsTop(L, StoreAfter(events[..n]), lastVer)
    requires forall i :: 0 <= i < n ==> events[i].rev <= R
    ensures L <= R
  {
    if L > lastVer {
      var k :| k in StoreAfter(events[..n]) && L == StoreAfter(events[..n])[k].rev;
      StoredRevisions(events[..n], k);
      var e :| e in events[..n] && e.rev == L;
    }
  }

  /** Snapshot at revision R, replay of every event after L: the store at the end of
      the history, although the events of (L, R] are applied a second time. */
  lemma SnapshotReplayConverges(events: seq<Event>, n: nat, lastVer: int, L: int, R: int)
    requires Ordered(events) && n <= |events| && lastVer <= R
    requires forall i :: 0 <= i < n ==> events[i].rev <= R
    requires forall i :: n <= i < |events| ==> events[i].rev > R
    requires IsTop(L, StoreAfter(events[..n]), lastVer)
    ensures Replay(ViewOf(StoreAfter(events[..n])), After(events, L)) == ViewOf(StoreAfter(events))
  {
    TopIsReached(events, n, lastVer, L, R);
    var v, w := Replay(ViewOf(StoreAfter(events[..n])), After(events, L)), ViewOf(StoreAfter(events));
    forall k ensures At(v, k) == At(w, k) {
      if MarkOf(k).Some? {
        SnapshotReplayAt(events, n, L, R, k);
      } else {
        UnknownKeysStay(ViewOf(StoreAfter(events[..n])), After(events, L), k);
      }
    }
    SameEntries(v, w);
  }

  lemma SameEntries(v: View, w: View)
    requires forall k :: At(v, k) == At(w, k)
    ensures v == w
  {
    forall k ensures (k in v <==> k in w) && (k in v ==> v[k] == w[k]) {
      assert At(v, k) == At(w, k);
    }
  }

  // ----- Pools -----

  datatype Pools = Pools(add: View, del: set<string>)

  const NO_POOLS := Pools(map[], {})

  /** watch_callback on one event: a delete cancels a pooled put, a put a pooled delete. */
  function Pooled(p: Pools, e: Event): Pools {
    if MarkOf(e.key).None? then p
    else if e.DeleteEvent? then
      if e.key in p.add then p.(add := p.add - {e.key}) else p.(del := p.del + {e.key})
    else Pools(p.add[e.key := EntryOf(e.key, e.value)], p.del - {e.key})
  }

  function Aggregate(events: seq<Event>): Pools {
    if events == [] then NO_POOLS else Pooled(Aggregate(events[..|events| - 1]), events[|events| - 1])
  }

  /** update_entity: deletes first, then adds. */
  function Applied(view: View, p: Pools): View {
    (view - p.del) + p.add
  }

  lemma {:induction false} PoolsStayDisjoint(events: seq<Event>)
    ensures Aggregate(events).add.Keys !! Aggregate(events).del
  {
    hide MarkOf, EntryOf;
    if events != [] {
      PoolsStayDisjoint(events[..|events| - 1]);
    }
  }

  /** The last put on k was cancelled by the delete that follows it. */
  predicate Cancelled(events: seq<Event>, k: string) {
    var own := On(events, k);
    |own| >= 2 && own[|own| - 2].PutEvent? && own[|own| - 1].DeleteEvent?
  }

  datatype Status = Untouched | Added(entry: Entry) | Deleted

  function StatusOf(p: Pools, k: string): Status {
    if k in p.add then Added(p.add[k]) else if k in p.del then Deleted else Untouched
  }

  lemma PooledStatus(p: Pools, e: Event, k: string)
    requires MarkOf(k).Some? && p.add.Keys !! p.del
    ensures StatusOf(Pooled(p, e), k) ==
      if e.key != k then StatusOf(p, k)
      else if e.PutEvent? then Added(EntryOf(k, e.value))
      else if StatusOf(p, k).Added? then Untouched else Deleted
  {
    hide MarkOf, EntryOf;
  }

  lemma {:induction false} PoolsAt(events: seq<Event>, k: string)
    requires MarkOf(k).Some?
    ensures StatusOf(Aggregate(events), k) ==
      var own := On(events, k);
      if own == [] then Untouched
      else if own[|own| - 1].PutEvent? then Added(EntryOf(k, own[|own| - 1].value))
      else if Cancelled(events, k) then Untouched else Deleted
  {
    if events != [] {
      var init, last := events[..|events| - 1], events[|events| - 1];
      PoolsAt(init, k);
      PoolsStayDisjoint(init);
      PooledStatus(Aggregate(init), last, k);
      hide MarkOf, EntryOf, StatusOf, Pooled;
    }
  }

  /** A drained batch agrees with event-by-event replay on every key, except one that
      the view already held and whose last put was cancelled by a later delete. */
  lemma BatchExactIff(view: View, events: seq<Event>, k: string)
    requires MarkOf(k).Some?
    ensures At(Applied(view, Aggregate(events)), k) == At(Replay(view, events), k) <==>
      !(k in view && Cancelled(events, k))
  {
    PoolsAt(events, k);
    ReplayAt(view, events, k);
    hide Aggregate, Replay, On, MarkOf, EntryOf;
  }

  lemma {:induction false} PoolsKnownKeys(events: seq<Event>, k: string)
    requires MarkOf(k).None?
    ensures k !in Aggregate(events).add && k !in Aggregate(events).del
  {
    hide MarkOf, EntryOf;
    if events != [] {
      PoolsKnownKeys(events[..|events| - 1], k);
    }
  }

  /** No delete is lost when this window is drained into the view. */
  ghost predicate NoLostDelete(view: View, window: seq<Event>) {
    forall k :: k in view && MarkOf(k).Some? ==> !Cancelled(window, k)
  }

  lemma BatchIsReplay(view: View, window: seq<Event>)
    requires NoLostDelete(view, window)
    ensures Applied(view, Aggregate(window)) == Replay(view, window)
  {
    var v, w := Applied(view, Aggregate(window)), Replay(view, window);
    forall k ensures At(v, k) == At(w, k) {
      if MarkOf(k).Some? {
        BatchExactIff(view, window, k);
      } else {
        PoolsKnownKeys(window, k);
        UnknownKeysStay(view, window, k);
      }
    }
    SameEntries(v, w);
  }

  /** Port "p" of switch "s": /entity_view/LS/s/lsp/p. */
  const PORT_PARTS := ["", "entity_view", "LS", "s", "lsp", "p"]
  const PORT_PATH := Join(PORT_PARTS, '/')

  /** The stated case is real: the port was deleted, but the view keeps it. */
  lemma LostDelete()
    ensures var k, view := PORT_PATH, map[PORT_PATH := map["mac" := "a", "TYPE" := "lsp"]];
      var window := [PutEvent(k, "mac=b", 7), DeleteEvent(k, 8)];
      MarkOf(k).Some? && k in Applied(view, Aggregate(window)) && k !in Replay(view, window)
  {
    var k, view := PORT_PATH, map[PORT_PATH := map["mac" := "a", "TYPE" := "lsp"]];
    var e, d := PutEvent(k, "mac=b", 7), DeleteEvent(k, 8);
    PathOfPort();
    hide Join;
    assert [e, d][..1] == [e] && [e][..0] == [];
    hide MarkOf, EntryOf;
  }

  lemma PathOfPort()
    ensures MarkOf(PORT_PATH) == Some("lsp")
  {
    hide Split, Join;
    PartsHoldNoSlash();
    SplitJoin(PORT_PARTS, '/');
    assert "lsp" in MARKS by { assert MARKS[0] == "lsp"; }
    assert PORT_PARTS[4] == "lsp";
  }

  lemma PartsHoldNoSlash()
    ensures forall s :: s in PORT_PARTS ==> '/' !in s
  {
  }
}
