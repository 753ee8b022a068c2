// From facts to installed flows: summed states become additions and deletions,
// and the table that results is that of a full recomputation.

module FlowSync {
  import opened Entities
  import opened EntityZoo
  import opened FlowRules

  // ----- Sums of states -----

  function Sum(states: seq<int>): int {
    if states == [] then 0 else states[0] + Sum(states[1..])
  }

  function Count(states: seq<int>, state: int): nat {
    if states == [] then 0 else (if states[0] == state then 1 else 0) + Count(states[1..], state)
  }

  ghost predicate States(states: seq<int>) {
    forall i :: 0 <= i < |states| ==> states[i] in {STATE_NO, STATE_ADD, STATE_DEL}
  }

  lemma {:induction false} SumByCounts(states: seq<int>)
    requires States(states)
    ensures Sum(states) == Count(states, STATE_ADD) - 100 * Count(states, STATE_DEL)
    ensures Count(states, STATE_ADD) + Count(states, STATE_DEL) <= |states|
  {
    if states != [] {
      SumByCounts(states[1..]);
    }
  }

  lemma {:induction false} CountedIff(states: seq<int>, state: int)
    ensures Count(states, state) > 0 <==> state in states
  {
    if states != [] {
      CountedIff(states[1..], state);
    }
  }

  /** A negative sum without additions: abs(state) % State_DEL == 0. */
  predicate IsDeletion(state: int) {
    state < 0 && -state % 100 == 0
  }

  /** Sign and remainder of the sum tell apart what the states were. */
  lemma SumDecodes(states: seq<int>)
    requires States(states) && |states| < 100
    ensures Sum(states) > 0 <==> STATE_ADD in states && STATE_DEL !in states
    ensures IsDeletion(Sum(states)) <==> STATE_DEL in states && STATE_ADD !in states
    ensures Sum(states) == 0 <==> STATE_ADD !in states && STATE_DEL !in states
  {
    SumByCounts(states);
    CountedIff(states, STATE_ADD);
    CountedIff(states, STATE_DEL);
    hide Sum, Count;
    CountsDecode(Count(states, STATE_ADD), Count(states, STATE_DEL));
  }

  lemma CountsDecode(adds: nat, dels: nat)
    requires adds + dels < 100
    ensures adds - 100 * dels > 0 <==> adds > 0 && dels == 0
    ensures IsDeletion(adds - 100 * dels) <==> dels > 0 && adds == 0
    ensures adds - 100 * dels == 0 <==> adds == 0 && dels == 0
  {
    if adds > 0 && dels > 0 {
      assert 100 * dels - adds == 100 * (dels - 1) + (100 - adds);
    }
  }

  // ----- Flows of a round -----

  /** A row that pyDatalog hands to convert_tuple2flow. */
  datatype LFlow = LFlow(key: FlowKey, action: Action, state: int)

  datatype OvsFlow = OvsFlow(key: FlowKey, action: Action)

  function FactFor(a: Atom, state: int): Fact {
    Fact(a.props, a.ilk, state)
  }

  /** The joined facts are these atoms with these states. */
  ghost predicate Stated(facts: set<Fact>, atoms: seq<Atom>, states: seq<int>) {
    |states| == |atoms| && forall i :: 0 <= i < |states| ==> FactFor(atoms[i], states[i]) in facts
  }

  ghost predicate Instance(facts: set<Fact>, d: Derivation, states: seq<int>, sys: Uuid) {
    Joins(d, sys) && Stated(facts, Atoms(d), states)
  }

  ghost predicate RowOf(facts: set<Fact>, d: Derivation, states: seq<int>, sys: Uuid, t: LFlow) {
    Instance(facts, d, states, sys) && Key(d, sys) == t.key && ActionOf(d, sys) == t.action && Sum(states) == t.state
  }

  ghost predicate Yields(facts: set<Fact>, sys: Uuid, t: LFlow) {
    t.state != 0 && exists d, states :: RowOf(facts, d, states, sys, t)
  }

  /** What evaluating the rules returns: every row with a non-zero state, in any order. */
  ghost predicate Enumerates(lflows: seq<LFlow>, facts: set<Fact>, sys: Uuid) {
    forall t :: t in lflows <==> Yields(facts, sys, t)
  }

  function FlowsToAdd(lflows: seq<LFlow>): seq<OvsFlow> {
    if lflows == [] then []
    else
      var last := lflows[|lflows| - 1];
      FlowsToAdd(lflows[..|lflows| - 1]) + if last.state > 0 then [OvsFlow(last.key, last.action)] else []
  }

  function FlowsToDel(lflows: seq<LFlow>): seq<FlowKey> {
    if lflows == [] then []
    else
      var last := lflows[|lflows| - 1];
      FlowsToDel(lflows[..|lflows| - 1]) + if IsDeletion(last.state) then [last.key] else []
  }

  method ConvertTuple2Flow(lflows: seq<LFlow>) returns (adds: seq<OvsFlow>, dels: seq<FlowKey>)
    ensures adds == FlowsToAdd(lflows) && dels == FlowsToDel(lflows)
  {
    adds, dels := [], [];
    for i := 0 to |lflows|
      invariant adds == FlowsToAdd(lflows[..i]) && dels == FlowsToDel(lflows[..i])
    {
      var t := lflows[i];
      assert lflows[..i + 1][..i] == lflows[..i];
      if t.state > 0 {
        adds := adds + [OvsFlow(t.key, t.action)];
      } else if t.state < 0 {
        if -t.state % 100 != 0 {
          continue;
        }
        dels := dels + [t.key];
      }
    }
    assert lflows[..|lflows|] == lflows;
  }

  lemma {:induction false} AddedIff(lflows: seq<LFlow>, f: OvsFlow)
    ensures f in FlowsToAdd(lflows) <==> exists t :: t in lflows && t.state > 0 && f == OvsFlow(t.key, t.action)
  {
    if lflows != [] {
      var init, last := lflows[..|lflows| - 1], lflows[|lflows| - 1];
      AddedIff(init, f);
      assert forall t :: t in lflows <==> t in init || t == last;
    }
  }

  lemma {:induction false} DeletedIff(lflows: seq<LFlow>, k: FlowKey)
    ensures k in FlowsToDel(lflows) <==>
      exists t :: t in lflows && IsDeletion(t.state) && k == t.key
  {
    if lflows != [] {
      var init, last := lflows[..|lflows| - 1], lflows[|lflows| - 1];
      DeletedIff(init, k);
      assert forall t :: t in lflows <==> t in init || t == last;
    }
  }

  // ----- The switch -----

  type FlowTable = map<FlowKey, Action>

  function DelFlows(table: FlowTable, dels: seq<FlowKey>): FlowTable {
    table - set k | k in dels
  }

  function AddFlows(table: FlowTable, adds: seq<OvsFlow>): FlowTable {
    if adds == [] then table
    else AddFlows(table, adds[..|adds| - 1])[adds[|adds| - 1].key := adds[|adds| - 1].action]
  }

  /** commit_flows: the batch of deletions strictly before the batch of additions. */
  function Commit(table: FlowTable, lflows: seq<LFlow>): FlowTable {
    AddFlows(DelFlows(table, FlowsToDel(lflows)), FlowsToAdd(lflows))
  }

  ghost predicate AddsKey(adds: seq<OvsFlow>, k: FlowKey) {
    exists a :: OvsFlow(k, a) in adds
  }

  lemma {:induction false} AddFlowsAt(table: FlowTable, adds: seq<OvsFlow>, k: FlowKey)
    ensures AddsKey(adds, k) ==>
      k in AddFlows(table, adds) && OvsFlow(k, AddFlows(table, adds)[k]) in adds
    ensures !AddsKey(adds, k) ==>
      (k in AddFlows(table, adds) <==> k in table) && (k in table ==> AddFlows(table, adds)[k] == table[k])
  {
    if adds != [] {
      var init, last := adds[..|adds| - 1], adds[|adds| - 1];
      AddFlowsAt(table, init, k);
      assert forall f :: f in adds <==> f in init || f == last;
      assert last == OvsFlow(last.key, last.action);
    }
  }

  // ----- Full recomputation -----

  ghost predicate DerivedBy(s: set<Atom>, sys: Uuid, d: Derivation, k: FlowKey, a: Action) {
    Joins(d, sys) && Over(d, s) && Key(d, sys) == k && ActionOf(d, sys) == a
  }

  ghost predicate Derived(s: set<Atom>, sys: Uuid, k: FlowKey, a: Action) {
    exists d :: DerivedBy(s, sys, d, k, a)
  }

  /** The table holds exactly the flows that the rules derive from s. */
  ghost predicate IsFullTable(table: FlowTable, s: set<Atom>, sys: Uuid) {
    forall k, a :: Derived(s, sys, k, a) <==> k in table && table[k] == a
  }

  function WithState(facts: set<Fact>, state: int): set<Atom> {
    set f | f in facts && f.state == state :: Atom(f.props, f.ilk)
  }

  /** The facts of a round: settled, new and deleted ones, and what the previous
      round had installed. */
  datatype Delta = Delta(no: set<Atom>, add: set<Atom>, del: set<Atom>, before: set<Atom>)

  ghost predicate Splits(facts: set<Fact>, v: Delta) {
    (forall f :: f in facts ==> f.state in {STATE_NO, STATE_ADD, STATE_DEL}) &&
    v.no == WithState(facts, STATE_NO) && v.add == WithState(facts, STATE_ADD) && v.del == WithState(facts, STATE_DEL)
  }

  ghost predicate Sound(v: Delta, sys: Uuid) {
    v.no !! v.del && v.no <= v.before <= v.no + v.del &&
    Pinned(v.no, v.no + v.del) && Config(v.no + v.del, sys) &&
    Pinned(v.no + v.add, v.no + v.add) && Config(v.no + v.add, sys)
  }

  predicate AllIn(atoms: seq<Atom>, s: set<Atom>) {
    forall i :: 0 <= i < |atoms| ==> atoms[i] in s
  }

  lemma StatedIn(facts: set<Fact>, v: Delta, atoms: seq<Atom>, states: seq<int>)
    requires Splits(facts, v) && Stated(facts, atoms, states)
    ensures States(states)
    ensures STATE_DEL !in states ==> AllIn(atoms, v.no + v.add)
    ensures STATE_ADD !in states ==> AllIn(atoms, v.no + v.del)
    ensures AllIn(atoms, v.no + v.add + v.del)
    ensures STATE_DEL in states ==> exists i :: 0 <= i < |atoms| && atoms[i] in v.del
  {
    forall i | 0 <= i < |states|
      ensures states[i] in {STATE_NO, STATE_ADD, STATE_DEL}
      ensures states[i] == STATE_NO ==> atoms[i] in v.no
      ensures states[i] == STATE_ADD ==> atoms[i] in v.add
      ensures states[i] == STATE_DEL ==> atoms[i] in v.del
    {
      var f := FactFor(atoms[i], states[i]);
      assert f in facts && Atom(f.props, f.ilk) == atoms[i];
    }
  }

  /** Facts over two sets have states: those in `first` get its state, the others
      the state of `second`. */
  lemma StatesFor(
    facts: set<Fact>, first: set<Atom>, state0: int, second: set<Atom>, state1: int, atoms: seq<Atom>)
    returns (states: seq<int>)
    requires first == WithState(facts, state0) && second == WithState(facts, state1) && AllIn(atoms, first + second)
    ensures Stated(facts, atoms, states)
    ensures forall i :: 0 <= i < |states| ==> states[i] == if atoms[i] in first then state0 else state1
    ensures !AllIn(atoms, first) ==> state1 in states
    ensures Meets(atoms, first) ==> state0 in states
  {
    states := seq(|atoms|, i requires 0 <= i < |atoms| => if atoms[i] in first then state0 else state1);
    forall i | 0 <= i < |states| ensures FactFor(atoms[i], states[i]) in facts {
      assert atoms[i] in first + second;
    }
    if !AllIn(atoms, first) {
      var j :| 0 <= j < |atoms| && atoms[j] !in first;
      assert states[j] == state1;
    }
    if Meets(atoms, first) {
      var j :| 0 <= j < |atoms| && atoms[j] in first;
      assert states[j] == state0;
    }
  }

  predicate Meets(atoms: seq<Atom>, s: set<Atom>) {
    exists i :: 0 <= i < |atoms| && atoms[i] in s
  }

  lemma InstanceStates(facts: set<Fact>, v: Delta, d: Derivation, states: seq<int>, sys: Uuid)
    requires Splits(facts, v) && Instance(facts, d, states, sys)
    ensures States(states) && |states| < 100
    ensures STATE_DEL !in states ==> Over(d, v.no + v.add)
    ensures STATE_ADD !in states ==> Over(d, v.no + v.del)
    ensures STATE_DEL in states ==> exists i :: 0 <= i < |Atoms(d)| && Atoms(d)[i] in v.del
  {
    StatedIn(facts, v, Atoms(d), states);
    hide Joins, WithState;
  }

  lemma InstanceFor(facts: set<Fact>, no: set<Atom>, extra: set<Atom>, state: int, d: Derivation, sys: Uuid)
    returns (states: seq<int>)
    requires no == WithState(facts, STATE_NO) && extra == WithState(facts, state)
    requires Joins(d, sys) && Over(d, no + extra) && !Over(d, no)
    ensures Instance(facts, d, states, sys) && state in states
    ensures forall i :: 0 <= i < |states| ==> states[i] == STATE_NO || states[i] == state
  {
    hide Joins, WithState, Atoms;
    states := StatesFor(facts, no, STATE_NO, extra, state, Atoms(d));
  }

  lemma AddsAreDerived(lflows: seq<LFlow>, facts: set<Fact>, v: Delta, sys: Uuid, k: FlowKey, a: Action)
    requires Splits(facts, v) && Enumerates(lflows, facts, sys) && OvsFlow(k, a) in FlowsToAdd(lflows)
    ensures Derived(v.no + v.add, sys, k, a)
  {
    AddedIff(lflows, OvsFlow(k, a));
    var t :| t in lflows && t.state > 0 && OvsFlow(k, a) == OvsFlow(t.key, t.action);
    var d, states :| RowOf(facts, d, states, sys, t);
    InstanceStates(facts, v, d, states, sys);
    SumDecodes(states);
    assert DerivedBy(v.no + v.add, sys, d, k, a);
  }

  lemma NewIsAdded(lflows: seq<LFlow>, facts: set<Fact>, v: Delta, sys: Uuid, d: Derivation)
    requires Splits(facts, v) && Enumerates(lflows, facts, sys)
    requires Joins(d, sys) && Over(d, v.no + v.add) && !Over(d, v.no)
    ensures OvsFlow(Key(d, sys), ActionOf(d, sys)) in FlowsToAdd(lflows)
  {
    hide Joins, Key, ActionOf, WithState;
    var states := InstanceFor(facts, v.no, v.add, STATE_ADD, d, sys);
    SumDecodes(states);
    var t := LFlow(Key(d, sys), ActionOf(d, sys), Sum(states));
    assert RowOf(facts, d, states, sys, t) && Yields(facts, sys, t);
    AddedIff(lflows, OvsFlow(t.key, t.action));
  }

  lemma DelsAreGone(lflows: seq<LFlow>, facts: set<Fact>, v: Delta, sys: Uuid, k: FlowKey) returns (d: Derivation)
    requires Splits(facts, v) && v.no !! v.del && Enumerates(lflows, facts, sys) && k in FlowsToDel(lflows)
    ensures Joins(d, sys) && Key(d, sys) == k && Over(d, v.no + v.del) && !Over(d, v.no)
  {
    hide Joins, Key, ActionOf, WithState, States, Atoms;
    DeletedIff(lflows, k);
    var t :| t in lflows && IsDeletion(t.state) && k == t.key;
    var e, states :| RowOf(facts, e, states, sys, t);
    InstanceStates(facts, v, e, states, sys);
    SumDecodes(states);
    var i :| 0 <= i < |Atoms(e)| && Atoms(e)[i] in v.del;
    d := e;
  }

  lemma GoneIsDeleted(lflows: seq<LFlow>, facts: set<Fact>, v: Delta, sys: Uuid, d: Derivation)
    requires Splits(facts, v) && Enumerates(lflows, facts, sys)
    requires Joins(d, sys) && Over(d, v.no + v.del) && !Over(d, v.no)
    ensures Key(d, sys) in FlowsToDel(lflows)
  {
    hide Joins, Key, ActionOf, WithState;
    var states := InstanceFor(facts, v.no, v.del, STATE_DEL, d, sys);
    SumDecodes(states);
    var t := LFlow(Key(d, sys), ActionOf(d, sys), Sum(states));
    assert RowOf(facts, d, states, sys, t) && Yields(facts, sys, t);
    DeletedIff(lflows, t.key);
  }

  lemma OverLarger(d: Derivation, s: set<Atom>, t: set<Atom>)
    requires Over(d, s) && s <= t
    ensures Over(d, t)
  {
  }

  /** One flow key, one action: nothing that is added can overwrite another live flow. */
  lemma OneAction(v: Delta, sys: Uuid, k: FlowKey, a: Action, b: Action)
    requires Sound(v, sys) && Derived(v.no + v.add, sys, k, a) && Derived(v.no + v.add, sys, k, b)
    ensures a == b
  {
    var live := v.no + v.add;
    var d :| DerivedBy(live, sys, d, k, a);
    var e :| DerivedBy(live, sys, e, k, b);
    KeyDetermines(live, live, sys, d, e);
  }

  lemma DerivedIsInstalled(
    table: FlowTable, lflows: seq<LFlow>, facts: set<Fact>, v: Delta, sys: Uuid, k: FlowKey, a: Action)
    requires IsFullTable(table, v.before, sys) && Splits(facts, v) && Sound(v, sys) && Enumerates(lflows, facts, sys)
    requires Derived(v.no + v.add, sys, k, a)
    ensures k in Commit(table, lflows) && Commit(table, lflows)[k] == a
  {
    hide Pinned, Config;
    var adds, kept := FlowsToAdd(lflows), DelFlows(table, FlowsToDel(lflows));
    AddFlowsAt(kept, adds, k);
    var d :| DerivedBy(v.no + v.add, sys, d, k, a);
    if !Over(d, v.no) {
      NewIsAdded(lflows, facts, v, sys, d);
      assert OvsFlow(k, a) in adds;
    } else {
      OverLarger(d, v.no, v.before);
      assert DerivedBy(v.before, sys, d, k, a) && Derived(v.before, sys, k, a);
      if k in FlowsToDel(lflows) {
        var e := DelsAreGone(lflows, facts, v, sys, k);
        KeyDetermines(v.no, v.no + v.del, sys, d, e);
      }
      assert k in kept && kept[k] == a;
    }
    if AddsKey(adds, k) {
      AddsAreDerived(lflows, facts, v, sys, k, Commit(table, lflows)[k]);
      OneAction(v, sys, k, a, Commit(table, lflows)[k]);
    }
  }

  lemma InstalledIsDerived(
    table: FlowTable, lflows: seq<LFlow>, facts: set<Fact>, v: Delta, sys: Uuid, k: FlowKey)
    requires IsFullTable(table, v.before, sys) && Splits(facts, v) && Sound(v, sys) && Enumerates(lflows, facts, sys)
    requires k in Commit(table, lflows)
    ensures Derived(v.no + v.add, sys, k, Commit(table, lflows)[k])
  {
    hide Pinned, Config;
    var adds, kept := FlowsToAdd(lflows), DelFlows(table, FlowsToDel(lflows));
    AddFlowsAt(kept, adds, k);
    if AddsKey(adds, k) {
      AddsAreDerived(lflows, facts, v, sys, k, Commit(table, lflows)[k]);
    } else {
      assert Derived(v.before, sys, k, table[k]);
      var d :| DerivedBy(v.before, sys, d, k, table[k]);
      OverLarger(d, v.before, v.no + v.del);
      if !Over(d, v.no) {
        GoneIsDeleted(lflows, facts, v, sys, d);
      }
      OverLarger(d, v.no, v.no + v.add);
      assert DerivedBy(v.no + v.add, sys, d, k, table[k]);
    }
  }

  /** One round turns the full table of the previous round into the full table of
      the entities that are live now. */
  lemma RoundIsFullRecompute(table: FlowTable, lflows: seq<LFlow>, facts: set<Fact>, v: Delta, sys: Uuid)
    requires IsFullTable(table, v.before, sys) && Splits(facts, v) && Sound(v, sys) && Enumerates(lflows, facts, sys)
    ensures IsFullTable(Commit(table, lflows), v.no + v.add, sys)
  {
    hide Splits, Sound, Enumerates, Commit, Derived;
    forall k, a
      ensures Derived(v.no + v.add, sys, k, a) <==> k in Commit(table, lflows) && Commit(table, lflows)[k] == a
    {
      if Derived(v.no + v.add, sys, k, a) {
        DerivedIsInstalled(table, lflows, facts, v, sys, k, a);
      } else if k in Commit(table, lflows) {
        InstalledIsDerived(table, lflows, facts, v, sys, k);
      }
    }
  }
}
