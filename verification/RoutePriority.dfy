// Flow priorities of the routing table, and why the switch's highest-priority
// match is the longest-prefix match.

module RoutePriority {
  import opened Common

  const LEVEL_AUTO := 0
  const LEVEL_STATIC := 1
  const LEVEL_ECMP := 2

  /** _cal_priority: prefix in the top 6 bits, level in 4 bits, index in 6 bits. */
  function CalPriority(prefix: nat, level: nat, idx: nat): nat {
    prefix * 1024 + level * 64 + idx
  }

  lemma CalPriorityInjective(p: nat, l: nat, i: nat, q: nat, m: nat, j: nat)
    requires l < 16 && m < 16 && i < 64 && j < 64
    requires CalPriority(p, l, i) == CalPriority(q, m, j)
    ensures p == q && l == m && i == j
  {
  }

  lemma LevelsApart()
    ensures forall p: nat, i: nat, q: nat, j: nat :: i < 64 && j < 64 ==> CalPriority(p, 0, i) != CalPriority(q, 1, j)
  {
  }

  // ----- Longest-prefix match -----

  /** A route flow of one router: its network, prefix, level and index. */
  datatype Route = Route(net: nat, prefix: nat, level: nat, idx: nat)

  /** Levels and indices as the rules assign them; an ECMP flow has index 0. */
  predicate IsRoute(r: Route) {
    r.prefix <= 32 && r.level <= LEVEL_ECMP && r.idx < 64 && (r.level == LEVEL_ECMP ==> r.idx == 0)
  }

  function Priority(r: Route): nat {
    CalPriority(r.prefix, r.level, r.idx)
  }

  predicate Covers(r: Route, dst: nat) {
    r.prefix <= 32 && Net(dst, r.prefix) == r.net
  }

  /** What the switch picks: a covering flow that no covering flow outranks. */
  ghost predicate SwitchPicks(routes: set<Route>, dst: nat, r: Route) {
    r in routes && Covers(r, dst) && forall q :: q in routes && Covers(q, dst) ==> Priority(q) <= Priority(r)
  }

  /** RFC 1812, section 5.2.4.3: the longest covering prefix; then ECMP before static
      before automatic routes, then the higher index. */
  ghost predicate LongestMatch(routes: set<Route>, dst: nat, r: Route) {
    r in routes && Covers(r, dst) && forall q :: q in routes && Covers(q, dst) ==> Prefers(r, q)
  }

  predicate Prefers(r: Route, q: Route) {
    q.prefix < r.prefix ||
    (q.prefix == r.prefix && (q.level < r.level || (q.level == r.level && q.idx <= r.idx)))
  }

  lemma PriorityIsPreference(r: Route, q: Route)
    requires IsRoute(r) && IsRoute(q)
    ensures Priority(q) <= Priority(r) <==> Prefers(r, q)
  {
  }

  /** Priority lookup is exactly longest-prefix match, and the winner is unique. */
  lemma PriorityLookupIsLongestMatch(routes: set<Route>, dst: nat, r: Route)
    requires forall q :: q in routes ==> IsRoute(q)
    ensures SwitchPicks(routes, dst, r) <==> LongestMatch(routes, dst, r)
    ensures SwitchPicks(routes, dst, r) ==> forall q :: SwitchPicks(routes, dst, q) ==> q == r
  {
    forall q | r in routes && q in routes ensures Priority(q) <= Priority(r) <==> Prefers(r, q) {
      PriorityIsPreference(r, q);
    }
    forall q | SwitchPicks(routes, dst, r) && SwitchPicks(routes, dst, q) ensures q == r {
      CalPriorityInjective(q.prefix, q.level, q.idx, r.prefix, r.level, r.idx);
    }
    hide Priority, Prefers, Net;
  }

  /** A destination that some route covers always has a winner. */
  lemma {:induction false} SomeRouteWins(routes: set<Route>, dst: nat, q: Route) returns (r: Route)
    requires q in routes && Covers(q, dst)
    ensures SwitchPicks(routes, dst, r)
    decreases |routes|
  {
    hide Covers, Priority;
    var rest := routes - {q};
    if p :| p in rest && Covers(p, dst) && Priority(p) > Priority(q) {
      r := SomeRouteWins(rest, dst, p);
    } else {
      r := q;
    }
  }

  /** Priorities fit 16 bits, and a route outranks the drop flow of priority 0 unless
      it is an automatic route of prefix 0 with index 0. */
  lemma PrioritiesFit(r: Route)
    requires IsRoute(r)
    ensures Priority(r) < 0x1_0000
    ensures Priority(r) > 0 <==> !(r.prefix == 0 && r.level == LEVEL_AUTO && r.idx == 0)
  {
  }
}
