/** Where a datagram in transit goes next, how far it can travel, and how flows share a destination's routes. */
module Forwarding {
  import opened Common
  import opened Callsigns
  import opened RoutingSpec
  import opened RouteOrders

  datatype Mode = BestRoute | PerFlow

  /** `flowHash` stands for the hash of the origin and circuit pair, the same for every datagram of a circuit. */
  datatype Datagram = Datagram(origin: Callsign, destination: Callsign, timeToLive: nat, flowHash: nat)

  datatype Decision = ForwardTo(datagram: Datagram, next: Route) | DropTtlExpired | DropLooped | DropNoRoute

  // ---- Weighted selection ----------------------------------------------------------------------------------

  predicate Usable(routes: seq<Route>) {
    forall i :: 0 <= i < |routes| ==> routes[i].quality >= 0
  }

  function Weight(r: Route, from: Callsign): nat
    requires r.quality >= 0
  {
    if r.neighbour == from then 0 else r.quality
  }

  /** The weights of the first `n` routes together. */
  function WeightBefore(routes: seq<Route>, from: Callsign, n: nat): nat
    requires Usable(routes) && n <= |routes|
  {
    if n == 0 then 0 else WeightBefore(routes, from, n - 1) + Weight(routes[n - 1], from)
  }

  function Total(routes: seq<Route>, from: Callsign): nat
    requires Usable(routes)
  {
    WeightBefore(routes, from, |routes|)
  }

  /** The residues that pick route `i`: as many as its weight, after those of the routes before it. */
  predicate Covers(routes: seq<Route>, from: Callsign, i: nat, residue: nat)
    requires Usable(routes) && i < |routes|
  {
    WeightBefore(routes, from, i) <= residue < WeightBefore(routes, from, i) + Weight(routes[i], from)
  }

  lemma {:induction false} WeightGrows(routes: seq<Route>, from: Callsign, i: nat, j: nat)
    requires Usable(routes) && i <= j <= |routes|
    ensures WeightBefore(routes, from, i) <= WeightBefore(routes, from, j)
    decreases j - i
  {
    if i < j {
      WeightGrows(routes, from, i, j - 1);
    }
  }

  lemma {:induction false} WeightlessIff(routes: seq<Route>, from: Callsign, n: nat)
    requires Usable(routes) && n <= |routes|
    ensures WeightBefore(routes, from, n) == 0 <==>
              forall i :: 0 <= i < n ==> routes[i].neighbour == from || routes[i].quality == 0
  {
    if n > 0 {
      WeightlessIff(routes, from, n - 1);
    }
  }

  /** The index of the pick among the eligible routes; None only when none is eligible. */
  method SelectWeighted(routes: seq<Route>, from: Callsign, flowHash: nat) returns (pick: Option<nat>)
    requires Usable(routes)
    ensures pick.None? <==> Total(routes, from) == 0
    ensures pick.None? <==> forall i :: 0 <= i < |routes| ==> routes[i].neighbour == from || routes[i].quality == 0
    ensures pick.Some? ==> pick.value < |routes|
                           && Covers(routes, from, pick.value, flowHash % Total(routes, from))
    ensures pick.Some? ==> routes[pick.value].neighbour != from && routes[pick.value].quality > 0
    ensures pick.Some? ==> forall j :: 0 <= j < |routes| && Covers(routes, from, j, flowHash % Total(routes, from)) ==>
                             j == pick.value
  {
    var total := 0;
    for i := 0 to |routes|
      invariant total == WeightBefore(routes, from, i)
    {
      if routes[i].neighbour != from && routes[i].quality > 0 {
        total := total + routes[i].quality;
      }
    }
    WeightlessIff(routes, from, |routes|);
    if total == 0 {
      return None;
    }
    var target := flowHash % total;
    for i := 0 to |routes|
      invariant 0 <= target && target + WeightBefore(routes, from, i) == flowHash % total
    {
      if routes[i].neighbour == from || routes[i].quality == 0 {
        continue;
      }
      if target < routes[i].quality {
        OnlyPick(routes, from, i, flowHash % total);
        return Some(i);
      }
      target := target - routes[i].quality;
    }
    assert false;
  }

  /** Each residue picks exactly one route. */
  lemma OnePickPerResidue(routes: seq<Route>, from: Callsign, i: nat, j: nat, residue: nat)
    requires Usable(routes) && i < |routes| && j < |routes|
    requires Covers(routes, from, i, residue) && Covers(routes, from, j, residue)
    ensures i == j
  {
    if i < j {
      WeightGrows(routes, from, i + 1, j);
    } else if j < i {
      WeightGrows(routes, from, j + 1, i);
    }
  }

  lemma OnlyPick(routes: seq<Route>, from: Callsign, i: nat, residue: nat)
    requires Usable(routes) && i < |routes| && Covers(routes, from, i, residue)
    ensures forall j :: 0 <= j < |routes| && Covers(routes, from, j, residue) ==> j == i
  {
    forall j | 0 <= j < |routes| && Covers(routes, from, j, residue) ensures j == i {
      OnePickPerResidue(routes, from, j, i, residue);
    }
  }

  function Interval(lo: nat, n: nat): (s: set<nat>)
    ensures forall x :: x in s <==> lo <= x < lo + n
  {
    if n == 0 then {} else Interval(lo, n - 1) + {lo + n - 1}
  }

  lemma {:induction false} IntervalSize(lo: nat, n: nat)
    ensures |Interval(lo, n)| == n
  {
    if n > 0 {
      IntervalSize(lo, n - 1);
    }
  }

  /** Of the residues 0..total - 1, exactly `quality` of them pick each eligible route, and none pick another. */
  lemma SharesAreExact(routes: seq<Route>, from: Callsign, i: nat)
    requires Usable(routes) && i < |routes|
    ensures |set residue: nat | residue < Total(routes, from) && Covers(routes, from, i, residue)|
         == if routes[i].neighbour == from then 0 else routes[i].quality
  {
    var lo, w := WeightBefore(routes, from, i), Weight(routes[i], from);
    WeightGrows(routes, from, i + 1, |routes|);
    assert (set residue: nat | residue < Total(routes, from) && Covers(routes, from, i, residue)) == Interval(lo, w);
    IntervalSize(lo, w);
  }

  // ---- Measured-time selection -----------------------------------------------------------------------------

  predicate Timed(r: Route, from: Callsign) {
    r.inp3.Some? && r.neighbour != from
  }

  /** Lower target time, then fewer hops, then callsign, then port id. */
  function TimeOrder(a: Route, b: Route): int
    requires a.inp3.Some? && b.inp3.Some?
  {
    var m, n := a.inp3.value, b.inp3.value;
    if m.targetTimeMs != n.targetTimeMs then m.targetTimeMs - n.targetTimeMs
    else if m.hopCount != n.hopCount then m.hopCount as int - n.hopCount
    else if TextOf(a.neighbour) != TextOf(b.neighbour) then Ordinal(TextOf(a.neighbour), TextOf(b.neighbour))
    else Ordinal(a.portId, b.portId)
  }

  lemma TimeOrderTransitive(a: Route, b: Route, c: Route)
    requires a.inp3.Some? && b.inp3.Some? && c.inp3.Some?
    requires TimeOrder(a, b) <= 0 && TimeOrder(b, c) <= 0
    ensures TimeOrder(a, c) <= 0
  {
    var x, y, z := TextOf(a.neighbour), TextOf(b.neighbour), TextOf(c.neighbour);
    if a.inp3 == b.inp3 == c.inp3 {
      OrdinalZero(x, y);
      OrdinalZero(y, z);
      OrdinalZero(x, z);
      if x == y == z {
        OrdinalTransitive(a.portId, b.portId, c.portId);
      } else {
        OrdinalTransitive(x, y, z);
      }
    }
  }

  lemma TimeOrderSwaps(a: Route, b: Route)
    requires a.inp3.Some? && b.inp3.Some?
    ensures TimeOrder(a, b) == -TimeOrder(b, a)
  {
    OrdinalSwaps(TextOf(a.neighbour), TextOf(b.neighbour));
    OrdinalSwaps(a.portId, b.portId);
  }

  /** `r` is a time-route not by way of `from`, and none of those among the first `n` comes before it. */
  predicate IsFastest(routes: seq<Route>, from: Callsign, n: nat, r: Route)
    requires n <= |routes|
  {
    && Timed(r, from) && r in routes
    && forall i :: 0 <= i < n && Timed(routes[i], from) ==> TimeOrder(r, routes[i]) <= 0
  }

  predicate AnyTimed(routes: seq<Route>, from: Callsign, n: nat)
    requires n <= |routes|
  {
    exists i :: 0 <= i < n && Timed(routes[i], from)
  }

  method SelectInp3NextHop(routes: seq<Route>, from: Callsign) returns (best: Option<Route>)
    ensures best.Some? <==> AnyTimed(routes, from, |routes|)
    ensures best.Some? ==> IsFastest(routes, from, |routes|, best.value)
    ensures best.Some? ==> forall i :: 0 <= i < |routes| && Timed(routes[i], from) ==>
                             Precedes(best.value, routes[i])
  {
    best := None;
    for i := 0 to |routes|
      invariant best.Some? <==> AnyTimed(routes, from, i)
      invariant best.Some? ==> IsFastest(routes, from, i, best.value)
    {
      var r := routes[i];
      if Timed(r, from) {
        if best.None? {
          OrdinalZero(r.portId, r.portId);
          best := Some(r);
        } else if TimeOrder(r, best.value) < 0 {
          NewFastest(routes, from, i, best.value, r);
          best := Some(r);
        } else {
          TimeOrderSwaps(r, best.value);
        }
      }
    }
    if best.Some? {
      FastestPrecedes(routes, from, best.value);
    }
  }

  /** A takes less time than B, or as much over no more hops, and so on down to the callsign's and the port's text. */
  ghost predicate Precedes(a: Route, b: Route)
    requires a.inp3.Some? && b.inp3.Some?
  {
    var m, n := a.inp3.value, b.inp3.value;
    && m.targetTimeMs <= n.targetTimeMs
    && (m.targetTimeMs == n.targetTimeMs ==> m.hopCount <= n.hopCount)
    && (m == n ==> NotAfter(TextOf(a.neighbour), TextOf(b.neighbour)))
    && (m == n && TextOf(a.neighbour) == TextOf(b.neighbour) ==> NotAfter(a.portId, b.portId))
  }

  lemma FastestPrecedes(routes: seq<Route>, from: Callsign, best: Route)
    requires IsFastest(routes, from, |routes|, best)
    ensures forall i :: 0 <= i < |routes| && Timed(routes[i], from) ==> Precedes(best, routes[i])
  {
    forall i | 0 <= i < |routes| && Timed(routes[i], from) ensures Precedes(best, routes[i]) {
      OrdinalIs(TextOf(best.neighbour), TextOf(routes[i].neighbour));
      OrdinalIs(best.portId, routes[i].portId);
    }
  }

  lemma NewFastest(routes: seq<Route>, from: Callsign, i: nat, best: Route, r: Route)
    requires i < |routes| && r == routes[i] && Timed(r, from)
    requires IsFastest(routes, from, i, best) && TimeOrder(r, best) < 0
    ensures IsFastest(routes, from, i + 1, r)
  {
    OrdinalZero(r.portId, r.portId);
    forall j | 0 <= j < i && Timed(routes[j], from) ensures TimeOrder(r, routes[j]) <= 0 {
      TimeOrderTransitive(r, best, routes[j]);
    }
  }

  method SelectBest(routes: seq<Route>, from: Callsign) returns (best: Option<Route>)
    ensures best.None? <==> forall i :: 0 <= i < |routes| ==> routes[i].neighbour == from
    ensures best.Some? ==> exists i :: 0 <= i < |routes| && routes[i] == best.value && best.value.neighbour != from
                                       && forall j :: 0 <= j < i ==> routes[j].neighbour == from
  {
    for i := 0 to |routes|
      invariant forall j :: 0 <= j < i ==> routes[j].neighbour == from
    {
      if routes[i].neighbour != from {
        return Some(routes[i]);
      }
    }
    return None;
  }

  // ---- The decision ----------------------------------------------------------------------------------------

  /** What the quality path chooses, if anything. */
  predicate ChosenByQuality(d: Datagram, from: Callsign, routes: seq<Route>, mode: Mode, onward: Option<Route>)
    requires Usable(routes)
  {
    match mode
    case PerFlow =>
      if Total(routes, from) == 0 then onward.None?
      else exists i :: 0 <= i < |routes| && onward == Some(routes[i])
                       && Covers(routes, from, i, d.flowHash % Total(routes, from))
    case BestRoute =>
      if onward.None? then forall i :: 0 <= i < |routes| ==> routes[i].neighbour == from
      else exists i :: 0 <= i < |routes| && routes[i] == onward.value && onward.value.neighbour != from
                       && forall j :: 0 <= j < i ==> routes[j].neighbour == from
  }

  /** The route a datagram leaves by, if any: the fastest time-route when preferred, else by quality. */
  predicate Chosen(d: Datagram, from: Callsign, routes: seq<Route>, mode: Mode, preferInp3: bool, onward: Option<Route>)
    requires Usable(routes)
  {
    if preferInp3 && AnyTimed(routes, from, |routes|) then
      onward.Some? && IsFastest(routes, from, |routes|, onward.value)
    else ChosenByQuality(d, from, routes, mode, onward)
  }

  method DecideForward(d: Datagram, from: Callsign, node: Callsign, tables: map<Callsign, seq<Route>>, maxTtl: nat,
                       mode: Mode, preferInp3: bool)
    returns (r: Decision)
    requires forall x :: x in tables ==> Usable(tables[x])
    ensures r == DropTtlExpired <==> d.timeToLive <= 1
    ensures r == DropLooped <==> d.timeToLive > 1 && d.origin == node
    ensures r.ForwardTo? ==>
              d.timeToLive > 1 && d.origin != node && d.destination in tables
              && r.datagram == d.(timeToLive := Min(d.timeToLive - 1, maxTtl)) && r.next in tables[d.destination]
              && r.next.neighbour != from
              && Chosen(d, from, tables[d.destination], mode, preferInp3, Some(r.next))
    ensures r.ForwardTo? ==> Forwards(Hop(d, from, node, maxTtl, r))
    ensures r == DropNoRoute ==>
              d.destination !in tables || Chosen(d, from, tables[d.destination], mode, preferInp3, None)
  {
    var decremented := if d.timeToLive == 0 then 0 else d.timeToLive - 1;
    if decremented == 0 {
      return DropTtlExpired;
    }
    var capped := Min(decremented, maxTtl);
    if d.origin == node {
      return DropLooped;
    }
    if d.destination !in tables {
      return DropNoRoute;
    }
    var onward := ChooseOnward(d, from, tables[d.destination], mode, preferInp3);
    if onward.None? {
      return DropNoRoute;
    }
    r := ForwardTo(d.(timeToLive := capped), onward.value);
  }

  method ChooseOnward(d: Datagram, from: Callsign, routes: seq<Route>, mode: Mode, preferInp3: bool)
    returns (onward: Option<Route>)
    requires Usable(routes)
    ensures Chosen(d, from, routes, mode, preferInp3, onward)
    ensures onward.Some? ==> onward.value in routes && onward.value.neighbour != from
  {
    onward := None;
    if preferInp3 {
      onward := SelectInp3NextHop(routes, from);
    }
    if onward.None? {
      match mode {
        case PerFlow =>
          var pick := SelectWeighted(routes, from, d.flowHash);
          onward := if pick.None? then None else Some(routes[pick.value]);
        case BestRoute =>
          onward := SelectBest(routes, from);
      }
    }
  }

  // ---- How far a datagram travels --------------------------------------------------------------------------

  /** One forward of a journey: at `node`, come from `from`, sent on to `next`, whatever that node's table holds. */
  datatype Hop = Hop(datagram: Datagram, from: Callsign, node: Callsign, maxTtl: nat, onward: Decision)

  /** What the contract of `DecideForward` says of a datagram that is forwarded. */
  predicate Forwards(h: Hop) {
    && h.onward.ForwardTo? && h.datagram.timeToLive > 1 && h.datagram.origin != h.node
    && h.onward.datagram == h.datagram.(timeToLive := Min(h.datagram.timeToLive - 1, h.maxTtl))
    && h.onward.next.neighbour != h.from
  }

  /** Each hop forwards, and hands the datagram to the node of the next. */
  predicate Journey(hops: seq<Hop>) {
    && (forall i :: 0 <= i < |hops| ==> Forwards(hops[i]))
    && (forall i :: 0 <= i < |hops| - 1 ==>
          hops[i + 1].datagram == hops[i].onward.datagram && hops[i + 1].node == hops[i].onward.next.neighbour
          && hops[i + 1].from == hops[i].node)
  }

  lemma {:induction false} TtlRunsDown(hops: seq<Hop>, cap: nat, i: nat)
    requires Journey(hops) && i < |hops| && forall j :: 0 <= j < |hops| ==> hops[j].maxTtl <= cap
    ensures hops[i].datagram.timeToLive <= hops[0].datagram.timeToLive - i
    ensures i > 0 ==> hops[i].datagram.timeToLive <= cap + 1 - i
  {
    if i > 0 {
      TtlRunsDown(hops, cap, i - 1);
      assert Forwards(hops[i - 1]);
      assert hops[i - 1 + 1].datagram == hops[i - 1].onward.datagram;
    }
  }

  /**
   * A datagram arriving with time to live t is forwarded at most t - 1 times, and at most as often as the largest cap
   * on the way allows (once when that is 0), and is never handed straight back.
   */
  lemma JourneyIsBounded(hops: seq<Hop>, cap: nat)
    requires Journey(hops) && hops != [] && forall j :: 0 <= j < |hops| ==> hops[j].maxTtl <= cap
    ensures |hops| <= hops[0].datagram.timeToLive - 1
    ensures |hops| <= Max(1, cap)
    ensures forall i :: 0 <= i < |hops| ==> hops[i].onward.next.neighbour != hops[i].from
    ensures forall i :: 0 <= i < |hops| - 1 ==> hops[i + 1].onward.next.neighbour != hops[i].node
  {
    var last := |hops| - 1;
    TtlRunsDown(hops, cap, last);
    assert Forwards(hops[last]);
    forall i | 0 <= i < |hops| ensures hops[i].onward.next.neighbour != hops[i].from {
      assert Forwards(hops[i]);
    }
  }
}
