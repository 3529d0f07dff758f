/** What every run of the routing table keeps, and what the withdrawn set accounts for. */
module RoutingSafety {
  import opened Common
  import opened Callsigns
  import opened Inp3Rif
  import opened RoutingSpec
  import opened RouteOrders

  // ---- The table invariant ---------------------------------------------------------------------------------

  /** What a usable configuration asks of the caps. */
  predicate Usable(o: Settings) {
    o.maxRoutes >= 1 && o.obsoleteInitial >= 1
  }

  predicate RouteOk(o: Settings, v: Via, r: Route) {
    && v == Via(r.portId, r.neighbour)
    && 0 <= r.quality <= QUALITY_MAX && (r.quality > 0 || r.inp3.Some?)
    && 1 <= r.obsolescence <= o.obsoleteInitial
  }

  predicate RoutesOk(o: Settings, routes: map<Via, Route>) {
    routes != map[] && |routes| <= o.maxRoutes && forall v :: v in routes ==> RouteOk(o, v, routes[v])
  }

  predicate TableOk(o: Settings, t: Table) {
    && |t.destinations| <= Max(0, o.maxDestinations)
    && forall d :: d in t.destinations ==> RoutesOk(o, t.destinations[d].routes)
  }

  lemma WithRoutesOk(o: Settings, t: Table, d: Callsign, alias: Text, routes: map<Via, Route>)
    requires TableOk(o, t) && RoomFor(o, t, d) && RoutesOk(o, routes)
    ensures TableOk(o, WithRoutes(t, d, alias, routes))
  {
    var t' := WithRoutes(t, d, alias, routes);
    forall e | e in t'.destinations ensures RoutesOk(o, t'.destinations[e].routes) {
      if e != d {
        assert RoutesOk(o, t.destinations[e].routes);
      }
    }
    if d in t.destinations {
      Smaller(t'.destinations, t.destinations);
    }
  }

  lemma CappedOk(o: Settings, routes: map<Via, Route>, v: Via, r: Route, kept: map<Via, Route>)
    requires Usable(o) && (routes == map[] || RoutesOk(o, routes)) && RouteOk(o, v, r)
    requires Capped(o, routes[v := r], kept)
    ensures RoutesOk(o, kept)
  {
    var all := routes[v := r];
    assert v in all;
    assert |all| >= 1;
    forall w | w in kept ensures RouteOk(o, w, kept[w]) {
      assert kept[w] == all[w];
      if w != v {
        assert w in routes;
      }
    }
  }

  lemma InstalledOk(o: Settings, t: Table, t': Table, d: Callsign, alias: Text, v: Via, r: Route)
    requires Usable(o) && TableOk(o, t) && RoomFor(o, t, d) && RouteOk(o, v, r)
    requires Installed(o, t, t', d, alias, RoutesTo(t, d)[v := r])
    ensures TableOk(o, t')
  {
    CappedOk(o, RoutesTo(t, d), v, r, RoutesTo(t', d));
    WithRoutesOk(o, t, d, AliasFor(t, d, alias), RoutesTo(t', d));
  }

  lemma WithoutOk(o: Settings, t: Table, d: Callsign, alias: Text, v: Via)
    requires TableOk(o, t) && d in t.destinations
    ensures TableOk(o, Without(t, d, alias, v))
  {
    assert RoutesOk(o, t.destinations[d].routes);
    var routes := t.destinations[d].routes - {v};
    Smaller(routes, t.destinations[d].routes);
    if routes == map[] {
      Smaller(t.destinations - {d}, t.destinations);
    } else {
      WithRoutesOk(o, t, d, alias, routes);
    }
  }

  lemma Smaller<K, V, W>(a: map<K, V>, b: map<K, W>)
    requires a.Keys <= b.Keys
    ensures |a| <= |b|
  {
    SubsetSize(a.Keys, b.Keys);
    assert |a| == |a.Keys| && |b| == |b.Keys|;
  }

  lemma {:induction false} SubsetSize<K>(a: set<K>, b: set<K>)
    requires a <= b
    ensures |a| <= |b|
    decreases |a|
  {
    if a != {} {
      var x :| x in a;
      SubsetSize(a - {x}, b - {x});
    }
  }

  lemma UpsertRouteOk(o: Settings, t: Table, t': Table, d: Callsign, alias: Text, v: Via, quality: int, floor: int)
    requires Usable(o) && TableOk(o, t) && quality <= QUALITY_MAX
    requires UpsertRoute(o, t, t', d, alias, v, quality, floor)
    ensures TableOk(o, t')
  {
    if Acceptable(quality, floor) {
      if RoomFor(o, t, d) {
        InstalledOk(o, t, t', d, alias, v, QualityRoute(o, t, d, v, quality));
      }
    } else if d in t.destinations {
      WithoutOk(o, t, d, AliasFor(t, d, alias), v);
    }
  }

  lemma UpsertTimeOk(o: Settings, t: Table, t': Table, d: Callsign, alias: Text, v: Via, metric: Metric)
    requires Usable(o) && TableOk(o, t) && UpsertTime(o, t, t', d, alias, v, metric)
    ensures TableOk(o, t')
  {
    if RoomFor(o, t, d) {
      var r := TimeRoute(o, t, d, v, metric);
      assert v in RoutesTo(t, d) ==> RouteOk(o, v, RoutesTo(t, d)[v]);
      InstalledOk(o, t, t', d, alias, v, r);
    }
  }

  lemma WithdrawTimeOk(o: Settings, t: Table, d: Callsign, v: Via)
    requires TableOk(o, t)
    ensures TableOk(o, WithdrawTime(o, t, d, v))
  {
    if TimeVia(t, d, v).Some? {
      var routes, alias := t.destinations[d].routes, t.destinations[d].alias;
      assert RoutesOk(o, routes);
      if Acceptable(routes[v].quality, o.minQuality) {
        ClearedOk(o, routes, v);
        WithRoutesOk(o, t, d, alias, routes[v := routes[v].(inp3 := None)]);
      } else {
        WithoutOk(o, t, d, alias, v);
      }
      SameDestinations(o, t, d, v);
    }
  }

  /** Recording the withdrawal changes no destination. */
  lemma SameDestinations(o: Settings, t: Table, d: Callsign, v: Via)
    requires TimeVia(t, d, v).Some?
    ensures var routes, alias := t.destinations[d].routes, t.destinations[d].alias;
            WithdrawTime(o, t, d, v).destinations ==
              (if Acceptable(routes[v].quality, o.minQuality)
               then WithRoutes(t, d, alias, routes[v := routes[v].(inp3 := None)])
               else Without(t, d, alias, v)).destinations
  {
  }

  lemma ClearedOk(o: Settings, routes: map<Via, Route>, v: Via)
    requires RoutesOk(o, routes) && v in routes && routes[v].quality > 0
    ensures RoutesOk(o, routes[v := routes[v].(inp3 := None)])
  {
    var cleared := routes[v := routes[v].(inp3 := None)];
    Smaller(cleared, routes);
    assert v in cleared && RouteOk(o, v, routes[v]);
  }

  /** `f` only drops routes or makes them older, never below one. */
  ghost predicate Shrinks(o: Settings, f: map<Via, Route> -> map<Via, Route>) {
    forall routes: map<Via, Route> :: ShrinksOn(o, f, routes)
  }

  ghost predicate ShrinksOn(o: Settings, f: map<Via, Route> -> map<Via, Route>, routes: map<Via, Route>) {
    && f(routes).Keys <= routes.Keys
    && forall v :: v in f(routes) && RouteOk(o, v, routes[v]) ==> RouteOk(o, v, f(routes)[v])
  }

  lemma ReducedOk(o: Settings, t: Table, f: map<Via, Route> -> map<Via, Route>)
    requires TableOk(o, t) && Shrinks(o, f)
    ensures TableOk(o, Reduced(t, f))
  {
    var t' := Reduced(t, f);
    Smaller(t'.destinations, t.destinations);
    forall d | d in t'.destinations ensures RoutesOk(o, t'.destinations[d].routes) {
      var routes := t.destinations[d].routes;
      assert ShrinksOn(o, f, routes) && RoutesOk(o, routes);
      Smaller(f(routes), routes);
    }
  }

  // ---- Runs ------------------------------------------------------------------------------------------------

  datatype Op =
    | HearNeighbour(v: Via, entry: Neighbour)
    | LearnQuality(d: Callsign, alias: Text, v: Via, quality: int, floor: int)
    | HearRip(my: Callsign, v: Via, sntt: int, hopLimit: int, rip: Rip)
    | Age
    | LoseNeighbour(v: Via)
    | LosePort(p: PortId)
    | Drain

  ghost predicate Step(o: Settings, t: Table, op: Op, t': Table) {
    match op
    case HearNeighbour(v, entry) => t' == t.(neighbours := t.neighbours[v := entry])
    case LearnQuality(d, alias, v, quality, floor) =>
      quality <= QUALITY_MAX && UpsertRoute(o, t, t', d, alias, v, quality, floor)
    case HearRip(my, v, sntt, hopLimit, rip) => IngestRip(o, t, t', my, v, sntt, hopLimit, rip)
    case Age => t' == Sweep(t)
    case LoseNeighbour(v) => t' == NeighbourDown(t, v)
    case LosePort(p) => t' == PortDown(t, p)
    case Drain => t' == t.(withdrawn := {})
  }

  /** The tables of a run, one operation between each two. */
  ghost predicate Run(o: Settings, ts: seq<Table>, ops: seq<Op>) {
    |ts| == |ops| + 1 && forall i {:trigger StepAt(o, ts, ops, i)} :: 0 <= i < |ops| ==> StepAt(o, ts, ops, i)
  }

  ghost predicate StepAt(o: Settings, ts: seq<Table>, ops: seq<Op>, i: nat)
    requires i < |ops| && |ts| == |ops| + 1
  {
    Step(o, ts[i], ops[i], ts[i + 1])
  }

  lemma StepKeepsTable(o: Settings, t: Table, op: Op, t': Table)
    requires Usable(o) && TableOk(o, t) && Step(o, t, op, t')
    ensures TableOk(o, t')
  {
    match op
    case HearNeighbour(_, _) =>
    case LearnQuality(d, alias, v, quality, floor) => UpsertRouteOk(o, t, t', d, alias, v, quality, floor);
    case HearRip(my, v, sntt, hopLimit, rip) => IngestRipOk(o, t, t', my, v, sntt, hopLimit, rip);
    case Age => SweepOk(o, t);
    case LoseNeighbour(v) => NeighbourDownOk(o, t, v);
    case LosePort(p) => PortDownOk(o, t, p);
    case Drain =>
  }

  lemma SweepOk(o: Settings, t: Table)
    requires TableOk(o, t)
    ensures TableOk(o, Sweep(t))
  {
    ReducedOk(o, t, Survivors);
  }

  lemma NeighbourDownOk(o: Settings, t: Table, v: Via)
    requires TableOk(o, t)
    ensures TableOk(o, NeighbourDown(t, v))
  {
    ReducedOk(o, t, (routes: map<Via, Route>) => routes - {v});
  }

  lemma PortDownOk(o: Settings, t: Table, p: PortId)
    requires TableOk(o, t)
    ensures TableOk(o, PortDown(t, p))
  {
    ReducedOk(o, t, (routes: map<Via, Route>) => OffPort(routes, p));
  }

  lemma IngestRipOk(
    o: Settings, t: Table, t': Table, my: Callsign, v: Via, sntt: int, hopLimit: int, rip: Rip)
    requires Usable(o) && TableOk(o, t) && IngestRip(o, t, t', my, v, sntt, hopLimit, rip)
    ensures TableOk(o, t')
  {
    var local := rip.targetTimeMs + sntt + PER_HOP_INCREMENT_MS;
    if rip.targetTimeMs >= HORIZON_MS || (sntt != SNTT_UNSET && local >= HORIZON_MS) {
      WithdrawTimeOk(o, t, rip.destination, v);
    } else if !(sntt == SNTT_UNSET || rip.hopCount + 1 > Max(1, hopLimit) || rip.destination == my) {
      UpsertTimeOk(o, t, t', rip.destination, AliasOf(rip.tlvs), v, Metric(local, Min(rip.hopCount + 1, 255)));
    }
  }

  lemma {:induction false} RunKeepsTable(o: Settings, ts: seq<Table>, ops: seq<Op>, i: nat)
    requires Usable(o) && Run(o, ts, ops) && TableOk(o, ts[0]) && i < |ts|
    ensures TableOk(o, ts[i])
  {
    if i > 0 {
      RunKeepsTable(o, ts, ops, i - 1);
      assert StepAt(o, ts, ops, i - 1);
      StepKeepsTable(o, ts[i - 1], ops[i - 1], ts[i]);
    }
  }

  // ---- Whole broadcasts ------------------------------------------------------------------------------------

  /** The operation an entry amounts to; none when it is about the hearer itself. */
  function EntryOps(my: Callsign, b: Broadcast, e: NodesEntry): seq<Op> {
    if e.destination == my then []
    else [LearnQuality(e.destination, e.alias, b.v, DerivedQuality(my, e, b.path), b.floor)]
  }

  /** The operations of a broadcast up to its `n`th entry. */
  function BroadcastOps(my: Callsign, b: Broadcast, n: nat): seq<Op>
    requires n <= |b.entries|
  {
    if n == 0 then
      [HearNeighbour(b.v, NeighbourOf(b)), LearnQuality(b.v.neighbour, b.alias, b.v, b.path, b.floor)]
    else BroadcastOps(my, b, n - 1) + EntryOps(my, b, b.entries[n - 1])
  }

  lemma RunThen(o: Settings, ts: seq<Table>, ops: seq<Op>, op: Op, t': Table)
    requires Run(o, ts, ops) && Step(o, ts[|ops|], op, t')
    ensures Run(o, ts + [t'], ops + [op])
  {
    var ts', ops' := ts + [t'], ops + [op];
    forall i | 0 <= i < |ops'| ensures StepAt(o, ts', ops', i) {
      assert i < |ops| ==> StepAt(o, ts, ops, i);
    }
  }

  lemma TwoSteps(o: Settings, t0: Table, op0: Op, t1: Table, op1: Op, t2: Table)
    requires Step(o, t0, op0, t1) && Step(o, t1, op1, t2)
    ensures Run(o, [t0, t1, t2], [op0, op1])
  {
    var ts, ops := [t0, t1, t2], [op0, op1];
    forall i | 0 <= i < |ops| ensures StepAt(o, ts, ops, i) {
      assert i == 0 || i == 1;
    }
  }

  /** Taking in a broadcast is a run of those operations, so what holds of every run holds of it. */
  lemma {:induction false} BroadcastIsRun(o: Settings, t: Table, my: Callsign, b: Broadcast, trace: seq<Table>, n: nat)
    returns (ts: seq<Table>)
    requires Ingested(o, t, my, b, trace) && 0 <= b.path <= QUALITY_MAX && n <= |b.entries|
    ensures var ops := BroadcastOps(my, b, n); Run(o, ts, ops) && ts[0] == t && ts[|ops|] == trace[n]
  {
    if n == 0 {
      var heard := t.(neighbours := t.neighbours[b.v := NeighbourOf(b)]);
      ts := [t, heard, trace[0]];
      TwoSteps(o, t, HearNeighbour(b.v, NeighbourOf(b)), heard,
               LearnQuality(b.v.neighbour, b.alias, b.v, b.path, b.floor), trace[0]);
    } else {
      ts := BroadcastIsRun(o, t, my, b, trace, n - 1);
      var e := b.entries[n - 1];
      assert IngestedAt(o, my, b, trace, n - 1);
      if e.destination != my {
        var op := LearnQuality(e.destination, e.alias, b.v, DerivedQuality(my, e, b.path), b.floor);
        RunThen(o, ts, BroadcastOps(my, b, n - 1), op, trace[n]);
        ts := ts + [trace[n]];
      } else {
        assert BroadcastOps(my, b, n) == BroadcastOps(my, b, n - 1);
      }
    }
  }

  /** Every table of every run from the empty one meets the caps, holds no empty destination and no dead route. */
  lemma ReachableTables(o: Settings, ts: seq<Table>, ops: seq<Op>)
    requires Usable(o) && Run(o, ts, ops) && ts[0] == EMPTY
    ensures forall i :: 0 <= i < |ts| ==> TableOk(o, ts[i])
  {
    forall i | 0 <= i < |ts| ensures TableOk(o, ts[i]) {
      RunKeepsTable(o, ts, ops, i);
    }
  }

  // ---- Withdrawals -----------------------------------------------------------------------------------------

  lemma SameRoutes(t: Table, t': Table, d: Callsign)
    requires forall e :: e != d ==> RoutesTo(t', e) == RoutesTo(t, e)
    ensures Lost(t, t') == if HoldsTime(t, d) && !HoldsTime(t', d) then {d} else {}
  {
    assert forall e :: e != d ==> HoldsTime(t', e) == HoldsTime(t, e);
    assert HoldsTime(t, d) ==> d in t.destinations;
  }

  lemma WithdrawTimeAccounts(o: Settings, t: Table, d: Callsign, v: Via)
    ensures var t' := WithdrawTime(o, t, d, v); t'.withdrawn == t.withdrawn + Lost(t, t')
  {
    var t' := WithdrawTime(o, t, d, v);
    WithdrawTouchesOne(o, t, d, v);
    SameRoutes(t, t', d);
    if TimeVia(t, d, v).Some? {
      assert HoldsTime(t, d);
    }
  }

  lemma WithdrawTouchesOne(o: Settings, t: Table, d: Callsign, v: Via)
    ensures forall e :: e != d ==> RoutesTo(WithdrawTime(o, t, d, v), e) == RoutesTo(t, e)
  {
  }

  /** Learning a time never costs a destination its last time-route: an eviction leaves the new one or an old one. */
  lemma UpsertTimeAccounts(o: Settings, t: Table, t': Table, d: Callsign, alias: Text, v: Via, metric: Metric)
    requires TableOk(o, t) && UpsertTime(o, t, t', d, alias, v, metric)
    ensures Lost(t, t') == {} && t'.withdrawn == t.withdrawn
  {
    SameRoutes(t, t', d);
    if HoldsTime(t, d) {
      UpsertHolds(o, t, t', d, v, metric);
    }
  }

  lemma UpsertHolds(o: Settings, t: Table, t': Table, d: Callsign, v: Via, metric: Metric)
    requires TableOk(o, t) && HoldsTime(t, d)
    requires Capped(o, RoutesTo(t, d)[v := TimeRoute(o, t, d, v, metric)], RoutesTo(t', d))
    ensures HoldsTime(t', d)
  {
    assert RoutesOk(o, t.destinations[d].routes);
    CapKeepsTime(o, RoutesTo(t, d), v, TimeRoute(o, t, d, v, metric), RoutesTo(t', d));
  }

  lemma CapKeepsTime(o: Settings, routes: map<Via, Route>, v: Via, r: Route, kept: map<Via, Route>)
    requires HasTime(routes) && |routes| <= o.maxRoutes && r.inp3.Some? && Capped(o, routes[v := r], kept)
    ensures HasTime(kept)
  {
    var all := routes[v := r];
    if v in kept {
      assert kept[v] == all[v];
    } else {
      var w :| w in routes && routes[w].inp3.Some?;
      assert |all| <= |routes| + 1;
      assert |all| == |all.Keys| && |kept| == |kept.Keys| && v in all.Keys && w in all.Keys;
      if w == v {
        Smaller(all, routes);
        OneLeftOut(all.Keys, kept.Keys, v);
      } else {
        OneEvicted(all.Keys, kept.Keys, v, w);
        assert kept[w] == all[w];
      }
    }
  }

  lemma OneLeftOut<K>(all: set<K>, kept: set<K>, v: K)
    requires kept <= all && v in all && v !in kept
    ensures |kept| < |all|
  {
    SubsetSize(kept, all - {v});
  }

  /** Of a set one larger, at most one element is left out. */
  lemma OneEvicted<K>(all: set<K>, kept: set<K>, v: K, w: K)
    requires kept <= all && |kept| + 1 >= |all| && v in all && v !in kept && w in all && w != v
    ensures w in kept
  {
    if w !in kept {
      SubsetSize(kept, all - {v} - {w});
    }
  }

  lemma IngestRipAccounts(
    o: Settings, t: Table, t': Table, my: Callsign, v: Via, sntt: int, hopLimit: int, rip: Rip)
    requires TableOk(o, t) && IngestRip(o, t, t', my, v, sntt, hopLimit, rip)
    ensures t'.withdrawn == t.withdrawn + Lost(t, t')
  {
    var local := rip.targetTimeMs + sntt + PER_HOP_INCREMENT_MS;
    if rip.targetTimeMs >= HORIZON_MS || (sntt != SNTT_UNSET && local >= HORIZON_MS) {
      WithdrawnAccounts(o, t, t', rip.destination, v);
    } else if !(sntt == SNTT_UNSET || rip.hopCount + 1 > Max(1, hopLimit) || rip.destination == my) {
      LearnedAccounts(o, t, t', rip.destination, AliasOf(rip.tlvs), v, Metric(local, Min(rip.hopCount + 1, 255)));
    }
  }

  lemma WithdrawnAccounts(o: Settings, t: Table, t': Table, d: Callsign, v: Via)
    requires t' == WithdrawTime(o, t, d, v)
    ensures t'.withdrawn == t.withdrawn + Lost(t, t')
  {
    WithdrawTimeAccounts(o, t, d, v);
  }

  lemma LearnedAccounts(o: Settings, t: Table, t': Table, d: Callsign, alias: Text, v: Via, metric: Metric)
    requires TableOk(o, t) && UpsertTime(o, t, t', d, alias, v, metric)
    ensures t'.withdrawn == t.withdrawn + Lost(t, t')
  {
    UpsertTimeAccounts(o, t, t', d, alias, v, metric);
  }

  /** Every operation but a NODES entry or a drain adds to the withdrawn set exactly what lost its last time-route. */
  lemma StepAccounts(o: Settings, t: Table, op: Op, t': Table)
    requires TableOk(o, t) && Step(o, t, op, t') && !op.LearnQuality? && !op.Drain?
    ensures t'.withdrawn == t.withdrawn + Lost(t, t')
  {
    match op
    case HearNeighbour(_, _) =>
      assert forall d :: RoutesTo(t', d) == RoutesTo(t, d);
    case HearRip(my, v, sntt, hopLimit, rip) => IngestRipAccounts(o, t, t', my, v, sntt, hopLimit, rip);
    case Age => ReducedAccounts(t, t', Survivors);
    case LoseNeighbour(v) => ReducedAccounts(t, t', (routes: map<Via, Route>) => routes - {v});
    case LosePort(p) => ReducedAccounts(t, t', (routes: map<Via, Route>) => OffPort(routes, p));
  }

  lemma ReducedAccounts(t: Table, t': Table, f: map<Via, Route> -> map<Via, Route>)
    requires t' == Reduced(t, f).(neighbours := t'.neighbours)
    ensures t'.withdrawn == t.withdrawn + Lost(t, t')
  {
    var reduced := t.(destinations :=
      map d | d in t.destinations && f(t.destinations[d].routes) != map[]
        :: t.destinations[d].(routes := f(t.destinations[d].routes)));
    assert forall d :: RoutesTo(t', d) == RoutesTo(reduced, d);
  }

  /** A NODES entry changes the routes of a destination, never the withdrawn set. */
  lemma NodesRecordsNothing(o: Settings, t: Table, op: Op, t': Table)
    requires Step(o, t, op, t') && op.LearnQuality?
    ensures t'.withdrawn == t.withdrawn
  {
  }

  ghost predicate LosesAt(ts: seq<Table>, i: nat, d: Callsign)
    requires i + 1 < |ts|
  {
    d in Lost(ts[i], ts[i + 1])
  }

  /** Operation `i` costs `d` its last time-route and is one that records it. */
  ghost predicate RecordsAt(ts: seq<Table>, ops: seq<Op>, i: nat, d: Callsign)
    requires i < |ops| && |ts| == |ops| + 1
  {
    !ops[i].LearnQuality? && LosesAt(ts, i, d)
  }

  lemma AccountsAt(o: Settings, ts: seq<Table>, ops: seq<Op>, i: nat, d: Callsign)
    requires Usable(o) && Run(o, ts, ops) && TableOk(o, ts[0]) && i < |ops| && !ops[i].Drain?
    ensures d in ts[i + 1].withdrawn <==> d in ts[i].withdrawn || RecordsAt(ts, ops, i, d)
  {
    assert StepAt(o, ts, ops, i);
    if ops[i].LearnQuality? {
      NodesRecordsNothing(o, ts[i], ops[i], ts[i + 1]);
    } else {
      RunKeepsTable(o, ts, ops, i);
      StepAccounts(o, ts[i], ops[i], ts[i + 1]);
    }
  }

  ghost predicate RecordedBetween(ts: seq<Table>, ops: seq<Op>, m: nat, n: nat, d: Callsign)
    requires n <= |ops| && |ts| == |ops| + 1
  {
    exists i :: m <= i < n && RecordsAt(ts, ops, i, d)
  }

  lemma RecordedOneMore(ts: seq<Table>, ops: seq<Op>, m: nat, n: nat, d: Callsign)
    requires m <= n < |ops| && |ts| == |ops| + 1
    ensures RecordedBetween(ts, ops, m, n + 1, d) <==> RecordedBetween(ts, ops, m, n, d) || RecordsAt(ts, ops, n, d)
  {
  }

  /**
   * What a drain hands out is exactly what lost its last time-route since the previous drain in an operation other
   * than a NODES entry, each of them once. NODES entries may come in between.
   */
  lemma {:induction false} DrainHandsOutWhatWasLost(
    o: Settings, ts: seq<Table>, ops: seq<Op>, m: nat, n: nat, d: Callsign)
    requires Usable(o) && Run(o, ts, ops) && TableOk(o, ts[0]) && m <= n <= |ops| && ts[m].withdrawn == {}
    requires forall i :: m <= i < n ==> !ops[i].Drain?
    ensures d in ts[n].withdrawn <==> RecordedBetween(ts, ops, m, n, d)
    decreases n
  {
    if m < n {
      var k := n - 1;
      DrainHandsOutWhatWasLost(o, ts, ops, m, k, d);
      AccountsAt(o, ts, ops, k, d);
      RecordedOneMore(ts, ops, m, k, d);
    }
  }

  /** From one drain to the next. */
  lemma BetweenDrains(o: Settings, ts: seq<Table>, ops: seq<Op>, m: nat, n: nat, d: Callsign)
    requires Usable(o) && Run(o, ts, ops) && ts[0] == EMPTY && m < n < |ops| && ops[m].Drain? && ops[n].Drain?
    requires forall i :: m < i < n ==> !ops[i].Drain?
    ensures d in ts[n].withdrawn <==> RecordedBetween(ts, ops, m + 1, n, d)
    ensures ts[n + 1].withdrawn == {}
  {
    assert StepAt(o, ts, ops, m) && StepAt(o, ts, ops, n);
    DrainHandsOutWhatWasLost(o, ts, ops, m + 1, n, d);
  }

  /** Without NODES entries, exactly everything that lost its last time-route. */
  lemma WithoutNodesEveryLossIsHandedOut(o: Settings, ts: seq<Table>, ops: seq<Op>, m: nat, n: nat, d: Callsign)
    requires Usable(o) && Run(o, ts, ops) && TableOk(o, ts[0]) && m <= n <= |ops| && ts[m].withdrawn == {}
    requires forall i :: m <= i < n ==> !ops[i].Drain? && !ops[i].LearnQuality?
    ensures d in ts[n].withdrawn <==> exists i :: m <= i < n && LosesAt(ts, i, d)
  {
    DrainHandsOutWhatWasLost(o, ts, ops, m, n, d);
    assert forall i :: m <= i < n ==> RecordsAt(ts, ops, i, d) == LosesAt(ts, i, d);
  }

  /** A table without time-routes never withdraws anything. */
  lemma QualityOnlyIsQuiet(o: Settings, t: Table, op: Op, t': Table)
    requires TableOk(o, t) && Step(o, t, op, t') && forall d :: !HoldsTime(t, d)
    ensures t'.withdrawn <= t.withdrawn
  {
    if op.LearnQuality? {
      NodesRecordsNothing(o, t, op, t');
    } else if !op.Drain? {
      StepAccounts(o, t, op, t');
      NothingToLose(t, t');
    }
  }

  lemma NothingToLose(t: Table, t': Table)
    requires forall d :: !HoldsTime(t, d)
    ensures Lost(t, t') == {}
  {
  }

  /** A NODES entry below the floor drops a destination's last time-route unrecorded when it goes via that neighbour. */
  lemma NodesLossIsSilent(o: Settings, t: Table, t': Table, d: Callsign, alias: Text, v: Via, quality: int, floor: int)
    requires UpsertRoute(o, t, t', d, alias, v, quality, floor) && !Acceptable(quality, floor)
    ensures t'.withdrawn == t.withdrawn
    ensures d in Lost(t, t') <==> TimeVia(t, d, v).Some? && forall w :: w != v ==> TimeVia(t, d, w).None?
  {
    SameRoutes(t, t', d);
    if d in t.destinations {
      assert RoutesTo(t', d) == RoutesTo(t, d) - {v};
      assert forall w :: w != v ==> TimeVia(t', d, w) == TimeVia(t, d, w);
      if HoldsTime(t, d) && !HoldsTime(t', d) {
        var w :| w in RoutesTo(t, d) && RoutesTo(t, d)[w].inp3.Some?;
        assert w != v ==> TimeVia(t', d, w).Some?;
      }
      if HoldsTime(t', d) {
        var w :| w in RoutesTo(t', d) && RoutesTo(t', d)[w].inp3.Some?;
        assert TimeVia(t, d, w).Some?;
      }
    }
  }

  predicate OnlyTime(routes: map<Via, Route>, w: Via) {
    w in routes && routes[w].inp3.Some? && forall x :: x in routes && x != w ==> routes[x].inp3.None?
  }

  /** When everything fits the cap, everything is kept. */
  lemma CapKeepsAll(o: Settings, all: map<Via, Route>, kept: map<Via, Route>)
    requires Capped(o, all, kept) && |all| <= o.maxRoutes
    ensures kept == all
  {
    assert |kept.Keys| == |all.Keys| by {
      assert |kept| == |kept.Keys| && |all| == |all.Keys|;
    }
    SameSize(kept.Keys, all.Keys);
  }

  lemma SameSize<K>(a: set<K>, b: set<K>)
    requires a <= b && |a| == |b|
    ensures a == b
  {
    if x :| x in b && x !in a {
      SubsetSize(a, b - {x});
    }
  }

  /** No two of the routes rank equal. */
  predicate NoTies(o: Settings, routes: map<Via, Route>) {
    forall x, y :: x in routes && y in routes && x != y ==> RouteOrder(o, routes[x], routes[y]) != 0
  }

  /** `w` ranks below every other of the routes. */
  predicate IsLast(o: Settings, routes: map<Via, Route>, w: Via) {
    w in routes && forall x :: x in routes && x != w ==> RouteOrder(o, routes[x], routes[w]) < 0
  }

  /** A cap that costs the last time-route had to evict one, the only one carrying a time, and it ranked last. */
  lemma EvictionNeeds(o: Settings, routes: map<Via, Route>, v: Via, r: Route, kept: map<Via, Route>)
    requires |routes| <= o.maxRoutes && HasTime(routes) && (v in routes ==> r.inp3 == routes[v].inp3)
    requires Capped(o, routes[v := r], kept) && !HasTime(kept) && NoTies(o, routes[v := r])
    ensures v !in routes && |routes| == o.maxRoutes
    ensures exists w :: OnlyTime(routes, w) && IsLast(o, routes[v := r], w)
  {
    var all := routes[v := r];
    var w :| w in routes && routes[w].inp3.Some?;
    assert w in all && all[w].inp3.Some?;
    if |all| <= o.maxRoutes {
      CapKeepsAll(o, all, kept);
    } else {
      Overfull(o, routes, v, r);
      OneTimeLost(o, routes, v, r, kept, w);
    }
  }

  /** Only a new neighbour makes a list too long. */
  lemma Overfull(o: Settings, routes: map<Via, Route>, v: Via, r: Route)
    requires |routes| <= o.maxRoutes < |routes[v := r]|
    ensures v !in routes && |routes| == o.maxRoutes
  {
    var all := routes[v := r];
    if v in routes {
      Smaller(all, routes);
    } else {
      assert all.Keys == routes.Keys + {v};
      assert |all| == |all.Keys| && |routes| == |routes.Keys|;
    }
  }

  lemma OneTimeLost(o: Settings, routes: map<Via, Route>, v: Via, r: Route, kept: map<Via, Route>, w: Via)
    requires v !in routes && |routes[v := r]| <= o.maxRoutes + 1 && w in routes && routes[w].inp3.Some?
    requires Capped(o, routes[v := r], kept) && !HasTime(kept) && NoTies(o, routes[v := r])
    ensures OnlyTime(routes, w) && IsLast(o, routes[v := r], w)
  {
    var all := routes[v := r];
    assert all[w] == routes[w];
    assert w !in kept;
    EvictedIsLast(o, all, kept, w);
    forall x | x in routes && x != w ensures routes[x].inp3.None? {
      assert x in kept && kept[x] == all[x] == routes[x];
    }
  }

  /** Of one route too many, everything but the evicted one is kept and ranks above it. */
  lemma EvictedIsLast(o: Settings, all: map<Via, Route>, kept: map<Via, Route>, w: Via)
    requires Capped(o, all, kept) && |all| <= o.maxRoutes + 1 && NoTies(o, all) && w in all && w !in kept
    ensures IsLast(o, all, w) && forall x :: x in all && x != w ==> x in kept
  {
    assert |all| == |all.Keys| && |kept| == |kept.Keys|;
    forall x | x in all && x != w ensures x in kept && RouteOrder(o, all[x], all[w]) < 0 {
      OneEvicted(all.Keys, kept.Keys, w, x);
      assert RouteOrder(o, all[x], all[w]) <= 0;
    }
  }

  /** A full list whose only time-route ranks below all others and the new one loses it to the cap. */
  lemma EvictionSuffices(o: Settings, routes: map<Via, Route>, v: Via, r: Route, kept: map<Via, Route>, w: Via)
    requires |routes| == o.maxRoutes && v !in routes && r.inp3.None? && OnlyTime(routes, w)
    requires Capped(o, routes[v := r], kept) && IsLast(o, routes[v := r], w)
    ensures !HasTime(kept)
  {
    var all := routes[v := r];
    assert |all| == |routes| + 1;
    if w in kept {
      assert kept.Keys != all.Keys by {
        assert |all| == |all.Keys| && |kept| == |kept.Keys|;
      }
      var e :| e in all && e !in kept;
      assert RouteOrder(o, all[w], all[e]) <= 0;
      OrderSwaps(o, all[e], all[w]);
      assert false;
    }
    forall x | x in kept ensures kept[x].inp3.None? {
      assert kept[x] == all[x];
    }
  }

  /** The list is full, the neighbour new to it, and its only time-route ranks below the others and the new one. */
  ghost predicate Evicts(o: Settings, routes: map<Via, Route>, v: Via, r: Route) {
    v !in routes && |routes| == o.maxRoutes && exists w :: OnlyTime(routes, w) && IsLast(o, routes[v := r], w)
  }

  lemma EvictionIff(o: Settings, routes: map<Via, Route>, v: Via, r: Route, kept: map<Via, Route>)
    requires |routes| <= o.maxRoutes && HasTime(routes) && NoTies(o, routes[v := r])
    requires r.inp3 == if v in routes then routes[v].inp3 else None
    requires Capped(o, routes[v := r], kept)
    ensures !HasTime(kept) <==> Evicts(o, routes, v, r)
  {
    if !HasTime(kept) {
      EvictionNeeds(o, routes, v, r, kept);
    }
    if Evicts(o, routes, v, r) {
      var w :| OnlyTime(routes, w) && IsLast(o, routes[v := r], w);
      EvictionSuffices(o, routes, v, r, kept, w);
    }
  }

  /** The routes to `d` and the one an entry would add or refresh via `v`, before the cap. */
  function WithEntry(o: Settings, t: Table, d: Callsign, v: Via, quality: int): map<Via, Route> {
    RoutesTo(t, d)[v := QualityRoute(o, t, d, v, quality)]
  }

  /**
   * An acceptable NODES entry costs a destination its last time-route, unrecorded, exactly when the destination's
   * list is full without the advertiser and its only time-route ranks below all the others and the new one. (Routes
   * that rank equal are kept in an order the cap does not fix; `DistinctPortsNeverTie` says when there are none.)
   */
  lemma NodesEvictionIsSilent(
    o: Settings, t: Table, t': Table, d: Callsign, alias: Text, v: Via, quality: int, floor: int)
    requires TableOk(o, t) && Acceptable(quality, floor) && UpsertRoute(o, t, t', d, alias, v, quality, floor)
    requires NoTies(o, WithEntry(o, t, d, v, quality))
    ensures t'.withdrawn == t.withdrawn
    ensures d in Lost(t, t') <==> Evicts(o, RoutesTo(t, d), v, QualityRoute(o, t, d, v, quality))
  {
    UpsertTouchesOne(o, t, t', d, alias, v, quality, floor);
    SameRoutes(t, t', d);
    if HoldsTime(t, d) {
      EvictionInTable(o, t, t', d, alias, v, quality);
    }
  }

  lemma UpsertTouchesOne(
    o: Settings, t: Table, t': Table, d: Callsign, alias: Text, v: Via, quality: int, floor: int)
    requires UpsertRoute(o, t, t', d, alias, v, quality, floor)
    ensures t'.withdrawn == t.withdrawn && forall e :: e != d ==> RoutesTo(t', e) == RoutesTo(t, e)
  {
    WithRoutesTouchesOne(t, d, AliasFor(t, d, alias), RoutesTo(t', d));
    WithoutTouchesOne(t, d, AliasFor(t, d, alias), v);
  }

  lemma WithRoutesTouchesOne(t: Table, d: Callsign, alias: Text, routes: map<Via, Route>)
    ensures var t' := WithRoutes(t, d, alias, routes);
            t'.withdrawn == t.withdrawn && forall e :: e != d ==> RoutesTo(t', e) == RoutesTo(t, e)
  {
  }

  lemma WithoutTouchesOne(t: Table, d: Callsign, alias: Text, v: Via)
    ensures var t' := Without(t, d, alias, v);
            t'.withdrawn == t.withdrawn && forall e :: e != d ==> RoutesTo(t', e) == RoutesTo(t, e)
  {
  }

  lemma EvictionInTable(o: Settings, t: Table, t': Table, d: Callsign, alias: Text, v: Via, quality: int)
    requires TableOk(o, t) && HoldsTime(t, d) && NoTies(o, WithEntry(o, t, d, v, quality))
    requires Capped(o, WithEntry(o, t, d, v, quality), RoutesTo(t', d))
    ensures !HoldsTime(t', d) <==> Evicts(o, RoutesTo(t, d), v, QualityRoute(o, t, d, v, quality))
  {
    assert RoutesOk(o, t.destinations[d].routes);
    EvictionIff(o, RoutesTo(t, d), v, QualityRoute(o, t, d, v, quality), RoutesTo(t', d));
  }

  /** A port ranking that tells all ports apart; without one, port ids compare as text. */
  ghost predicate RanksApart(o: Settings) {
    o.rank.Some? ==> forall p, q :: p != q ==> o.rank.value(p) != o.rank.value(q)
  }

  /** With ports told apart, keyed routes to well-formed callsigns never rank equal. */
  lemma DistinctPortsNeverTie(o: Settings, routes: map<Via, Route>)
    requires RanksApart(o) && KeyedRoutes(routes) && forall v :: v in routes ==> Valid(v.neighbour)
    ensures NoTies(o, routes)
  {
    forall x, y | x in routes && y in routes && x != y ensures RouteOrder(o, routes[x], routes[y]) != 0 {
      OrdinalZero(x.portId, y.portId);
      OrdinalZero(TextOf(x.neighbour), TextOf(y.neighbour));
      if x.portId == y.portId {
        TextTellsApart(x.neighbour, y.neighbour);
      }
    }
  }

  // ---- Ageing ----------------------------------------------------------------------------------------------

  predicate AtMost(t: Table, k: int) {
    forall d, v :: d in t.destinations && v in t.destinations[d].routes ==>
      t.destinations[d].routes[v].obsolescence <= k
  }

  lemma SweepAges(t: Table, k: int)
    requires AtMost(t, k)
    ensures AtMost(Sweep(t), k - 1)
  {
  }

  lemma DeadIsEmpty(o: Settings, t: Table)
    requires TableOk(o, t) && AtMost(t, 0)
    ensures t.destinations == map[]
  {
    forall d | d in t.destinations ensures false {
      DeadRoutes(o, t, d);
    }
  }

  lemma DeadRoutes(o: Settings, t: Table, d: Callsign)
    requires TableOk(o, t) && d in t.destinations
    ensures !AtMost(t, 0)
  {
    var v :| v in t.destinations[d].routes;
    assert RouteOk(o, v, t.destinations[d].routes[v]);
  }

  ghost predicate NoNewTime(t: Table, t': Table) {
    forall d :: HoldsTime(t', d) ==> HoldsTime(t, d)
  }

  lemma LostChains(t: Table, a: Table, b: Table)
    requires NoNewTime(t, a) && NoNewTime(a, b)
    ensures NoNewTime(t, b) && Lost(t, b) == Lost(t, a) + Lost(a, b)
  {
    assert forall d :: HoldsTime(a, d) ==> d in a.destinations;
    assert forall d :: HoldsTime(t, d) ==> d in t.destinations;
  }

  lemma SweepLearnsNothing(t: Table)
    ensures NoNewTime(t, Sweep(t))
  {
    forall d | HoldsTime(Sweep(t), d) ensures HoldsTime(t, d) {
      var v :| v in RoutesTo(Sweep(t), d) && RoutesTo(Sweep(t), d)[v].inp3.Some?;
      assert v in RoutesTo(t, d) && RoutesTo(t, d)[v].inp3.Some?;
    }
  }

  /** `t'` is `t` after sweeps that leave no route above `k`. */
  ghost predicate Aged(o: Settings, t: Table, t': Table, k: int) {
    TableOk(o, t') && AtMost(t', k) && NoNewTime(t, t') && t'.withdrawn == t.withdrawn + Lost(t, t')
  }

  lemma AgedSweep(o: Settings, t: Table, t': Table, k: int)
    requires Usable(o) && Aged(o, t, t', k)
    ensures Aged(o, t, Sweep(t'), k - 1)
  {
    SweepAges(t', k);
    StepKeepsTable(o, t', Age, Sweep(t'));
    SweepLearnsNothing(t');
    ReducedAccounts(t', Sweep(t'), Survivors);
    LostChains(t, t', Sweep(t'));
  }

  lemma AgedFromTheStart(o: Settings, t: Table)
    requires TableOk(o, t) && AtMost(t, o.obsoleteInitial)
    ensures Aged(o, t, t, o.obsoleteInitial)
  {
    assert Lost(t, t) == {};
  }

  lemma AgedAt(o: Settings, ts: seq<Table>, ops: seq<Op>, n: nat, k: int)
    requires Usable(o) && Run(o, ts, ops) && 0 < n <= |ops| && ops[n - 1] == Age && Aged(o, ts[0], ts[n - 1], k + 1)
    ensures Aged(o, ts[0], ts[n], k)
  {
    assert StepAt(o, ts, ops, n - 1);
    AgedSweep(o, ts[0], ts[n - 1], k + 1);
  }

  lemma {:induction false} SweepsAge(o: Settings, ts: seq<Table>, ops: seq<Op>, n: nat, k: int)
    requires Usable(o) && Run(o, ts, ops) && n <= |ops| && forall i :: 0 <= i < n ==> ops[i] == Age
    requires Aged(o, ts[0], ts[0], k + n)
    ensures Aged(o, ts[0], ts[n], k)
  {
    if n > 0 {
      SweepsAge(o, ts, ops, n - 1, k + 1);
      AgedAt(o, ts, ops, n, k);
    }
  }

  /** With nothing heard, as many sweeps as a fresh route's count empty the table and withdraw every time-route. */
  lemma SweepsEmpty(o: Settings, ts: seq<Table>, ops: seq<Op>)
    requires Usable(o) && Run(o, ts, ops) && TableOk(o, ts[0])
    requires |ops| == o.obsoleteInitial && forall i :: 0 <= i < |ops| ==> ops[i] == Age
    ensures var t, t' := ts[0], ts[|ops|];
            t'.destinations == map[] && t'.neighbours == map[]
            && t'.withdrawn == t.withdrawn + set d | d in t.destinations && HoldsTime(t, d)
  {
    var t, t' := ts[0], ts[|ops|];
    YoungAtFirst(o, t);
    AgedFromTheStart(o, t);
    SweepsAge(o, ts, ops, |ops|, 0);
    DeadIsEmpty(o, t');
    EmptyHoldsNothing(t, t');
    LastSweep(o, ts, ops);
  }

  lemma YoungAtFirst(o: Settings, t: Table)
    requires TableOk(o, t)
    ensures AtMost(t, o.obsoleteInitial)
  {
    forall d, v | d in t.destinations && v in t.destinations[d].routes
      ensures t.destinations[d].routes[v].obsolescence <= o.obsoleteInitial
    {
      assert RoutesOk(o, t.destinations[d].routes);
    }
  }

  lemma EmptyHoldsNothing(t: Table, t': Table)
    requires t'.destinations == map[]
    ensures Lost(t, t') == set d | d in t.destinations && HoldsTime(t, d)
  {
    assert forall d :: !HoldsTime(t', d);
  }

  lemma LastSweep(o: Settings, ts: seq<Table>, ops: seq<Op>)
    requires Run(o, ts, ops) && ops != [] && ops[|ops| - 1] == Age && ts[|ops|].destinations == map[]
    ensures ts[|ops|].neighbours == map[]
  {
    assert StepAt(o, ts, ops, |ops| - 1);
  }
}
