/**
 * The mutable routing table. Every method's postcondition is the operation of the same name in RoutingSpec; where
 * a frame carries several entries, `trace` lists the tables between them.
 */
module RoutingTables {
  import opened Common
  import opened Callsigns
  import opened Inp3Rif
  import opened RoutingSpec
  import opened RouteOrders

  /** Every route sits under the key made of its own port and neighbour. */
  ghost predicate Keyed(t: Table) {
    forall d :: d in t.destinations ==> KeyedRoutes(t.destinations[d].routes)
  }

  class NetRomRoutingTable {
    const o: Settings
    var destinations: map<Callsign, Destination>
    var neighbours: map<Via, Neighbour>
    var withdrawn: set<Callsign>

    ghost function Value(): Table
      reads this
    {
      Table(destinations, neighbours, withdrawn)
    }

    constructor (o: Settings)
      ensures this.o == o && Value() == EMPTY && Keyed(Value())
    {
      this.o := o;
      destinations, neighbours, withdrawn := map[], map[], {};
    }

    // ---- Learning ----------------------------------------------------------------------------------------

    /** Ingest a NODES broadcast heard from `v` by `my`. */
    method Ingest(my: Callsign, v: Via, senderAlias: Text, entries: seq<NodesEntry>, neighbourQuality: Option<int>,
                  minQuality: Option<int>, now: int)
      returns (ghost trace: seq<Table>)
      requires Keyed(Value())
      modifies this
      ensures Keyed(Value())
      ensures var path := ClampQuality(
                if neighbourQuality.Some? then neighbourQuality.value else o.defaultNeighbourQuality);
              var floor := ClampQuality(if minQuality.Some? then minQuality.value else o.minQuality);
              Ingested(o, old(Value()), my, Broadcast(v, senderAlias, path, floor, now, entries), trace)
              && trace[|entries|] == Value()
    {
      var path := ClampQuality(if neighbourQuality.Some? then neighbourQuality.value else o.defaultNeighbourQuality);
      var floor := ClampQuality(if minQuality.Some? then minQuality.value else o.minQuality);
      neighbours := neighbours[v := Neighbour(v.neighbour, senderAlias, v.portId, path, now)];
      UpsertRoute(v.neighbour, senderAlias, v, path, floor);
      trace := IngestEntries(my, v, path, floor, entries);
      ghost var b := Broadcast(v, senderAlias, path, floor, now, entries);
      assert forall i :: 0 <= i < |entries| ==> IngestedAt(o, my, b, trace, i);
    }

    method IngestEntries(my: Callsign, v: Via, path: int, floor: int, entries: seq<NodesEntry>)
      returns (ghost trace: seq<Table>)
      requires Keyed(Value())
      modifies this`destinations
      ensures Keyed(Value())
      ensures |trace| == |entries| + 1 && trace[0] == old(Value()) && trace[|entries|] == Value()
      ensures forall i :: 0 <= i < |entries| ==> IngestEntry(o, trace[i], trace[i + 1], my, v, path, floor, entries[i])
    {
      trace := [Value()];
      for i := 0 to |entries|
        invariant Keyed(Value())
        invariant |trace| == i + 1 && trace[0] == old(Value()) && trace[i] == Value()
        invariant forall j :: 0 <= j < i ==> IngestEntry(o, trace[j], trace[j + 1], my, v, path, floor, entries[j])
      {
        IngestOneEntry(my, v, path, floor, entries[i]);
        trace := trace + [Value()];
      }
    }

    /** The body of that loop. */
    method IngestOneEntry(my: Callsign, v: Via, path: int, floor: int, e: NodesEntry)
      requires Keyed(Value())
      modifies this`destinations
      ensures Keyed(Value()) && IngestEntry(o, old(Value()), Value(), my, v, path, floor, e)
    {
      if e.destination == my {
        return;
      }
      var quality := if e.bestNeighbour == my then 0 else CombineQuality(e.bestQuality, path);
      UpsertRoute(e.destination, e.alias, v, quality, floor);
    }

    /** Ingest an INP3 frame heard from `v` by `my` over a link of cost `sntt`. */
    method IngestRif(my: Callsign, v: Via, sntt: int, rips: seq<Rip>, hopLimit: int)
      returns (ghost trace: seq<Table>)
      requires Keyed(Value())
      modifies this
      ensures Keyed(Value())
      ensures |trace| == |rips| + 1 && trace[0] == old(Value()) && trace[|rips|] == Value()
      ensures forall i :: 0 <= i < |rips| ==> IngestRip(o, trace[i], trace[i + 1], my, v, sntt, hopLimit, rips[i])
    {
      trace := [Value()];
      for i := 0 to |rips|
        invariant Keyed(Value())
        invariant |trace| == i + 1 && trace[0] == old(Value()) && trace[i] == Value()
        invariant forall j :: 0 <= j < i ==> IngestRip(o, trace[j], trace[j + 1], my, v, sntt, hopLimit, rips[j])
      {
        IngestOneRip(my, v, sntt, hopLimit, rips[i]);
        trace := trace + [Value()];
      }
    }

    /** The body of that loop. */
    method IngestOneRip(my: Callsign, v: Via, sntt: int, hopLimit: int, rip: Rip)
      requires Keyed(Value())
      modifies this
      ensures Keyed(Value()) && IngestRip(o, old(Value()), Value(), my, v, sntt, hopLimit, rip)
    {
      var linkMeasured := sntt != SNTT_UNSET;
      var localTargetTime := rip.targetTimeMs + sntt + PER_HOP_INCREMENT_MS;
      if rip.targetTimeMs >= HORIZON_MS || (linkMeasured && localTargetTime >= HORIZON_MS) {
        WithdrawInp3(rip.destination, v);
        return;
      }
      var localHopCount := rip.hopCount + 1;
      if !linkMeasured || localHopCount > Max(1, hopLimit) || rip.destination == my {
        return;
      }
      UpsertInp3Route(rip.destination, AliasOf(rip.tlvs), v, Metric(localTargetTime, Min(localHopCount, 255)));
    }

    method UpsertRoute(d: Callsign, alias: Text, v: Via, quality: int, floor: int)
      requires Keyed(Value())
      modifies this`destinations
      ensures Keyed(Value())
      ensures RoutingSpec.UpsertRoute(o, old(Value()), Value(), d, alias, v, quality, floor)
    {
      var acceptable := quality > 0 && quality >= floor;
      if d !in destinations && (!acceptable || |destinations| >= o.maxDestinations) {
        return;
      }
      var routes := if d in destinations then destinations[d].routes else map[];
      var name := if d in destinations && |alias| == 0 then destinations[d].alias else alias;
      if !acceptable {
        RemoveRoute(d, name, v);
        return;
      }
      var inp3 := if v in routes then routes[v].inp3 else None;
      Install(d, name, routes[v := Route(v.neighbour, v.portId, quality, o.obsoleteInitial, inp3)]);
    }

    method UpsertInp3Route(d: Callsign, alias: Text, v: Via, metric: Metric)
      requires Keyed(Value())
      modifies this`destinations
      ensures Keyed(Value())
      ensures UpsertTime(o, old(Value()), Value(), d, alias, v, metric)
    {
      if d !in destinations && |destinations| >= o.maxDestinations {
        return;
      }
      var routes := if d in destinations then destinations[d].routes else map[];
      var name := if d in destinations && |alias| == 0 then destinations[d].alias else alias;
      var route :=
        if v in routes then routes[v].(obsolescence := o.obsoleteInitial, inp3 := Some(metric))
        else Route(v.neighbour, v.portId, 0, o.obsoleteInitial, Some(metric));
      Install(d, name, routes[v := route]);
    }

    /** Make `all`, down to the route cap, the routes of `d`. */
    method Install(d: Callsign, name: Text, all: map<Via, Route>)
      requires Keyed(Value()) && KeyedRoutes(all) && name == AliasFor(Value(), d, name)
      modifies this`destinations
      ensures Keyed(Value()) && Installed(o, old(Value()), Value(), d, name, all)
    {
      var kept := EnforceRouteCap(o, all);
      destinations := destinations[d := Destination(name, kept)];
      assert RoutesTo(Value(), d) == kept;
    }

    /** Drop one route of a known destination, and the destination with its last route. */
    method RemoveRoute(d: Callsign, alias: Text, v: Via)
      requires Keyed(Value()) && d in destinations
      modifies this`destinations
      ensures Keyed(Value()) && Value() == Without(old(Value()), d, alias, v)
    {
      var routes := destinations[d].routes - {v};
      if |routes| == 0 {
        destinations := destinations - {d};
      } else {
        destinations := destinations[d := Destination(alias, routes)];
      }
    }

    method WithdrawInp3(d: Callsign, v: Via)
      requires Keyed(Value())
      modifies this
      ensures Keyed(Value()) && Value() == WithdrawTime(o, old(Value()), d, v)
    {
      if d !in destinations || v !in destinations[d].routes || destinations[d].routes[v].inp3.None? {
        return;
      }
      var dest := destinations[d];
      var route := dest.routes[v];
      if route.quality > 0 && route.quality >= o.minQuality {
        destinations := destinations[d := dest.(routes := dest.routes[v := route.(inp3 := None)])];
      } else {
        RemoveRoute(d, dest.alias, v);
      }
      var holds := HasAnyInp3Route(d);
      if !holds {
        withdrawn := withdrawn + {d};
      }
    }

    method HasAnyInp3Route(d: Callsign) returns (holds: bool)
      ensures holds == HoldsTime(Value(), d)
    {
      if d !in destinations {
        return false;
      }
      holds := AnyTime(destinations[d].routes);
    }

    // ---- Ageing and teardown -----------------------------------------------------------------------------

    method Sweep()
      requires Keyed(Value())
      modifies this
      ensures Keyed(Value()) && Value() == RoutingSpec.Sweep(old(Value()))
    {
      AgeRoutes();
      PruneOrphanNeighbours();
    }

    method AgeRoutes()
      requires Keyed(Value())
      modifies this
      ensures Keyed(Value()) && Value() == Reduced(old(Value()), Survivors)
    {
      ghost var t := Value();
      var todo, kept := destinations.Keys, destinations;
      while todo != {}
        invariant todo <= destinations.Keys && neighbours == t.neighbours && destinations == t.destinations
        invariant Progress(t, Survivors, todo, kept, withdrawn)
        decreases todo
      {
        var d :| d in todo;
        var routes := destinations[d].routes;
        var before := AnyTime(routes);
        var survivors := SurvivingRoutes(routes);
        var after := AnyTime(survivors);
        ProgressStep(t, Survivors, todo, kept, withdrawn, d);
        if before && !after {
          withdrawn := withdrawn + {d};
        }
        kept := if survivors == map[] then kept - {d} else kept[d := destinations[d].(routes := survivors)];
        todo := todo - {d};
      }
      ProgressDone(t, Survivors, kept, withdrawn);
      SurvivorsKeyed(t);
      destinations := kept;
    }

    method MarkNeighbourDown(v: Via)
      requires Keyed(Value())
      modifies this
      ensures Keyed(Value()) && Value() == NeighbourDown(old(Value()), v)
    {
      ghost var f := (routes: map<Via, Route>) => routes - {v};
      var todo, kept := destinations.Keys, destinations;
      while todo != {}
        invariant todo <= destinations.Keys && neighbours == old(neighbours) && destinations == old(destinations)
        invariant Progress(old(Value()), f, todo, kept, withdrawn)
        decreases todo
      {
        var d :| d in todo;
        var routes := destinations[d].routes;
        var removedTime := v in routes && routes[v].inp3.Some?;
        var left := routes - {v};
        var after := AnyTime(left);
        OnlyTimeRoute(routes, v);
        ProgressStep(old(Value()), f, todo, kept, withdrawn, d);
        if removedTime && !after {
          withdrawn := withdrawn + {d};
        }
        kept := if left == map[] then kept - {d} else kept[d := destinations[d].(routes := left)];
        todo := todo - {d};
      }
      ProgressDone(old(Value()), f, kept, withdrawn);
      destinations := kept;
      neighbours := neighbours - {v};
      PruneOrphanNeighbours();
    }

    /** Take `neighbour` down on every port it is known on, in some order. */
    method MarkNeighbourDownAllPorts(neighbour: Callsign) returns (ghost order: seq<PortId>)
      requires Keyed(Value())
      modifies this
      ensures Keyed(Value()) && Value() == DownOn(old(Value()), order, neighbour)
      ensures forall p :: p in order <==> p in PortsFor(old(Value()), neighbour)
    {
      var ports :=
        (set v | v in neighbours && v.neighbour == neighbour :: v.portId)
        + (set d, v | d in destinations && v in destinations[d].routes && v.neighbour == neighbour :: v.portId);
      order := [];
      ghost var all := ports;
      while ports != {}
        invariant Keyed(Value()) && ports <= all
        invariant Value() == DownOn(old(Value()), order, neighbour)
        invariant forall p :: p in order <==> p in all && p !in ports
        decreases ports
      {
        var p :| p in ports;
        ports := ports - {p};
        MarkNeighbourDown(Via(p, neighbour));
        assert (order + [p])[..|order|] == order;
        order := order + [p];
      }
    }

    method MarkPortDown(p: PortId)
      requires Keyed(Value())
      modifies this
      ensures Keyed(Value()) && Value() == PortDown(old(Value()), p)
    {
      ghost var f := (routes: map<Via, Route>) => OffPort(routes, p);
      var todo, kept := destinations.Keys, destinations;
      while todo != {}
        invariant todo <= destinations.Keys && neighbours == old(neighbours) && destinations == old(destinations)
        invariant Progress(old(Value()), f, todo, kept, withdrawn)
        decreases todo
      {
        var d :| d in todo;
        var before := AnyTime(destinations[d].routes);
        var left := OffPortRoutes(destinations[d].routes, p);
        var after := AnyTime(left);
        ProgressStep(old(Value()), f, todo, kept, withdrawn, d);
        if before && !after {
          withdrawn := withdrawn + {d};
        }
        kept := if left == map[] then kept - {d} else kept[d := destinations[d].(routes := left)];
        todo := todo - {d};
      }
      ProgressDone(old(Value()), f, kept, withdrawn);
      destinations := kept;
      neighbours := map v | v in neighbours && v.portId != p :: neighbours[v];
      PruneOrphanNeighbours();
    }

    /** Drop the neighbour entries that are no kept route's next hop. */
    method PruneOrphanNeighbours()
      modifies this`neighbours
      ensures Value() == old(Value()).(neighbours := InUse(old(Value())))
    {
      var inUse: set<Via> := {};
      var todo := destinations.Keys;
      while todo != {}
        invariant todo <= destinations.Keys
        invariant forall v :: v in inUse <==> exists d :: d in destinations && d !in todo && v in destinations[d].routes
        decreases todo
      {
        var d :| d in todo;
        inUse := inUse + destinations[d].routes.Keys;
        todo := todo - {d};
      }
      neighbours := map v | v in neighbours && v in inUse :: neighbours[v];
    }

    /** Hand out the withdrawn destinations and forget them. */
    method DrainRecentlyWithdrawn() returns (snapshot: set<Callsign>)
      modifies this`withdrawn
      ensures snapshot == old(withdrawn) && Value() == old(Value()).(withdrawn := {})
    {
      snapshot := withdrawn;
      withdrawn := {};
    }
  }

  // ---- Loops over one destination's routes -----------------------------------------------------------------

  method AnyTime(routes: map<Via, Route>) returns (found: bool)
    ensures found == HasTime(routes)
  {
    var todo := routes.Keys;
    while todo != {}
      invariant todo <= routes.Keys
      invariant forall v :: v in routes && v !in todo ==> routes[v].inp3.None?
      decreases todo
    {
      var v :| v in todo;
      if routes[v].inp3.Some? {
        return true;
      }
      todo := todo - {v};
    }
    return false;
  }

  method SurvivingRoutes(routes: map<Via, Route>) returns (survivors: map<Via, Route>)
    ensures survivors == Survivors(routes)
  {
    survivors := map[];
    var todo := routes.Keys;
    while todo != {}
      invariant todo <= routes.Keys
      invariant survivors == map v | v in routes && v !in todo && routes[v].obsolescence - 1 > 0
                               :: routes[v].(obsolescence := routes[v].obsolescence - 1)
      decreases todo
    {
      var v :| v in todo;
      var next := routes[v].obsolescence - 1;
      if next > 0 {
        survivors := survivors[v := routes[v].(obsolescence := next)];
      }
      todo := todo - {v};
    }
  }

  method OffPortRoutes(routes: map<Via, Route>, p: PortId) returns (left: map<Via, Route>)
    ensures left == OffPort(routes, p)
  {
    left := routes;
    var todo := routes.Keys;
    while todo != {}
      invariant todo <= routes.Keys
      invariant left == map v | v in routes && (v in todo || routes[v].portId != p) :: routes[v]
      decreases todo
    {
      var v :| v in todo;
      if routes[v].portId == p {
        left := left - {v};
      }
      todo := todo - {v};
    }
  }

  // ---- Loops over the destinations -------------------------------------------------------------------------

  /** The state of a loop that applies `f` to every destination, with `todo` still to visit. */
  ghost predicate Progress(t: Table, f: map<Via, Route> -> map<Via, Route>, todo: set<Callsign>,
                           kept: map<Callsign, Destination>, withdrawn: set<Callsign>)
  {
    && (forall d :: d in kept <==> d in t.destinations && (d in todo || f(t.destinations[d].routes) != map[]))
    && (forall d :: d in kept ==>
          kept[d] == if d in todo then t.destinations[d] else t.destinations[d].(routes := f(t.destinations[d].routes)))
    && (forall d :: d in withdrawn <==>
          d in t.withdrawn
          || (d in t.destinations && d !in todo && HasTime(t.destinations[d].routes)
              && !HasTime(f(t.destinations[d].routes))))
  }

  lemma ProgressStep(t: Table, f: map<Via, Route> -> map<Via, Route>, todo: set<Callsign>,
                     kept: map<Callsign, Destination>, withdrawn: set<Callsign>, d: Callsign)
    requires Progress(t, f, todo, kept, withdrawn) && d in todo && d in t.destinations
    ensures var routes := t.destinations[d].routes;
            Progress(t, f, todo - {d},
                     if f(routes) == map[] then kept - {d} else kept[d := t.destinations[d].(routes := f(routes))],
                     if HasTime(routes) && !HasTime(f(routes)) then withdrawn + {d} else withdrawn)
  {
  }

  lemma ProgressDone(t: Table, f: map<Via, Route> -> map<Via, Route>, kept: map<Callsign, Destination>,
                     withdrawn: set<Callsign>)
    requires Progress(t, f, {}, kept, withdrawn)
    ensures Table(kept, t.neighbours, withdrawn) == Reduced(t, f)
  {
    var reduced := t.(destinations :=
      map d | d in t.destinations && f(t.destinations[d].routes) != map[]
        :: t.destinations[d].(routes := f(t.destinations[d].routes)));
    assert kept == reduced.destinations;
    forall d ensures d in withdrawn <==> d in t.withdrawn + Lost(t, reduced) {
      if d in t.destinations {
        assert !HasTime(map[]);
        assert RoutesTo(t, d) == t.destinations[d].routes;
        assert RoutesTo(reduced, d) == f(t.destinations[d].routes);
      }
    }
  }

  lemma ReducedKeyed(t: Table, f: map<Via, Route> -> map<Via, Route>)
    requires Keyed(t) && forall routes :: KeyedRoutes(routes) ==> KeyedRoutes(f(routes))
    ensures Keyed(Reduced(t, f))
  {
  }

  lemma SurvivorsKeyed(t: Table)
    requires Keyed(t)
    ensures Keyed(Reduced(t, Survivors))
  {
    ReducedKeyed(t, Survivors);
  }

  /** Removing one route loses the time-routes only if it carried one. */
  lemma OnlyTimeRoute(routes: map<Via, Route>, v: Via)
    ensures HasTime(routes) && !HasTime(routes - {v}) <==>
              v in routes && routes[v].inp3.Some? && !HasTime(routes - {v})
  {
    if HasTime(routes) && !HasTime(routes - {v}) {
      var w :| w in routes && routes[w].inp3.Some?;
      assert w != v ==> w in routes - {v};
    }
  }
}
