/** Short runs in which the routing table forgets a time-route silently, and what poison reverse then misses. */
module RoutingExamples {
  import opened Common
  import opened Callsigns
  import opened Inp3Rif
  import opened RifDamage
  import opened RoutingSpec
  import opened RoutingSafety
  import opened InterlinkNetwork

  predicate Roomy(o: Settings) {
    o.maxRoutes >= 1 && o.obsoleteInitial >= 1 && o.maxDestinations >= 3
  }

  /** A route with a time and no quality. */
  function TimeOnly(o: Settings, v: Via, m: Metric): Route {
    Route(v.neighbour, v.portId, 0, o.obsoleteInitial, Some(m))
  }

  function QualityOnly(o: Settings, v: Via, quality: int): Route {
    Route(v.neighbour, v.portId, quality, o.obsoleteInitial, None)
  }

  /** The table with one route to `d`. */
  function With(t: Table, d: Callsign, alias: Text, v: Via, r: Route): Table {
    WithRoutes(t, d, alias, map[v := r])
  }

  function Only(d: Callsign, v: Via, r: Route): Table {
    With(EMPTY, d, [], v, r)
  }

  /** What the first RIP heard over a link of no cost leaves in an otherwise free slot. */
  function Heard(o: Settings, t: Table, v: Via, rip: Rip): Table {
    With(t, rip.destination, [], v, TimeOnly(o, v, Taught(rip, 0)))
  }

  /** A RIP for a destination known only by way of its sender, and by time alone. */
  lemma Hears(o: Settings, t: Table, my: Callsign, v: Via, rip: Rip)
    requires Roomy(o) && RoomFor(o, t, rip.destination) && rip.tlvs == [] && rip.destination != my
    requires 0 <= rip.targetTimeMs && Taught(rip, 0).targetTimeMs < HORIZON_MS && rip.hopCount < 30
    requires rip.destination in t.destinations ==>
               t.destinations[rip.destination] == Destination([], map[v := TimeOnly(o, v, Taught(rip, 0))])
    ensures IngestRip(o, t, Heard(o, t, v, rip), my, v, 0, 30, rip)
  {
    var d := rip.destination;
    var r := TimeRoute(o, t, d, v, Taught(rip, 0));
    assert RoutesTo(t, d)[v := r] == map[v := r];
    assert Capped(o, map[v := r], map[v := r]);
    assert AliasFor(t, d, []) == [];
  }

  /** The RIP of a node two hops away, as its neighbour passes it on. */
  function Distant(d: Callsign): Rip {
    Rip(d, 1, 10, [])
  }

  /** The table after that is heard first. */
  function Early(o: Settings, d: Callsign, v: Via): Table {
    Only(d, v, TimeOnly(o, v, Metric(20, 2)))
  }

  lemma HearsDistant(o: Settings, my: Callsign, d: Callsign, v: Via)
    requires Roomy(o) && d != my
    ensures Run(o, [EMPTY, Early(o, d, v)], [HearRip(my, v, 0, 30, Distant(d))])
  {
    Hears(o, EMPTY, my, v, Distant(d));
    assert StepAt(o, [EMPTY, Early(o, d, v)], [HearRip(my, v, 0, 30, Distant(d))], 0);
  }

  // ---- Broadcasts of one entry -----------------------------------------------------------------------------

  lemma UpsertAdds(o: Settings, t: Table, d: Callsign, alias: Text, v: Via, quality: int, floor: int)
    requires Roomy(o) && d !in t.destinations && |t.destinations| < o.maxDestinations && Acceptable(quality, floor)
    ensures UpsertRoute(o, t, With(t, d, alias, v, QualityOnly(o, v, quality)), d, alias, v, quality, floor)
  {
    var r := QualityOnly(o, v, quality);
    assert Capped(o, map[v := r], map[v := r]);
    assert RoutesTo(t, d)[v := r] == map[v := r];
  }

  /** `t` without `d`. */
  function Dropped(t: Table, d: Callsign): Table {
    t.(destinations := t.destinations - {d})
  }

  lemma UpsertDrops(o: Settings, t: Table, d: Callsign, alias: Text, v: Via, quality: int, floor: int)
    requires d in t.destinations && t.destinations[d].routes.Keys == {v} && !Acceptable(quality, floor)
    ensures UpsertRoute(o, t, Dropped(t, d), d, alias, v, quality, floor)
  {
    assert RoutesTo(t, d) - {v} == map[];
  }

  lemma UpsertEvicts(o: Settings, t: Table, d: Callsign, alias: Text, v: Via, m: Metric, w: Via, quality: int,
                     floor: int)
    requires Roomy(o) && o.maxRoutes == 1 && v != w && Acceptable(quality, floor)
    requires d in t.destinations && t.destinations[d].routes == map[v := TimeOnly(o, v, m)]
    ensures UpsertRoute(o, t, With(t, d, AliasFor(t, d, alias), w, QualityOnly(o, w, quality)), d, alias, w, quality,
                        floor)
  {
    var slow, good := TimeOnly(o, v, m), QualityOnly(o, w, quality);
    assert RoutesTo(t, d)[w := good] == map[v := slow, w := good];
    BetterIsKept(o, v, slow, w, good);
  }

  lemma BetterIsKept(o: Settings, v: Via, slow: Route, w: Via, good: Route)
    requires o.maxRoutes == 1 && v != w && slow.quality < good.quality
    ensures Capped(o, map[v := slow, w := good], map[w := good])
  {
  }

  lemma OneEntry(o: Settings, t: Table, my: Callsign, b: Broadcast, t1: Table, t2: Table)
    requires |b.entries| == 1 && IngestEntry(o, t1, t2, my, b.v, b.path, b.floor, b.entries[0])
    requires UpsertRoute(o, t.(neighbours := t.neighbours[b.v := NeighbourOf(b)]), t1, b.v.neighbour, b.alias, b.v,
                         b.path, b.floor)
    ensures Ingested(o, t, my, b, [t1, t2])
  {
    assert IngestedAt(o, my, b, [t1, t2], 0);
  }

  /** A broadcast of one entry, about `d`, from a sender other than `d` that is itself worth a direct route. */
  predicate About(my: Callsign, d: Callsign, b: Broadcast) {
    && |b.entries| == 1 && b.entries[0].destination == d && b.v.neighbour != d && d != my
    && Acceptable(b.path, b.floor) && b.path <= QUALITY_MAX
  }

  /** The table once the sender is a neighbour with a direct route. */
  function Direct(o: Settings, t: Table, b: Broadcast): Table {
    With(t.(neighbours := t.neighbours[b.v := NeighbourOf(b)]), b.v.neighbour, b.alias, b.v,
         QualityOnly(o, b.v, b.path))
  }

  lemma GetsDirect(o: Settings, t: Table, b: Broadcast)
    requires Roomy(o) && b.v.neighbour !in t.destinations && |t.destinations| < o.maxDestinations
    requires Acceptable(b.path, b.floor)
    ensures UpsertRoute(o, t.(neighbours := t.neighbours[b.v := NeighbourOf(b)]), Direct(o, t, b), b.v.neighbour,
                        b.alias, b.v, b.path, b.floor)
  {
    UpsertAdds(o, t.(neighbours := t.neighbours[b.v := NeighbourOf(b)]), b.v.neighbour, b.alias, b.v, b.path, b.floor);
  }

  /** The neighbour `d`'s only route goes by says that it goes by way of us: the route is dropped. */
  lemma LoopIsDropped(o: Settings, my: Callsign, d: Callsign, b: Broadcast)
    requires Roomy(o) && About(my, d, b) && b.entries[0].bestNeighbour == my
    ensures var t := Early(o, d, b.v);
            Ingested(o, t, my, b, [Direct(o, t, b), Dropped(Direct(o, t, b), d)])
  {
    var t := Early(o, d, b.v);
    GetsDirect(o, t, b);
    UpsertDrops(o, Direct(o, t, b), d, b.entries[0].alias, b.v, 0, b.floor);
    OneEntry(o, t, my, b, Direct(o, t, b), Dropped(Direct(o, t, b), d));
  }

  lemma TimeIsLost(o: Settings, t': Table, d: Callsign, v: Via)
    requires !HoldsTime(t', d)
    ensures d in Lost(Early(o, d, v), t')
  {
    assert v in RoutesTo(Early(o, d, v), d) && RoutesTo(Early(o, d, v), d)[v].inp3.Some?;
  }

  // ---- Losses ----------------------------------------------------------------------------------------------

  /**
   * A node hears D's time from a neighbour, and then in the neighbour's NODES broadcast that it goes to D by way of
   * us: the time-route is gone, unrecorded.
   */
  lemma DropsUnrecorded(o: Settings, my: Callsign, d: Callsign, b: Broadcast) returns (t: Table, trace: seq<Table>)
    requires Roomy(o) && About(my, d, b) && b.entries[0].bestNeighbour == my
    ensures Run(o, [EMPTY, t], [HearRip(my, b.v, 0, 30, Distant(d))]) && Ingested(o, t, my, b, trace)
    ensures d in Lost(t, trace[1]) && t.withdrawn == trace[1].withdrawn == {}
  {
    t := Early(o, d, b.v);
    var direct := Direct(o, t, b);
    trace := [direct, Dropped(direct, d)];
    HearsDistant(o, my, d, b.v);
    LoopIsDropped(o, my, d, b);
    TimeIsLost(o, Dropped(direct, d), d, b.v);
  }

  /** With a cap of one route, any acceptable entry for D in the broadcast of another neighbour does the same. */
  lemma EvictsUnrecorded(o: Settings, my: Callsign, d: Callsign, v: Via, b: Broadcast)
    returns (t: Table, trace: seq<Table>)
    requires Roomy(o) && o.maxRoutes == 1 && About(my, d, b) && b.v != v
    requires Acceptable(DerivedQuality(my, b.entries[0], b.path), b.floor)
    ensures Run(o, [EMPTY, t], [HearRip(my, v, 0, 30, Distant(d))]) && Ingested(o, t, my, b, trace)
    ensures d in Lost(t, trace[1]) && t.withdrawn == trace[1].withdrawn == {}
  {
    t := Early(o, d, v);
    var e, direct := b.entries[0], Direct(o, t, b);
    var quality := DerivedQuality(my, e, b.path);
    var t2 := With(direct, d, AliasFor(direct, d, e.alias), b.v, QualityOnly(o, b.v, quality));
    trace := [direct, t2];
    HearsDistant(o, my, d, v);
    GetsDirect(o, t, b);
    UpsertEvicts(o, direct, d, e.alias, v, Metric(20, 2), b.v, quality, b.floor);
    OneEntry(o, t, my, b, direct, t2);
    TimeIsLost(o, t2, d, v);
  }

  // ---- Poison reverse --------------------------------------------------------------------------------------

  const STRICT := Options(false, false)

  /** A short frame comes off the wire as it was sent. */
  lemma ShortFrameArrives(rips: seq<Rip>)
    requires Plain(rips) && NamedAll(rips) && 1 <= |rips| <= 9
    ensures ParseRif(RifBytes(rips), STRICT) == Some(rips)
  {
    NineAlwaysFit(rips);
    RifRoundTripIff(rips, STRICT);
  }

  /** A's frame while it holds a time-route to D not by way of B: itself and D. */
  lemma FrameWithTime(o: Settings, a: Callsign, b: Callsign, d: Callsign, v: Via)
    requires a != d && v.neighbour != b
    ensures IsRif(Early(o, d, v), a, b, {}, [OwnRip(a), Rip(d, 2, 20, [])], [Listed(Rip(d, 2, 20, []), 20)], [])
  {
    var t := Early(o, d, v);
    var e := Listed(Rip(d, 2, 20, []), 20);
    assert RoutesTo(t, d) == map[v := TimeOnly(o, v, Metric(20, 2))];
    assert IsBest(RoutesTo(t, d), Metric(20, 2)) by {
      assert v in RoutesTo(t, d) && RoutesTo(t, d)[v].inp3 == Some(Metric(20, 2));
    }
    assert Advertises(RoutesTo(t, d), b, d, e);
    assert Timed(t, a) == {d};
    assert e in [e];
    assert Named([e]) == {d};
    assert Arranged([OwnRip(a), e.rip], a, [e], []);
  }

  /** A's frame once it knows nothing by time: itself. */
  lemma FrameWithoutTime(t: Table, a: Callsign, b: Callsign)
    requires forall d :: !HoldsTime(t, d)
    ensures IsRif(t, a, b, {}, [OwnRip(a)], [], [])
  {
    assert Timed(t, a) == {};
    assert Arranged([OwnRip(a)], a, [], []);
  }

  /** What B holds after that first frame. */
  function AfterFirst(o: Settings, a: Callsign, d: Callsign, v: Via): Table {
    Heard(o, Heard(o, EMPTY, v, OwnRip(a)), v, Rip(d, 2, 20, []))
  }

  lemma FirstFrameIsHeard(o: Settings, a: Callsign, b: Callsign, d: Callsign, v: Via)
    requires Roomy(o) && a != b && a != d && b != d
    ensures Ingests(o, b, v, 0, 30, [OwnRip(a), Rip(d, 2, 20, [])],
                    [EMPTY, Heard(o, EMPTY, v, OwnRip(a)), AfterFirst(o, a, d, v)])
    ensures TimeVia(AfterFirst(o, a, d, v), d, v) == Some(Metric(30, 3))
  {
    var rips := [OwnRip(a), Rip(d, 2, 20, [])];
    var trace := [EMPTY, Heard(o, EMPTY, v, OwnRip(a)), AfterFirst(o, a, d, v)];
    Hears(o, EMPTY, b, v, OwnRip(a));
    Hears(o, trace[1], b, v, rips[1]);
    forall i | 0 <= i < |rips| ensures IngestsAt(o, b, v, 0, 30, rips, trace, i) {
      assert i == 0 || i == 1;
    }
  }

  lemma SecondFrameIsHeard(o: Settings, a: Callsign, b: Callsign, d: Callsign, v: Via)
    requires Roomy(o) && a != b && a != d && b != d
    ensures Ingests(o, b, v, 0, 30, [OwnRip(a)], [AfterFirst(o, a, d, v), AfterFirst(o, a, d, v)])
  {
    var t := AfterFirst(o, a, d, v);
    Hears(o, t, b, v, OwnRip(a));
    assert t.destinations[a := t.destinations[a]] == t.destinations;
    assert Heard(o, t, v, OwnRip(a)) == t;
    forall i | 0 <= i < 1 ensures IngestsAt(o, b, v, 0, 30, [OwnRip(a)], [t, t], i) {
    }
  }

  /**
   * A's table makes the frame `rips` for B, with nothing withdrawn; it comes off the wire as it was sent, and B taking
   * it in goes from `tb` to `tb'`.
   */
  ghost predicate Tells(o: Settings, a: Callsign, ta: Table, b: Callsign, v: Via, rips: seq<Rip>, tb: Table, tb': Table)
  {
    && Plain(rips) && ParseRif(RifBytes(rips), STRICT) == Some(rips)
    && exists listed, trace :: IsRif(ta, a, b, ta.withdrawn, rips, listed, []) && Ingests(o, b, v, 0, 30, rips, trace)
         && trace[0] == tb && trace[|rips|] == tb'
  }

  predicate Nameable(c: Callsign) {
    Valid(c) && c.base != []
  }

  lemma TellsBy(o: Settings, a: Callsign, ta: Table, b: Callsign, v: Via, rips: seq<Rip>, listed: seq<Listed>,
                trace: seq<Table>)
    requires Plain(rips) && NamedAll(rips) && 1 <= |rips| <= 9
    requires IsRif(ta, a, b, ta.withdrawn, rips, listed, []) && Ingests(o, b, v, 0, 30, rips, trace)
    ensures Tells(o, a, ta, b, v, rips, trace[0], trace[|rips|])
  {
    ShortFrameArrives(rips);
  }

  lemma PairIsPlain(x: Rip, y: Rip)
    requires WellFormed(x) && WellFormed(y) && x.tlvs == y.tlvs == []
    requires x.destination.base != [] && y.destination.base != []
    ensures Plain([x, y]) && NamedAll([x, y])
  {
  }

  lemma TellsOfD(o: Settings, a: Callsign, b: Callsign, d: Callsign, toN: Via, toA: Via)
    requires Roomy(o) && a != b && a != d && b != d && toN.neighbour != b && Nameable(a) && Nameable(d)
    ensures Tells(o, a, Early(o, d, toN), b, toA, [OwnRip(a), Rip(d, 2, 20, [])], EMPTY, AfterFirst(o, a, d, toA))
  {
    PairIsPlain(OwnRip(a), Rip(d, 2, 20, []));
    FrameWithTime(o, a, b, d, toN);
    FirstFrameIsHeard(o, a, b, d, toA);
    TellsBy(o, a, Early(o, d, toN), b, toA, [OwnRip(a), Rip(d, 2, 20, [])], [Listed(Rip(d, 2, 20, []), 20)],
            [EMPTY, Heard(o, EMPTY, toA, OwnRip(a)), AfterFirst(o, a, d, toA)]);
  }

  lemma TellsNothing(o: Settings, a: Callsign, t: Table, b: Callsign, d: Callsign, toA: Via)
    requires Roomy(o) && a != b && a != d && b != d && Nameable(a)
    requires t.withdrawn == {} && forall e :: !HoldsTime(t, e)
    ensures Tells(o, a, t, b, toA, [OwnRip(a)], AfterFirst(o, a, d, toA), AfterFirst(o, a, d, toA))
  {
    FrameWithoutTime(t, a, b);
    SecondFrameIsHeard(o, a, b, d, toA);
    TellsBy(o, a, t, b, toA, [OwnRip(a)], [], [AfterFirst(o, a, d, toA), AfterFirst(o, a, d, toA)]);
  }

  /** A table that knows one neighbour, and that by quality alone. */
  predicate KnowsOne(t: Table, n: Callsign) {
    t.destinations.Keys == {n} && t.withdrawn == {} && !HasTime(t.destinations[n].routes)
  }

  lemma AfterLoop(o: Settings, d: Callsign, b: Broadcast)
    requires b.v.neighbour != d
    ensures KnowsOne(Dropped(Direct(o, Early(o, d, b.v), b), d), b.v.neighbour)
  {
  }

  /** On such a table, an acceptable entry for D in another's broadcast gives D a quality route by way of it. */
  lemma GetsRoute(o: Settings, t: Table, n: Callsign, my: Callsign, d: Callsign, b: Broadcast)
    returns (trace: seq<Table>)
    requires Roomy(o) && About(my, d, b) && KnowsOne(t, n) && n != d && n != b.v.neighbour
    requires Acceptable(DerivedQuality(my, b.entries[0], b.path), b.floor)
    ensures Ingested(o, t, my, b, trace) && GoesVia(RoutesTo(trace[1], d), b.v.neighbour)
    ensures trace[1].withdrawn == {} && forall e :: !HoldsTime(trace[1], e)
  {
    var e, direct := b.entries[0], Direct(o, t, b);
    var quality := DerivedQuality(my, e, b.path);
    var r := QualityOnly(o, b.v, quality);
    trace := [direct, With(direct, d, e.alias, b.v, r)];
    CountOne(t.destinations, n);
    GetsDirect(o, t, b);
    CountTwo(direct.destinations, n, b.v.neighbour);
    UpsertAdds(o, direct, d, e.alias, b.v, quality, b.floor);
    OneEntry(o, t, my, b, direct, trace[1]);
    assert b.v in RoutesTo(trace[1], d) && RoutesTo(trace[1], d)[b.v] == r;
  }

  lemma CountOne<K, V>(m: map<K, V>, a: K)
    requires m.Keys == {a}
    ensures |m| == 1
  {
    assert |m| == |m.Keys|;
  }

  lemma CountTwo<K, V>(m: map<K, V>, a: K, b: K)
    requires m.Keys == {a, b} && a != b
    ensures |m| == 2
  {
    assert |m| == |m.Keys|;
  }

  /**
   * Poison reverse misses. A hears D's time from N and tells B. N's broadcast, saying that it goes to D by way of A,
   * then costs A that time-route, and B's gives it a route to D by way of B. A's next frame to B says nothing of D, and
   * B keeps its time-route to D by way of A while A goes by way of B.
   */
  lemma PoisonMisses(o: Settings, a: Callsign, b: Callsign, d: Callsign, fromN: Broadcast, fromB: Broadcast, toA: Via)
    returns (early: Table, between: seq<Table>, late: seq<Table>, tb: Table)
    requires Roomy(o) && a != b && b != d && Nameable(a) && Nameable(d)
    requires About(a, d, fromN) && About(a, d, fromB) && fromB.v.neighbour == b != fromN.v.neighbour
    requires fromN.entries[0].bestNeighbour == a
    requires Acceptable(DerivedQuality(a, fromB.entries[0], fromB.path), fromB.floor)
    ensures Run(o, [EMPTY, early], [HearRip(a, fromN.v, 0, 30, Distant(d))])
    ensures Tells(o, a, early, b, toA, [OwnRip(a), Rip(d, 2, 20, [])], EMPTY, tb)
    ensures Ingested(o, early, a, fromN, between) && Ingested(o, between[1], a, fromB, late)
    ensures Tells(o, a, late[1], b, toA, [OwnRip(a)], tb, tb)
    ensures GoesVia(RoutesTo(late[1], d), b) && TimeVia(tb, d, toA) == Some(Metric(30, 3))
  {
    early, tb := Early(o, d, fromN.v), AfterFirst(o, a, d, toA);
    HearsDistant(o, a, d, fromN.v);
    TellsOfD(o, a, b, d, fromN.v, toA);
    FirstFrameIsHeard(o, a, b, d, toA);
    between := [Direct(o, early, fromN), Dropped(Direct(o, early, fromN), d)];
    LoopIsDropped(o, a, d, fromN);
    AfterLoop(o, d, fromN);
    late := GetsRoute(o, between[1], fromN.v.neighbour, a, d, fromB);
    TellsNothing(o, a, late[1], b, d, toA);
  }
}
