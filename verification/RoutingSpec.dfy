/**
 * The NET/ROM routing table as a value, and what each operation makes of it.
 *
 * A route carries two independent metrics: a quality learned from NODES broadcasts and a measured target time
 * learned from INP3 frames. Operations whose result depends on how a sort orders equal elements (the route cap)
 * are relations; the others are functions. The mutable table is `NetRomRoutingTable` in RoutingTable.dfy.
 */
module RoutingSpec {
  import opened Common
  import opened Callsigns
  import opened Inp3Rif

  /** Character codes of a port id or an alias. */
  type Text = seq<int>

  type PortId = Text

  /** The key of a route and of a neighbour entry. */
  datatype Via = Via(portId: PortId, neighbour: Callsign)

  datatype Metric = Metric(targetTimeMs: int, hopCount: nat)

  datatype Route = Route(neighbour: Callsign, portId: PortId, quality: int, obsolescence: int, inp3: Option<Metric>)

  datatype Destination = Destination(alias: Text, routes: map<Via, Route>)

  datatype Neighbour = Neighbour(neighbour: Callsign, alias: Text, portId: PortId, pathQuality: int, lastHeard: int)

  /** `rank` is the host's port order; without one, port ids compare as text. */
  datatype Settings = Settings(
    defaultNeighbourQuality: int,
    minQuality: int,
    obsoleteInitial: int,
    maxRoutes: nat,
    maxDestinations: int,
    rank: Option<PortId -> int>)

  /** `withdrawn` holds the destinations that lost their last time-route and have not been drained since. */
  datatype Table = Table(
    destinations: map<Callsign, Destination>,
    neighbours: map<Via, Neighbour>,
    withdrawn: set<Callsign>)

  const EMPTY := Table(map[], map[], {})

  const QUALITY_MAX := 255
  const PER_HOP_INCREMENT_MS := 10
  const SNTT_UNSET := 0xffffffff

  // ---- Order -----------------------------------------------------------------------------------------------

  /** Code-point order of two texts: negative, zero or positive. */
  function Ordinal(a: Text, b: Text): int {
    if a == [] then (if b == [] then 0 else -1)
    else if b == [] then 1
    else if a[0] < b[0] then -1
    else if a[0] > b[0] then 1
    else Ordinal(a[1..], b[1..])
  }

  /** The canonical text of a callsign: its base, and a dash and the SSID unless that is 0. */
  function TextOf(c: Callsign): Text {
    c.base + Suffix(c.ssid)
  }

  function Suffix(ssid: nat): Text {
    if ssid == 0 then [] else [0x2d] + (if ssid >= 10 then [0x31] else []) + [0x30 + ssid % 10]
  }

  function ComparePorts(o: Settings, a: PortId, b: PortId): int {
    if o.rank.Some? then o.rank.value(a) - o.rank.value(b) else Ordinal(a, b)
  }

  /** Best quality first, then port order, then callsign; negative when `a` comes before `b`. */
  function RouteOrder(o: Settings, a: Route, b: Route): int {
    if a.quality != b.quality then b.quality - a.quality
    else if ComparePorts(o, a.portId, b.portId) != 0 then ComparePorts(o, a.portId, b.portId)
    else Ordinal(TextOf(a.neighbour), TextOf(b.neighbour))
  }

  /** `kept` is what remains of `all` under the route cap: as many as fit, none of them outranked by an evicted one. */
  ghost predicate Capped(o: Settings, all: map<Via, Route>, kept: map<Via, Route>) {
    && kept.Keys <= all.Keys
    && (forall v :: v in kept ==> kept[v] == all[v])
    && |kept| == (if |all| <= o.maxRoutes then |all| else o.maxRoutes)
    && (forall v, e :: v in kept && e in all && e !in kept ==> RouteOrder(o, all[v], all[e]) <= 0)
  }

  // ---- Advertisements --------------------------------------------------------------------------------------

  /** One entry of a NODES broadcast. */
  datatype NodesEntry = NodesEntry(destination: Callsign, alias: Text, bestNeighbour: Callsign, bestQuality: int)

  function ClampQuality(value: int): int {
    Clamp(value, 0, QUALITY_MAX)
  }

  /** The advertised quality scaled by the path quality, rounded, within 0..255. */
  function CombineQuality(broadcast: int, path: int): int {
    Clamp((broadcast * path + 128) / 256, 0, QUALITY_MAX)
  }

  /** The quality derived for an entry heard by `my`; 0 when the advertiser would come back through us. */
  function DerivedQuality(my: Callsign, e: NodesEntry, path: int): int {
    if e.bestNeighbour == my then 0 else CombineQuality(e.bestQuality, path)
  }

  function Printable(value: bytes): Text {
    if value == [] then []
    else
      var last := value[|value| - 1];
      Printable(value[..|value| - 1]) + if 0x20 <= last <= 0x7e then [last as int] else []
  }

  function TrimRight(t: Text): Text {
    if t != [] && t[|t| - 1] == 0x20 then TrimRight(t[..|t| - 1]) else t
  }

  /** The first alias TLV of a RIP, decoded; empty when there is none. */
  function AliasOf(tlvs: seq<Tlv>): Text {
    if tlvs == [] then [] else if tlvs[0].kind == 0 then TrimRight(Printable(tlvs[0].value)) else AliasOf(tlvs[1..])
  }

  // ---- Queries ---------------------------------------------------------------------------------------------

  predicate HasTime(routes: map<Via, Route>) {
    exists v :: v in routes && routes[v].inp3.Some?
  }

  function RoutesTo(t: Table, d: Callsign): map<Via, Route> {
    if d in t.destinations then t.destinations[d].routes else map[]
  }

  predicate HoldsTime(t: Table, d: Callsign) {
    HasTime(RoutesTo(t, d))
  }

  /** The time metric held for `d` via `v`. */
  function TimeVia(t: Table, d: Callsign, v: Via): Option<Metric> {
    if v in RoutesTo(t, d) then RoutesTo(t, d)[v].inp3 else None
  }

  /** The destinations that had a time-route in `t` and have none in `t'`. */
  ghost function Lost(t: Table, t': Table): set<Callsign> {
    set d | d in t.destinations && HoldsTime(t, d) && !HoldsTime(t', d)
  }

  // ---- Learning --------------------------------------------------------------------------------------------

  predicate Acceptable(quality: int, floor: int) {
    quality > 0 && quality >= floor
  }

  function AliasFor(t: Table, d: Callsign, alias: Text): Text {
    if d in t.destinations && alias == [] then t.destinations[d].alias else alias
  }

  predicate RoomFor(o: Settings, t: Table, d: Callsign) {
    d in t.destinations || |t.destinations| < o.maxDestinations
  }

  function WithRoutes(t: Table, d: Callsign, alias: Text, routes: map<Via, Route>): Table {
    t.(destinations := t.destinations[d := Destination(alias, routes)])
  }

  /** `t` without the route to `d` via `v`, and without `d` when that was its last. */
  function Without(t: Table, d: Callsign, alias: Text, v: Via): Table {
    var routes := RoutesTo(t, d) - {v};
    if routes == map[] then t.(destinations := t.destinations - {d}) else WithRoutes(t, d, alias, routes)
  }

  /** The quality route a NODES advertisement installs, carrying over a time metric already held. */
  function QualityRoute(o: Settings, t: Table, d: Callsign, v: Via, quality: int): Route {
    Route(v.neighbour, v.portId, quality, o.obsoleteInitial, TimeVia(t, d, v))
  }

  /** The route an INP3 entry installs, carrying over a quality already held. */
  function TimeRoute(o: Settings, t: Table, d: Callsign, v: Via, metric: Metric): Route {
    var routes := RoutesTo(t, d);
    if v in routes then routes[v].(obsolescence := o.obsoleteInitial, inp3 := Some(metric))
    else Route(v.neighbour, v.portId, 0, o.obsoleteInitial, Some(metric))
  }

  /** `d` now has the best of the routes `all`, and nothing else changed. */
  ghost predicate Installed(o: Settings, t: Table, t': Table, d: Callsign, alias: Text, all: map<Via, Route>) {
    var kept := RoutesTo(t', d);
    Capped(o, all, kept) && t' == WithRoutes(t, d, AliasFor(t, d, alias), kept)
  }

  ghost predicate UpsertRoute(
    o: Settings, t: Table, t': Table, d: Callsign, alias: Text, v: Via, quality: int, floor: int)
  {
    var good := Acceptable(quality, floor);
    if !good then t' == if d in t.destinations then Without(t, d, AliasFor(t, d, alias), v) else t
    else if !RoomFor(o, t, d) then t' == t
    else Installed(o, t, t', d, alias, RoutesTo(t, d)[v := QualityRoute(o, t, d, v, quality)])
  }

  ghost predicate UpsertTime(
    o: Settings, t: Table, t': Table, d: Callsign, alias: Text, v: Via, metric: Metric)
  {
    if !RoomFor(o, t, d) then t' == t
    else Installed(o, t, t', d, alias, RoutesTo(t, d)[v := TimeRoute(o, t, d, v, metric)])
  }

  ghost function WithdrawTime(o: Settings, t: Table, d: Callsign, v: Via): Table {
    if TimeVia(t, d, v).None? then t
    else
      var route := RoutesTo(t, d)[v];
      var alias := t.destinations[d].alias;
      var t1 :=
        if Acceptable(route.quality, o.minQuality)
        then WithRoutes(t, d, alias, RoutesTo(t, d)[v := route.(inp3 := None)])
        else Without(t, d, alias, v);
      if HoldsTime(t1, d) then t1 else t1.(withdrawn := t1.withdrawn + {d})
  }

  /** What one advertised RIP does, heard from `v` with link cost `sntt` by the node `my`. */
  ghost predicate IngestRip(
    o: Settings, t: Table, t': Table, my: Callsign, v: Via, sntt: int, hopLimit: int, rip: Rip)
  {
    var measured := sntt != SNTT_UNSET;
    var local := rip.targetTimeMs + sntt + PER_HOP_INCREMENT_MS;
    if rip.targetTimeMs >= HORIZON_MS || (measured && local >= HORIZON_MS) then
      t' == WithdrawTime(o, t, rip.destination, v)
    else if !measured || rip.hopCount + 1 > Max(1, hopLimit) || rip.destination == my then t' == t
    else UpsertTime(o, t, t', rip.destination, AliasOf(rip.tlvs), v, Metric(local, Min(rip.hopCount + 1, 255)))
  }

  /** What one NODES entry does, heard from `v` at path quality `path` under the floor `floor`. */
  ghost predicate IngestEntry(
    o: Settings, t: Table, t': Table, my: Callsign, v: Via, path: int, floor: int, e: NodesEntry)
  {
    if e.destination == my then t' == t
    else UpsertRoute(o, t, t', e.destination, e.alias, v, DerivedQuality(my, e, path), floor)
  }

  /** A NODES broadcast as it is heard: from whom, at what path quality, under what floor, when, and what it lists. */
  datatype Broadcast = Broadcast(v: Via, alias: Text, path: int, floor: int, now: int, entries: seq<NodesEntry>)

  function NeighbourOf(b: Broadcast): Neighbour {
    Neighbour(b.v.neighbour, b.alias, b.v.portId, b.path, b.now)
  }

  /**
   * What `my` makes of a broadcast: the sender becomes a neighbour and gets a direct route at the path quality, which
   * leads to `trace[0]`; then the entries are taken one by one, each leading to the next table of the trace.
   */
  ghost predicate Ingested(o: Settings, t: Table, my: Callsign, b: Broadcast, trace: seq<Table>) {
    && |trace| == |b.entries| + 1
    && UpsertRoute(o, t.(neighbours := t.neighbours[b.v := NeighbourOf(b)]), trace[0], b.v.neighbour, b.alias, b.v,
                   b.path, b.floor)
    && forall i {:trigger IngestedAt(o, my, b, trace, i)} :: 0 <= i < |b.entries| ==> IngestedAt(o, my, b, trace, i)
  }

  ghost predicate IngestedAt(o: Settings, my: Callsign, b: Broadcast, trace: seq<Table>, i: nat)
    requires i < |b.entries| && |trace| == |b.entries| + 1
  {
    IngestEntry(o, trace[i], trace[i + 1], my, b.v, b.path, b.floor, b.entries[i])
  }

  // ---- Ageing and teardown ---------------------------------------------------------------------------------

  /** The neighbour entries some kept route goes through. */
  function InUse(t: Table): map<Via, Neighbour> {
    map v | v in t.neighbours && (exists d :: d in t.destinations && v in t.destinations[d].routes)
      :: t.neighbours[v]
  }

  function Survivors(routes: map<Via, Route>): map<Via, Route> {
    map v | v in routes && routes[v].obsolescence - 1 > 0
      :: routes[v].(obsolescence := routes[v].obsolescence - 1)
  }

  /** Apply `f` to every destination's routes, drop the emptied ones, and record lost time-routes. */
  ghost function Reduced(t: Table, f: map<Via, Route> -> map<Via, Route>): Table {
    var reduced := t.(destinations :=
      map d | d in t.destinations && f(t.destinations[d].routes) != map[]
        :: t.destinations[d].(routes := f(t.destinations[d].routes)));
    reduced.(withdrawn := t.withdrawn + Lost(t, reduced))
  }

  ghost function Sweep(t: Table): Table {
    var swept := Reduced(t, Survivors);
    swept.(neighbours := InUse(swept))
  }

  ghost function NeighbourDown(t: Table, v: Via): Table {
    var down := Reduced(t, (routes: map<Via, Route>) => routes - {v}).(neighbours := t.neighbours - {v});
    down.(neighbours := InUse(down))
  }

  function OffPort(routes: map<Via, Route>, p: PortId): map<Via, Route> {
    map v | v in routes && routes[v].portId != p :: routes[v]
  }

  ghost function PortDown(t: Table, p: PortId): Table {
    var down := Reduced(t, (routes: map<Via, Route>) => OffPort(routes, p)).(
      neighbours := map v | v in t.neighbours && v.portId != p :: t.neighbours[v]);
    down.(neighbours := InUse(down))
  }

  /** Take the neighbour down on each of the listed ports in turn. */
  ghost function DownOn(t: Table, ports: seq<PortId>, neighbour: Callsign): Table {
    if ports == [] then t
    else NeighbourDown(DownOn(t, ports[..|ports| - 1], neighbour), Via(ports[|ports| - 1], neighbour))
  }

  /** The ports on which `neighbour` has an entry or a kept route. */
  ghost function PortsFor(t: Table, neighbour: Callsign): set<PortId> {
    (set v | v in t.neighbours && v.neighbour == neighbour :: v.portId)
    + (set d, v | d in t.destinations && v in t.destinations[d].routes && v.neighbour == neighbour :: v.portId)
  }

  // ---- The INP3 view of the table --------------------------------------------------------------------------

  /** A RIP to advertise and the time it is ordered by. */
  datatype Listed = Listed(rip: Rip, timeMs: int)

  function ListedOrder(a: Listed, b: Listed): int {
    if a.timeMs != b.timeMs then a.timeMs - b.timeMs
    else Ordinal(TextOf(a.rip.destination), TextOf(b.rip.destination))
  }

  /** Rounded down to the wire's 10 ms, and kept below the horizon. */
  function Quantise(targetTimeMs: int): int {
    var whole := if targetTimeMs >= 0 then targetTimeMs / 10 * 10 else -(-targetTimeMs / 10 * 10);
    Min(whole, HORIZON_MS - 10)
  }

  /** `m` is the time metric of one of the routes, and none has a lower target time. */
  ghost predicate IsBest(routes: map<Via, Route>, m: Metric) {
    && (exists v :: v in routes && routes[v].inp3 == Some(m))
    && (forall v :: v in routes && routes[v].inp3.Some? ==> m.targetTimeMs <= routes[v].inp3.value.targetTimeMs)
  }

  predicate GoesVia(routes: map<Via, Route>, neighbour: Callsign) {
    exists v :: v in routes && routes[v].neighbour == neighbour
  }

  /** What is said of `d` toward `target`: the best time, or the horizon when some kept route goes via `target`. */
  ghost predicate Advertises(routes: map<Via, Route>, target: Callsign, d: Callsign, a: Listed) {
    exists m :: IsBest(routes, m) && a == Listed(
      Rip(d, m.hopCount, if GoesVia(routes, target) then HORIZON_MS else Quantise(m.targetTimeMs), []), m.targetTimeMs)
  }

  function OwnRip(my: Callsign): Rip {
    Rip(my, 0, 0, [])
  }

  function Withdrawal(d: Callsign): Rip {
    Rip(d, 0, HORIZON_MS, [])
  }

  /** The destinations with a time-route that `my` advertises. */
  ghost function Timed(t: Table, my: Callsign): set<Callsign> {
    set d | d in t.destinations && d != my && HoldsTime(t, d)
  }

  /**
   * The frame `my` sends to `target`: itself, then `listed`, one entry for each destination with a time-route by
   * ascending time, then `gone`, the other withdrawn destinations by callsign.
   */
  ghost predicate IsRif(t: Table, my: Callsign, target: Callsign, withdrawn: set<Callsign>, rips: seq<Rip>,
                        listed: seq<Listed>, gone: seq<Listed>)
  {
    Arranged(rips, my, listed, gone) && ListsTimed(t, my, target, listed) && ListsGone(t, my, withdrawn, gone)
  }

  predicate Arranged(rips: seq<Rip>, my: Callsign, listed: seq<Listed>, gone: seq<Listed>) {
    && |rips| == 1 + |listed| + |gone| && rips[0] == OwnRip(my)
    && (forall i :: 0 <= i < |listed| ==> rips[1 + i] == listed[i].rip)
    && (forall i :: 0 <= i < |gone| ==> rips[1 + |listed| + i] == gone[i].rip)
  }

  function Named(listed: seq<Listed>): set<Callsign> {
    set a | a in listed :: a.rip.destination
  }

  /** No destination twice, and in advertised order. */
  predicate Ordered(listed: seq<Listed>) {
    forall i, j :: 0 <= i < j < |listed| ==>
      listed[i].rip.destination != listed[j].rip.destination && ListedOrder(listed[i], listed[j]) <= 0
  }

  ghost predicate ListsTimed(t: Table, my: Callsign, target: Callsign, listed: seq<Listed>) {
    && Named(listed) == Timed(t, my) && Ordered(listed)
    && forall a :: a in listed ==> Advertises(RoutesTo(t, a.rip.destination), target, a.rip.destination, a)
  }

  ghost predicate ListsGone(t: Table, my: Callsign, withdrawn: set<Callsign>, gone: seq<Listed>) {
    && Named(gone) == withdrawn - Timed(t, my) - {my} && Ordered(gone)
    && forall a :: a in gone ==> a == Listed(Withdrawal(a.rip.destination), 0)
  }
}
