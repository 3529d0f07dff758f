/** What each operation of the routing table does, route by route: which stay, which go, and what they then hold. */
module RoutingEffects {
  import opened Common
  import opened Callsigns
  import opened Inp3Rif
  import opened RoutingSpec
  import opened RouteOrders
  import opened RoutingSafety

  // ---- Qualities -------------------------------------------------------------------------------------------

  predicate IsQuality(q: int) {
    0 <= q <= 255
  }

  /** A combined quality is the product over 256, rounded to the nearest, and no better than either factor. */
  lemma CombineIs(b: int, p: int)
    requires IsQuality(b) && IsQuality(p)
    ensures var q := CombineQuality(b, p);
            256 * q <= b * p + 128 < 256 * (q + 1) && 0 <= q <= b && q <= p
  {
    Products(b, p);
    Products(p, b);
  }

  lemma Products(b: int, p: int)
    requires IsQuality(b) && IsQuality(p)
    ensures 0 <= b * p <= 255 * b && b * p == p * b
  {
    ProductGrows(0, p, b);
    ProductGrows(p, 255, b);
  }

  lemma ProductGrows(a: int, b: int, k: nat)
    requires a <= b
    ensures a * k <= b * k
  {
  }

  /** The better either factor, the better the product. */
  lemma CombineMonotone(b: int, p: int, b': int, p': int)
    requires IsQuality(b) && IsQuality(p') && 0 <= p <= p' && b <= b' <= 255
    ensures CombineQuality(b, p) <= CombineQuality(b', p')
  {
    ProductGrows(b, b', p);
    ProductGrows(p, p', b');
    QuotientGrows(b * p + 128, b' * p' + 128);
  }

  lemma QuotientGrows(m: int, n: int)
    requires m <= n
    ensures m / 256 <= n / 256
  {
  }

  /** The route via `v` holds quality `q` and a fresh count, and the time it held before. */
  predicate HoldsQuality(o: Settings, t: Table, t': Table, d: Callsign, v: Via, q: int) {
    v in RoutesTo(t', d)
    && RoutesTo(t', d)[v] == Route(v.neighbour, v.portId, q, o.obsoleteInitial, TimeVia(t, d, v))
  }

  lemma RoomIsKept(o: Settings, routes: map<Via, Route>, v: Via, r: Route, kept: map<Via, Route>)
    requires Capped(o, routes[v := r], kept)
    requires if v in routes then |routes| <= o.maxRoutes else |routes| < o.maxRoutes
    ensures kept == routes[v := r]
  {
    var all := routes[v := r];
    if v in routes {
      assert all.Keys == routes.Keys;
      assert |all| == |all.Keys| && |routes| == |routes.Keys|;
    } else {
      assert |all| == |routes| + 1;
    }
    CapKeepsAll(o, all, kept);
  }

  /** The list has room for a route via `v`. */
  predicate HasSlot(o: Settings, t: Table, d: Callsign, v: Via) {
    var routes := RoutesTo(t, d);
    RoomFor(o, t, d) && if v in routes then |routes| <= o.maxRoutes else |routes| < o.maxRoutes
  }

  /**
   * What a NODES entry installs: about another node, and not by way of the hearer, it gives the destination a route via
   * the advertiser whose quality is the advertised one times the path's over 256, to the nearest, if that is above zero
   * and not below the floor; else it takes the route via the advertiser away. All other routes stay.
   */
  lemma EntryInstalls(o: Settings, t: Table, t': Table, my: Callsign, v: Via, path: int, floor: int, e: NodesEntry,
                      q: int)
    requires IngestEntry(o, t, t', my, v, path, floor, e) && e.destination != my && e.bestNeighbour != my
    requires IsQuality(path) && IsQuality(e.bestQuality) && 256 * q <= e.bestQuality * path + 128 < 256 * (q + 1)
    requires HasSlot(o, t, e.destination, v)
    ensures var d := e.destination;
            && (q > 0 && q >= floor ==> d in t'.destinations && HoldsQuality(o, t, t', d, v, q))
            && (!(q > 0 && q >= floor) ==> v !in RoutesTo(t', d))
            && OthersStay(t, t', d, v)
            && (d in t'.destinations && d in t.destinations ==>
                  t'.destinations[d].alias == if e.alias == [] then t.destinations[d].alias else e.alias)
  {
    var d := e.destination;
    CombineIs(e.bestQuality, path);
    assert DerivedQuality(my, e, path) == q;
    if q > 0 && q >= floor {
      UpsertInstalls(o, t, t', d, e.alias, v, q, floor);
    } else {
      WithoutRemoves(t, d, AliasFor(t, d, e.alias), v);
    }
  }

  lemma UpsertInstalls(o: Settings, t: Table, t': Table, d: Callsign, alias: Text, v: Via, q: int, floor: int)
    requires UpsertRoute(o, t, t', d, alias, v, q, floor) && HasSlot(o, t, d, v) && q > 0 && q >= floor
    ensures d in t'.destinations && HoldsQuality(o, t, t', d, v, q) && OthersStay(t, t', d, v)
    ensures t'.destinations[d].alias == if alias == [] && d in t.destinations then t.destinations[d].alias else alias
  {
    RoomIsKept(o, RoutesTo(t, d), v, QualityRoute(o, t, d, v, q), RoutesTo(t', d));
    InstallTouchesOne(t, d, AliasFor(t, d, alias), v, QualityRoute(o, t, d, v, q));
  }

  lemma InstallTouchesOne(t: Table, d: Callsign, alias: Text, v: Via, r: Route)
    ensures var t' := WithRoutes(t, d, alias, RoutesTo(t, d)[v := r]);
            RoutesTo(t', d) == RoutesTo(t, d)[v := r] && OthersStay(t, t', d, v)
  {
  }

  /** An entry for a node that is reached by way of the hearer takes the route via the advertiser away. */
  lemma LoopEntryRemoves(o: Settings, t: Table, t': Table, my: Callsign, v: Via, path: int, floor: int, e: NodesEntry)
    requires IngestEntry(o, t, t', my, v, path, floor, e) && e.destination != my && e.bestNeighbour == my
    ensures v !in RoutesTo(t', e.destination) && OthersStay(t, t', e.destination, v)
  {
    WithoutRemoves(t, e.destination, AliasFor(t, e.destination, e.alias), v);
  }

  /** Nothing is learned about the hearer itself. */
  lemma OwnEntryIsSkipped(o: Settings, t: Table, t': Table, my: Callsign, v: Via, path: int, floor: int, e: NodesEntry)
    requires IngestEntry(o, t, t', my, v, path, floor, e) && e.destination == my
    ensures t' == t
  {
  }

  lemma WithoutRemoves(t: Table, d: Callsign, alias: Text, v: Via)
    ensures v !in RoutesTo(Without(t, d, alias, v), d) && OthersStay(t, Without(t, d, alias, v), d, v)
    ensures d in Without(t, d, alias, v).destinations <==> RoutesTo(t, d) - {v} != map[]
    ensures d in Without(t, d, alias, v).destinations ==> Without(t, d, alias, v).destinations[d].alias == alias
  {
  }

  /** Only the route to `d` via `v` can have changed; neither the neighbours nor the withdrawn set have. */
  predicate OthersStay(t: Table, t': Table, d: Callsign, v: Via) {
    RoutesTo(t', d) - {v} == RoutesTo(t, d) - {v} && t'.neighbours == t.neighbours && t'.withdrawn == t.withdrawn
    && t'.destinations - {d} == t.destinations - {d}
  }

  /** A full destination list takes in no new destination, whatever is heard. */
  lemma FullListLearnsNothing(o: Settings, t: Table, t': Table, d: Callsign, alias: Text, v: Via, quality: int,
                              floor: int)
    requires UpsertRoute(o, t, t', d, alias, v, quality, floor)
    requires d !in t.destinations && (|t.destinations| >= o.maxDestinations || !(quality > 0 && quality >= floor))
    ensures t' == t
  {
  }

  /** A broadcast makes its sender a neighbour on its port, as it was heard, and changes no other. */
  lemma {:induction false} AdvertiserIsKnown(o: Settings, t: Table, my: Callsign, b: Broadcast, trace: seq<Table>,
                                             n: nat)
    requires Ingested(o, t, my, b, trace) && n <= |b.entries|
    ensures trace[n].neighbours == t.neighbours[b.v := Neighbour(b.v.neighbour, b.alias, b.v.portId, b.path, b.now)]
    ensures trace[n].withdrawn == t.withdrawn
  {
    if n > 0 {
      AdvertiserIsKnown(o, t, my, b, trace, n - 1);
      assert IngestedAt(o, my, b, trace, n - 1);
    }
  }

  /** And gives it a direct route at the quality of the path, if that is above zero and not below the floor. */
  lemma AdvertiserIsReached(o: Settings, t: Table, my: Callsign, b: Broadcast, trace: seq<Table>)
    requires Ingested(o, t, my, b, trace) && HasSlot(o, t, b.v.neighbour, b.v) && b.path > 0 && b.path >= b.floor
    ensures HoldsQuality(o, t, trace[0], b.v.neighbour, b.v, b.path)
    ensures RoutesTo(trace[0], b.v.neighbour) - {b.v} == RoutesTo(t, b.v.neighbour) - {b.v}
  {
    var heard := t.(neighbours := t.neighbours[b.v := NeighbourOf(b)]);
    UpsertInstalls(o, heard, trace[0], b.v.neighbour, b.alias, b.v, b.path, b.floor);
  }

  // ---- Times -----------------------------------------------------------------------------------------------

  /**
   * What a RIP teaches: over a measured link, within the hop limit and below the horizon, the destination gets a route
   * via the sender with the advertised time plus the link's and ten milliseconds, one hop further, and a fresh count;
   * the quality held stays, and so do all other routes.
   */
  lemma RipInstalls(o: Settings, t: Table, t': Table, my: Callsign, v: Via, sntt: int, hopLimit: int, rip: Rip)
    requires IngestRip(o, t, t', my, v, sntt, hopLimit, rip) && HasSlot(o, t, rip.destination, v)
    requires rip.targetTimeMs < 600000 && sntt != 0xffffffff && rip.targetTimeMs + sntt + 10 < 600000
    requires rip.hopCount + 1 <= Max(1, hopLimit) && rip.destination != my
    ensures var d := rip.destination;
            && OthersStay(t, t', d, v) && v in RoutesTo(t', d)
            && RoutesTo(t', d)[v].inp3 == Some(Metric(rip.targetTimeMs + sntt + 10, Min(rip.hopCount + 1, 255)))
            && RoutesTo(t', d)[v].obsolescence == o.obsoleteInitial
            && RoutesTo(t', d)[v].quality == if v in RoutesTo(t, d) then RoutesTo(t, d)[v].quality else 0
  {
    var d := rip.destination;
    var r := TimeRoute(o, t, d, v, Metric(rip.targetTimeMs + sntt + 10, Min(rip.hopCount + 1, 255)));
    RoomIsKept(o, RoutesTo(t, d), v, r, RoutesTo(t', d));
    InstallTouchesOne(t, d, AliasFor(t, d, AliasOf(rip.tlvs)), v, r);
  }

  /** Out of the hop limit, over an unmeasured link below the horizon, or about the hearer, a RIP changes nothing. */
  lemma RipIsSkipped(o: Settings, t: Table, t': Table, my: Callsign, v: Via, sntt: int, hopLimit: int, rip: Rip)
    requires IngestRip(o, t, t', my, v, sntt, hopLimit, rip) && rip.targetTimeMs < 600000
    requires sntt == 0xffffffff
             || (rip.targetTimeMs + sntt + 10 < 600000
                 && (rip.hopCount + 1 > Max(1, hopLimit) || rip.destination == my))
    ensures t' == t
  {
  }

  /**
   * At the horizon, as advertised or once the link is added, the route via the sender loses its time. It stays when its
   * quality is acceptable and goes otherwise; the destination is recorded exactly when that was its last time.
   */
  lemma RipWithdraws(o: Settings, t: Table, t': Table, my: Callsign, v: Via, sntt: int, hopLimit: int, rip: Rip)
    requires IngestRip(o, t, t', my, v, sntt, hopLimit, rip)
    requires rip.targetTimeMs >= 600000 || (sntt != 0xffffffff && rip.targetTimeMs + sntt + 10 >= 600000)
    ensures var d := rip.destination;
            && TimeVia(t', d, v).None? && RoutesTo(t', d) - {v} == RoutesTo(t, d) - {v}
            && t'.destinations - {d} == t.destinations - {d} && t'.neighbours == t.neighbours
            && (TimeVia(t, d, v).None? ==> t' == t)
            && (TimeVia(t, d, v).Some? ==>
                  var r := RoutesTo(t, d)[v];
                  if r.quality > 0 && r.quality >= o.minQuality
                  then v in RoutesTo(t', d) && RoutesTo(t', d)[v] == r.(inp3 := None)
                  else v !in RoutesTo(t', d))
            && t'.withdrawn == t.withdrawn + (if TimeVia(t, d, v).Some? && !HoldsTime(t', d) then {d} else {})
            && (d in t'.destinations ==>
                  d in t.destinations && t'.destinations[d].alias == t.destinations[d].alias)
  {
    WithoutRemoves(t, rip.destination, if rip.destination in t.destinations then t.destinations[rip.destination].alias
                                       else [], v);
  }

  // ---- Ageing ----------------------------------------------------------------------------------------------

  /** A sweep keeps exactly the routes whose count is two or more, one lower and otherwise as they were. */
  lemma SweepKeepsIff(t: Table, d: Callsign, v: Via)
    ensures v in RoutesTo(Sweep(t), d) <==> v in RoutesTo(t, d) && RoutesTo(t, d)[v].obsolescence >= 2
    ensures v in RoutesTo(Sweep(t), d) ==>
              RoutesTo(Sweep(t), d)[v] == RoutesTo(t, d)[v].(obsolescence := RoutesTo(t, d)[v].obsolescence - 1)
  {
    assert v in RoutesTo(t, d) && RoutesTo(t, d)[v].obsolescence >= 2 ==> v in Survivors(RoutesTo(t, d));
  }

  /** Left alone, a route survives exactly one sweep fewer than its count, unchanged but for the count. */
  lemma {:induction false} RouteOutlives(o: Settings, ts: seq<Table>, ops: seq<Op>, n: nat, d: Callsign, v: Via)
    requires Run(o, ts, ops) && n <= |ops| && (forall i :: 0 <= i < n ==> ops[i] == Age) && v in RoutesTo(ts[0], d)
    ensures var r := RoutesTo(ts[0], d)[v];
            && (n > 0 ==> (v in RoutesTo(ts[n], d) <==> n < r.obsolescence))
            && (v in RoutesTo(ts[n], d) ==>
                  RoutesTo(ts[n], d)[v] == r.(obsolescence := r.obsolescence - n))
  {
    if n > 0 {
      RouteOutlives(o, ts, ops, n - 1, d, v);
      assert StepAt(o, ts, ops, n - 1);
      SweepKeepsIff(ts[n - 1], d, v);
    }
  }

  /** So one that has just been heard of lives through exactly the configured count less one. */
  lemma FreshOutlives(o: Settings, ts: seq<Table>, ops: seq<Op>, n: nat, d: Callsign, v: Via)
    requires Run(o, ts, ops) && n <= |ops| && (forall i :: 0 <= i < n ==> ops[i] == Age) && v in RoutesTo(ts[0], d)
    requires RoutesTo(ts[0], d)[v].obsolescence == o.obsoleteInitial >= 1
    ensures v in RoutesTo(ts[n], d) <==> n <= o.obsoleteInitial - 1
  {
    RouteOutlives(o, ts, ops, n, d, v);
  }

  // ---- Teardown --------------------------------------------------------------------------------------------

  lemma NeighbourDownIs(t: Table, v: Via, d: Callsign)
    ensures RoutesTo(NeighbourDown(t, v), d) == RoutesTo(t, d) - {v}
  {
  }

  lemma {:induction false} DownOnIs(t: Table, ports: seq<PortId>, neighbour: Callsign, d: Callsign, v: Via)
    ensures v in RoutesTo(DownOn(t, ports, neighbour), d) <==>
              v in RoutesTo(t, d) && !(v.neighbour == neighbour && v.portId in ports)
    ensures v in RoutesTo(DownOn(t, ports, neighbour), d) ==>
              RoutesTo(DownOn(t, ports, neighbour), d)[v] == RoutesTo(t, d)[v]
    ensures v in DownOn(t, ports, neighbour).neighbours ==>
              v in t.neighbours && !(v.neighbour == neighbour && v.portId in ports)
  {
    if ports != [] {
      var init, last := ports[..|ports| - 1], ports[|ports| - 1];
      DownOnIs(t, init, neighbour, d, v);
      NeighbourDownIs(DownOn(t, init, neighbour), Via(last, neighbour), d);
      assert forall p :: p in ports <==> p in init || p == last;
    }
  }

  /** Taking a callsign down wherever it is known leaves no route through it and no entry for it, on any port. */
  lemma AllPortsDownIs(t: Table, order: seq<PortId>, neighbour: Callsign, d: Callsign, v: Via)
    requires forall p :: p in order <==> p in PortsFor(t, neighbour)
    ensures v in RoutesTo(DownOn(t, order, neighbour), d) <==> v in RoutesTo(t, d) && v.neighbour != neighbour
    ensures v in DownOn(t, order, neighbour).neighbours ==> v.neighbour != neighbour
  {
    DownOnIs(t, order, neighbour, d, v);
  }

  lemma PortDownIs(t: Table, p: PortId, d: Callsign, w: Via)
    ensures w in RoutesTo(PortDown(t, p), d) <==> w in RoutesTo(t, d) && RoutesTo(t, d)[w].portId != p
    ensures w in RoutesTo(PortDown(t, p), d) ==> RoutesTo(PortDown(t, p), d)[w] == RoutesTo(t, d)[w]
  {
    assert w in RoutesTo(t, d) && RoutesTo(t, d)[w].portId != p ==> w in OffPort(RoutesTo(t, d), p);
  }

  /** Some kept route goes through the neighbour `w`. */
  predicate Referenced(t: Table, w: Via) {
    exists d :: d in t.destinations && w in t.destinations[d].routes
  }

  /** Of the neighbours exactly those go that are torn down or that no kept route goes through any more. */
  lemma NeighboursAfter(t: Table, v: Via, p: PortId, w: Via)
    ensures w in Sweep(t).neighbours <==> w in t.neighbours && Referenced(Sweep(t), w)
    ensures w in NeighbourDown(t, v).neighbours <==>
              w in t.neighbours && w != v && Referenced(NeighbourDown(t, v), w)
    ensures w in PortDown(t, p).neighbours <==>
              w in t.neighbours && w.portId != p && Referenced(PortDown(t, p), w)
    ensures w in Sweep(t).neighbours ==> Sweep(t).neighbours[w] == t.neighbours[w]
    ensures w in NeighbourDown(t, v).neighbours ==> NeighbourDown(t, v).neighbours[w] == t.neighbours[w]
    ensures w in PortDown(t, p).neighbours ==> PortDown(t, p).neighbours[w] == t.neighbours[w]
  {
  }

  // ---- Order -----------------------------------------------------------------------------------------------

  /** Ports in the host's order, or without one by their text. */
  ghost predicate PortBefore(o: Settings, a: PortId, b: PortId) {
    if o.rank.Some? then o.rank.value(a) < o.rank.value(b) else a != b && NotAfter(a, b)
  }

  /** Routes are ranked by quality, best first, then by port, then by the text of the neighbour's callsign. */
  lemma RouteOrderIs(o: Settings, a: Route, b: Route)
    ensures a.quality > b.quality ==> RouteOrder(o, a, b) < 0
    ensures a.quality == b.quality && PortBefore(o, a.portId, b.portId) ==> RouteOrder(o, a, b) < 0
    ensures a.quality == b.quality && a.portId == b.portId ==>
              (RouteOrder(o, a, b) <= 0 <==> NotAfter(TextOf(a.neighbour), TextOf(b.neighbour)))
  {
    OrdinalIs(a.portId, b.portId);
    OrdinalZero(a.portId, b.portId);
    OrdinalIs(TextOf(a.neighbour), TextOf(b.neighbour));
  }

  /** So the cap never evicts a route of better quality than one it keeps. */
  lemma CapKeepsBest(o: Settings, all: map<Via, Route>, kept: map<Via, Route>, v: Via, e: Via)
    requires Capped(o, all, kept) && v in kept && e in all && e !in kept
    ensures kept[v].quality >= all[e].quality
  {
    RouteOrderIs(o, all[e], all[v]);
    OrderSwaps(o, all[e], all[v]);
  }

  // ---- Texts -----------------------------------------------------------------------------------------------

  /** The number decimal digits stand for. */
  function Decimal(digits: Text): int {
    if digits == [] then 0 else 10 * Decimal(digits[..|digits| - 1]) + (digits[|digits| - 1] - 0x30)
  }

  predicate IsDecimal(digits: Text) {
    digits != [] && digits[0] != 0x30 && forall i :: 0 <= i < |digits| ==> 0x30 <= digits[i] <= 0x39
  }

  /** A callsign's text is its base, and unless the SSID is 0 a dash and the SSID in decimal. */
  lemma TextIs(c: Callsign)
    requires Valid(c)
    ensures c.ssid == 0 ==> TextOf(c) == c.base
    ensures c.ssid > 0 ==> |TextOf(c)| > |c.base| && TextOf(c)[..|c.base|] == c.base && TextOf(c)[|c.base|] == 0x2d
                           && IsDecimal(TextOf(c)[|c.base| + 1..]) && Decimal(TextOf(c)[|c.base| + 1..]) == c.ssid
  {
    if c.ssid > 0 {
      var digits := Suffix(c.ssid)[1..];
      assert TextOf(c)[|c.base| + 1..] == digits;
      assert Decimal([]) == 0;
      if c.ssid >= 10 {
        assert digits == [0x31, 0x30 + c.ssid % 10];
        assert digits[..1] == [0x31] && [0x31 as int][..0] == [];
        assert Decimal([0x31]) == 1;
      } else {
        assert digits == [0x30 + c.ssid];
        assert digits[..0] == [];
      }
    }
  }

  predicate IsPrintable(c: int) {
    ' ' as int <= c <= '~' as int
  }

  lemma PrintableGrows(value: bytes, last: byte)
    ensures Printable(value + [last]) == Printable(value) + if IsPrintable(last) then [last as int] else []
  {
    assert (value + [last])[..|value|] == value;
  }

  /** Decoding keeps exactly the printable octets, each one in its turn. */
  lemma {:induction false} PrintableIs(a: bytes, b: bytes)
    ensures Printable(a + b) == Printable(a) + Printable(b)
    ensures |b| == 1 ==> Printable(b) == if ' ' as int <= b[0] <= '~' as int then [b[0] as int] else []
    decreases |b|
  {
    if b == [] {
      assert a + b == a;
    } else {
      var init, last := b[..|b| - 1], b[|b| - 1];
      assert b == init + [last] && a + b == (a + init) + [last];
      PrintableIs(a, init);
      PrintableGrows(a + init, last);
      PrintableGrows(init, last);
      if |b| == 1 {
        assert init == [];
      }
    }
  }

  /** Trimming takes off the spaces at the end and nothing else. */
  lemma {:induction false} TrimIs(t: Text)
    ensures TrimRight(t) <= t && (TrimRight(t) != [] ==> TrimRight(t)[|TrimRight(t)| - 1] != ' ' as int)
    ensures forall i :: |TrimRight(t)| <= i < |t| ==> t[i] == ' ' as int
  {
    if t != [] && t[|t| - 1] == ' ' as int {
      TrimIs(t[..|t| - 1]);
    }
  }

  /** The alias of a RIP is that of its first TLV of type 0; without one it is empty. */
  lemma {:induction false} AliasIs(tlvs: seq<Tlv>)
    ensures (forall i :: 0 <= i < |tlvs| ==> tlvs[i].kind != 0) ==> AliasOf(tlvs) == []
    ensures forall n :: 0 <= n < |tlvs| && tlvs[n].kind == 0 && (forall i :: 0 <= i < n ==> tlvs[i].kind != 0) ==>
              AliasOf(tlvs) == TrimRight(Printable(tlvs[n].value))
  {
    if tlvs != [] && tlvs[0].kind != 0 {
      AliasIs(tlvs[1..]);
    }
  }

  /** A quality given from outside is moved into 0..255. */
  lemma ClampQualityIs(value: int)
    ensures 0 <= ClampQuality(value) <= 255 && (0 <= value <= 255 ==> ClampQuality(value) == value)
    ensures value < 0 ==> ClampQuality(value) == 0
    ensures value > 255 ==> ClampQuality(value) == 255
  {
  }

  // ---- What a frame says -----------------------------------------------------------------------------------

  /** A time on the wire: whole tens of milliseconds, rounded down, and never as far as the horizon. */
  lemma QuantiseIs(t: int)
    ensures 0 <= t < 600000 ==> Quantise(t) == t - t % 10
    ensures t >= 600000 ==> Quantise(t) == 599990
    ensures t < 0 ==> Quantise(t) == t + (-t) % 10
  {
  }

  /**
   * A frame begins with its sender, at no hops and no time, which it does not mention again; then come the timed
   * destinations by ascending time, then those that are gone, at no hops and the horizon; and it carries no TLVs.
   */
  lemma FrameIs(t: Table, my: Callsign, target: Callsign, withdrawn: set<Callsign>, rips: seq<Rip>,
                listed: seq<Listed>, gone: seq<Listed>, i: nat, j: nat)
    requires IsRif(t, my, target, withdrawn, rips, listed, gone) && i < |rips| && j < |rips|
    ensures rips[0] == Rip(my, 0, 0, []) && rips[i].tlvs == []
    ensures i > 0 ==> rips[i].destination != my
    ensures 0 < i < j <= |listed| ==> listed[i - 1].timeMs <= listed[j - 1].timeMs
    ensures i > |listed| ==> rips[i] == Rip(rips[i].destination, 0, 600000, [])
  {
    if 1 <= i <= |listed| {
      assert rips[1 + (i - 1)] == listed[i - 1].rip && listed[i - 1] in listed;
      assert rips[i].destination in Named(listed);
    } else if i > |listed| {
      var k := i - 1 - |listed|;
      assert rips[1 + |listed| + k] == gone[k].rip && gone[k] in gone;
      assert rips[i].destination in Named(gone);
    }
  }

  /** Of two destinations at the same time the one with the earlier text comes first. */
  lemma EqualTimesByText(t: Table, my: Callsign, target: Callsign, listed: seq<Listed>, i: nat, j: nat)
    requires ListsTimed(t, my, target, listed) && i < j < |listed| && listed[i].timeMs == listed[j].timeMs
    ensures NotAfter(TextOf(listed[i].rip.destination), TextOf(listed[j].rip.destination))
  {
    OrdinalIs(TextOf(listed[i].rip.destination), TextOf(listed[j].rip.destination));
  }

  /** A destination is listed by the least of its routes' times, and what is said of it is that time or the horizon. */
  lemma ListedIs(t: Table, my: Callsign, target: Callsign, listed: seq<Listed>, i: nat)
    requires ListsTimed(t, my, target, listed) && i < |listed|
    ensures var a, routes := listed[i], RoutesTo(t, listed[i].rip.destination);
            && (exists v :: v in routes && routes[v].inp3 == Some(Metric(a.timeMs, a.rip.hopCount)))
            && (forall v :: v in routes && routes[v].inp3.Some? ==> a.timeMs <= routes[v].inp3.value.targetTimeMs)
            && a.rip.targetTimeMs == if exists v :: v in routes && routes[v].neighbour == target then 600000
                                     else Quantise(a.timeMs)
  {
    var a := listed[i];
    assert a in listed;
    var routes := RoutesTo(t, a.rip.destination);
    assert Advertises(routes, target, a.rip.destination, a);
  }
}
