/**
 * Nodes exchanging INP3 frames: what every stored time metric satisfies over every run, and poison reverse.
 *
 * A frame once sent may reach any node, from any claimed neighbour, at any later time and any number of times, so
 * loss, delay, reordering and duplication are all covered. What the node takes in is what its parser makes of the
 * frame's octets, which need not be what was sent.
 */
module InterlinkNetwork {
  import opened Common
  import opened Callsigns
  import opened Inp3Rif
  import opened RifDamage
  import opened RoutingSpec
  import opened RoutingSafety

  // ---- What a table keeps ----------------------------------------------------------------------------------

  /** A finite metric: at least ten milliseconds a hop, below the horizon. */
  predicate Finite(m: Metric) {
    1 <= m.hopCount <= 255 && PER_HOP_INCREMENT_MS * m.hopCount <= m.targetTimeMs < HORIZON_MS
  }

  /** `my` holds only finite metrics, for other nodes, and only for ones in `speakers`. */
  ghost predicate NodeOk(speakers: set<Callsign>, my: Callsign, t: Table) {
    forall d, v {:trigger TimeVia(t, d, v)} :: TimeVia(t, d, v).Some? ==>
      Finite(TimeVia(t, d, v).value) && d != my && d in speakers
  }

  /** A RIP that, if it is not a withdrawal, claims at least ten milliseconds a hop for a node that has spoken. */
  predicate RipOk(speakers: set<Callsign>, rip: Rip) {
    rip.targetTimeMs < HORIZON_MS ==>
      PER_HOP_INCREMENT_MS * rip.hopCount <= rip.targetTimeMs && rip.destination in speakers
  }

  predicate RifOk(speakers: set<Callsign>, rips: seq<Rip>) {
    forall i :: 0 <= i < |rips| ==> RipOk(speakers, rips[i])
  }

  /** A frame as nodes send it: such RIPs, without TLVs, each of which the wire can carry. */
  predicate FrameOk(speakers: set<Callsign>, rips: seq<Rip>) {
    RifOk(speakers, rips) && Plain(rips)
  }

  predicate AllValid(names: set<Callsign>) {
    forall c :: c in names ==> Valid(c)
  }

  /** `t'` holds no time metric that `t` did not hold. */
  ghost predicate NoNewMetric(t: Table, t': Table) {
    forall d, v {:trigger TimeVia(t', d, v)} :: TimeVia(t', d, v).Some? ==> TimeVia(t', d, v) == TimeVia(t, d, v)
  }

  lemma ReducedLearnsNothing(t: Table, t': Table, f: map<Via, Route> -> map<Via, Route>)
    requires t'.destinations == Reduced(t, f).destinations
    requires forall routes: map<Via, Route>, v ::
               v in f(routes) ==> v in routes && f(routes)[v].inp3 == routes[v].inp3
    ensures NoNewMetric(t, t')
  {
  }

  lemma WithdrawLearnsNothing(o: Settings, t: Table, d: Callsign, v: Via)
    ensures NoNewMetric(t, WithdrawTime(o, t, d, v))
  {
  }

  lemma NodesLearnNoTime(o: Settings, t: Table, t': Table, d: Callsign, alias: Text, v: Via, quality: int, floor: int)
    requires UpsertRoute(o, t, t', d, alias, v, quality, floor)
    ensures NoNewMetric(t, t')
  {
    forall e, w | TimeVia(t', e, w).Some? ensures TimeVia(t', e, w) == TimeVia(t, e, w) {
      if e == d && Acceptable(quality, floor) && RoomFor(o, t, d) {
        assert RoutesTo(t', d)[w] == RoutesTo(t, d)[v := QualityRoute(o, t, d, v, quality)][w];
      }
    }
  }

  /** A step that hears no RIP learns no time metric. */
  lemma QuietStep(o: Settings, t: Table, op: Op, t': Table)
    requires Step(o, t, op, t') && !op.HearRip?
    ensures NoNewMetric(t, t')
  {
    match op
    case HearNeighbour(_, _) =>
    case LearnQuality(d, alias, v, quality, floor) => NodesLearnNoTime(o, t, t', d, alias, v, quality, floor);
    case Age => ReducedLearnsNothing(t, t', Survivors);
    case LoseNeighbour(v) => ReducedLearnsNothing(t, t', (routes: map<Via, Route>) => routes - {v});
    case LosePort(p) => ReducedLearnsNothing(t, t', (routes: map<Via, Route>) => OffPort(routes, p));
    case Drain =>
  }

  /** The metric a RIP teaches over a link of cost `sntt`. */
  function Taught(rip: Rip, sntt: int): Metric {
    Metric(rip.targetTimeMs + sntt + PER_HOP_INCREMENT_MS, Min(rip.hopCount + 1, 255))
  }

  predicate Teaches(my: Callsign, sntt: int, hopLimit: int, rip: Rip) {
    && rip.targetTimeMs < HORIZON_MS && sntt != SNTT_UNSET && Taught(rip, sntt).targetTimeMs < HORIZON_MS
    && rip.hopCount + 1 <= Max(1, hopLimit) && rip.destination != my
  }

  /** After a RIP, each metric is an old one or the one the RIP teaches for its destination via its sender. */
  lemma RipTeachesOne(
    o: Settings, t: Table, t': Table, my: Callsign, v: Via, sntt: int, hopLimit: int, rip: Rip, d: Callsign, w: Via)
    requires IngestRip(o, t, t', my, v, sntt, hopLimit, rip) && TimeVia(t', d, w).Some?
    ensures TimeVia(t', d, w) == TimeVia(t, d, w)
            || (d == rip.destination && w == v && Teaches(my, sntt, hopLimit, rip)
                && TimeVia(t', d, w) == Some(Taught(rip, sntt)))
  {
    if Teaches(my, sntt, hopLimit, rip) {
      if RoomFor(o, t, rip.destination) && d == rip.destination {
        var all := RoutesTo(t, d)[v := TimeRoute(o, t, d, v, Taught(rip, sntt))];
        assert RoutesTo(t', d)[w] == all[w];
      }
    } else {
      WithdrawLearnsNothing(o, t, rip.destination, v);
    }
  }

  lemma IngestRipKeeps(
    speakers: set<Callsign>, o: Settings, t: Table, t': Table, my: Callsign, v: Via, sntt: int, hopLimit: int, rip: Rip)
    requires NodeOk(speakers, my, t) && RipOk(speakers, rip) && sntt >= 0
    requires IngestRip(o, t, t', my, v, sntt, hopLimit, rip)
    ensures NodeOk(speakers, my, t')
  {
    forall d, w | TimeVia(t', d, w).Some? ensures
      Finite(TimeVia(t', d, w).value) && d != my && d in speakers
    {
      RipTeachesOne(o, t, t', my, v, sntt, hopLimit, rip, d, w);
    }
  }

  // ---- What a frame keeps ----------------------------------------------------------------------------------

  lemma QuantiseBounds(x: int)
    requires 0 <= x < HORIZON_MS
    ensures x - 10 < Quantise(x) <= x && Quantise(x) % 10 == 0
    ensures forall h: nat :: PER_HOP_INCREMENT_MS * h <= x ==> PER_HOP_INCREMENT_MS * h <= Quantise(x)
  {
  }

  /** A RIP of a frame: as `RipOk` asks, without TLVs, and one the wire can carry. */
  predicate PlainRip(speakers: set<Callsign>, rip: Rip) {
    RipOk(speakers, rip) && WellFormed(rip) && rip.tlvs == []
  }

  lemma ListedIsOk(speakers: set<Callsign>, my: Callsign, t: Table, target: Callsign, listed: seq<Listed>, i: nat)
    requires NodeOk(speakers, my, t) && AllValid(speakers) && ListsTimed(t, my, target, listed) && i < |listed|
    ensures PlainRip(speakers, listed[i].rip)
  {
    var a := listed[i];
    var d := a.rip.destination;
    assert a in listed;
    var routes := RoutesTo(t, d);
    var m :| IsBest(routes, m) && a == Listed(
      Rip(d, m.hopCount, if GoesVia(routes, target) then HORIZON_MS else Quantise(m.targetTimeMs), []), m.targetTimeMs);
    var v :| v in routes && routes[v].inp3 == Some(m);
    assert TimeVia(t, d, v) == Some(m);
    QuantiseBounds(m.targetTimeMs);
  }

  lemma RifIsOk(speakers: set<Callsign>, my: Callsign, t: Table, target: Callsign, withdrawn: set<Callsign>,
                rips: seq<Rip>, listed: seq<Listed>, gone: seq<Listed>)
    requires NodeOk(speakers, my, t) && my in speakers && AllValid(speakers) && AllValid(withdrawn)
    requires IsRif(t, my, target, withdrawn, rips, listed, gone)
    ensures FrameOk(speakers, rips)
  {
    forall i | 0 <= i < |rips| ensures PlainRip(speakers, rips[i]) {
      if 1 <= i <= |listed| {
        assert rips[1 + (i - 1)] == listed[i - 1].rip;
        ListedIsOk(speakers, my, t, target, listed, i - 1);
      } else if i > |listed| {
        GoneIsOk(speakers, t, my, withdrawn, rips, listed, gone, i - 1 - |listed|);
      }
    }
  }

  lemma GoneIsOk(speakers: set<Callsign>, t: Table, my: Callsign, withdrawn: set<Callsign>, rips: seq<Rip>,
                 listed: seq<Listed>, gone: seq<Listed>, j: nat)
    requires Arranged(rips, my, listed, gone) && ListsGone(t, my, withdrawn, gone) && AllValid(withdrawn)
    requires j < |gone|
    ensures PlainRip(speakers, rips[1 + |listed| + j])
  {
    assert gone[j] in gone;
    assert gone[j].rip.destination in Named(gone);
  }

  /** What a parser makes of such a frame holds nothing that was not in it. */
  lemma HeardIsOk(speakers: set<Callsign>, frame: seq<Rip>, options: Options)
    requires FrameOk(speakers, frame) && ParseRif(RifBytes(frame), options).Some?
    ensures RifOk(speakers, ParseRif(RifBytes(frame), options).value)
  {
    var rips := ParseRif(RifBytes(frame), options).value;
    DamageInventsNothing(frame, options);
    forall i | 0 <= i < |rips| ensures RipOk(speakers, rips[i]) {
      ThinnedIn(rips, frame, i);
      var k :| 0 <= k < |frame| && SameRoute(rips[i], frame[k]);
      assert RipOk(speakers, frame[k]);
    }
  }

  // ---- The network -----------------------------------------------------------------------------------------

  /** `sent` holds every frame ever sent, `speakers` every node that sent one. */
  datatype Net = Net(tables: map<Callsign, Table>, sent: set<seq<Rip>>, speakers: set<Callsign>)

  datatype Event =
    | Local(n: Callsign, op: Op)
    | Advertise(n: Callsign, target: Callsign, withdrawn: set<Callsign>, rips: seq<Rip>, listed: seq<Listed>,
                gone: seq<Listed>)
    | Deliver(n: Callsign, v: Via, sntt: int, hopLimit: int, frame: seq<Rip>, options: Options, trace: seq<Table>)

  /** The tables between the RIPs of one frame, as `NetRomRoutingTable.IngestRif` runs through them. */
  ghost predicate Ingests(
    o: Settings, my: Callsign, v: Via, sntt: int, hopLimit: int, rips: seq<Rip>, trace: seq<Table>)
  {
    |trace| == |rips| + 1 && forall i {:trigger IngestsAt(o, my, v, sntt, hopLimit, rips, trace, i)} ::
      0 <= i < |rips| ==> IngestsAt(o, my, v, sntt, hopLimit, rips, trace, i)
  }

  ghost predicate IngestsAt(
    o: Settings, my: Callsign, v: Via, sntt: int, hopLimit: int, rips: seq<Rip>, trace: seq<Table>, i: nat)
    requires i < |rips| && |trace| == |rips| + 1
  {
    IngestRip(o, trace[i], trace[i + 1], my, v, sntt, hopLimit, rips[i])
  }

  /** What the parser returned is ingested; nothing is when it rejects the frame. */
  ghost predicate TakesIn(o: Settings, my: Callsign, v: Via, sntt: int, hopLimit: int, heard: Option<seq<Rip>>,
                          trace: seq<Table>) {
    if heard.None? then |trace| == 1 else Ingests(o, my, v, sntt, hopLimit, heard.value, trace)
  }

  ghost predicate NetStep(os: map<Callsign, Settings>, s: Net, e: Event, s': Net) {
    && e.n in s.tables && e.n in os
    && match e
       case Local(n, op) =>
         !op.HearRip? && n in s'.tables && Step(os[n], s.tables[n], op, s'.tables[n])
         && s' == s.(tables := s.tables[n := s'.tables[n]])
       case Advertise(n, target, withdrawn, rips, listed, gone) =>
         IsRif(s.tables[n], n, target, withdrawn, rips, listed, gone) && AllValid(withdrawn)
         && s' == s.(sent := s.sent + {rips}, speakers := s.speakers + {n})
       case Deliver(n, v, sntt, hopLimit, frame, options, trace) =>
         frame in s.sent && AllEncodable(frame) && sntt >= 0
         && TakesIn(os[n], n, v, sntt, hopLimit, ParseRif(RifBytes(frame), options), trace) && trace[0] == s.tables[n]
         && s' == s.(tables := s.tables[n := trace[|trace| - 1]])
  }

  ghost predicate NetRun(os: map<Callsign, Settings>, ss: seq<Net>, es: seq<Event>) {
    |ss| == |es| + 1 && forall i {:trigger NetStepAt(os, ss, es, i)} :: 0 <= i < |es| ==> NetStepAt(os, ss, es, i)
  }

  ghost predicate NetStepAt(os: map<Callsign, Settings>, ss: seq<Net>, es: seq<Event>, i: nat)
    requires i < |es| && |ss| == |es| + 1
  {
    NetStep(os, ss[i], es[i], ss[i + 1])
  }

  ghost predicate Starts(s: Net) {
    s.sent == {} && s.speakers == {} && forall n :: n in s.tables ==> s.tables[n] == EMPTY && Valid(n)
  }

  ghost predicate NetOk(s: Net) {
    && AllValid(s.tables.Keys) && AllValid(s.speakers)
    && (forall n :: n in s.tables ==> NodeOk(s.speakers, n, s.tables[n]))
    && (forall rips :: rips in s.sent ==> FrameOk(s.speakers, rips))
  }

  lemma {:induction false} IngestKeeps(speakers: set<Callsign>, o: Settings, my: Callsign, v: Via, sntt: int,
                                       hopLimit: int, rips: seq<Rip>, trace: seq<Table>, i: nat)
    requires Ingests(o, my, v, sntt, hopLimit, rips, trace) && RifOk(speakers, rips) && sntt >= 0 && i <= |rips|
    requires NodeOk(speakers, my, trace[0])
    ensures NodeOk(speakers, my, trace[i])
  {
    if i > 0 {
      IngestKeeps(speakers, o, my, v, sntt, hopLimit, rips, trace, i - 1);
      assert IngestsAt(o, my, v, sntt, hopLimit, rips, trace, i - 1);
      IngestRipKeeps(speakers, o, trace[i - 1], trace[i], my, v, sntt, hopLimit, rips[i - 1]);
    }
  }

  lemma QuietKeeps(speakers: set<Callsign>, my: Callsign, t: Table, t': Table)
    requires NodeOk(speakers, my, t) && NoNewMetric(t, t')
    ensures NodeOk(speakers, my, t')
  {
  }

  lemma NetStepKeeps(os: map<Callsign, Settings>, s: Net, e: Event, s': Net)
    requires NetOk(s) && NetStep(os, s, e, s')
    ensures NetOk(s')
  {
    match e
    case Local(n, op) =>
      QuietStep(os[n], s.tables[n], op, s'.tables[n]);
      QuietKeeps(s.speakers, n, s.tables[n], s'.tables[n]);
    case Advertise(n, target, withdrawn, rips, listed, gone) =>
      assert s.speakers <= s'.speakers;
      assert NodeOk(s'.speakers, n, s.tables[n]);
      RifIsOk(s'.speakers, n, s.tables[n], target, withdrawn, rips, listed, gone);
    case Deliver(n, v, sntt, hopLimit, frame, options, trace) =>
      var heard := ParseRif(RifBytes(frame), options);
      if heard.Some? {
        HeardIsOk(s.speakers, frame, options);
        IngestKeeps(s.speakers, os[n], n, v, sntt, hopLimit, heard.value, trace, |heard.value|);
      }
  }

  lemma {:induction false} NetRunKeeps(os: map<Callsign, Settings>, ss: seq<Net>, es: seq<Event>, i: nat)
    requires NetRun(os, ss, es) && Starts(ss[0]) && i < |ss|
    ensures NetOk(ss[i])
  {
    if i > 0 {
      NetRunKeeps(os, ss, es, i - 1);
      assert NetStepAt(os, ss, es, i - 1);
      NetStepKeeps(os, ss[i - 1], es[i - 1], ss[i]);
    }
  }

  /**
   * Over every run, each time metric any node holds is finite with at least ten milliseconds a hop, is for another
   * node, and that node has really advertised itself.
   */
  lemma MetricsAreFinite(os: map<Callsign, Settings>, ss: seq<Net>, es: seq<Event>, i: nat, n: Callsign, d: Callsign,
                         v: Via)
    requires NetRun(os, ss, es) && Starts(ss[0]) && i < |ss| && n in ss[i].tables
    requires TimeVia(ss[i].tables[n], d, v).Some?
    ensures Finite(TimeVia(ss[i].tables[n], d, v).value) && d != n && d in ss[i].speakers
  {
    NetRunKeeps(os, ss, es, i);
    assert NodeOk(ss[i].speakers, n, ss[i].tables[n]);
  }

  /** Over every run each frame sent is one that comes back from its octets exactly when all its end markers do. */
  lemma FramesArriveIff(os: map<Callsign, Settings>, ss: seq<Net>, es: seq<Event>, i: nat, frame: seq<Rip>,
                        options: Options)
    requires NetRun(os, ss, es) && Starts(ss[0]) && i < |ss| && frame in ss[i].sent
    ensures Plain(frame)
    ensures frame != [] || options.allowEmptyRipList ==>
              (ParseRif(RifBytes(frame), options) == Some(frame) <==> Framed(frame))
  {
    NetRunKeeps(os, ss, es, i);
    if frame != [] || options.allowEmptyRipList {
      RifRoundTripIff(frame, options);
    }
  }

  // ---- One hop ---------------------------------------------------------------------------------------------

  /** A metric learned from a frame is worse than the best one its sender held, whatever the link costs. */
  lemma HopStrictlyIncreases(speakers: set<Callsign>, o: Settings, a: Callsign, ta: Table, target: Callsign,
                             listed: seq<Listed>, i: nat, b: Callsign, tb: Table, tb': Table, v: Via, sntt: int,
                             hopLimit: int)
    requires NodeOk(speakers, a, ta) && ListsTimed(ta, a, target, listed) && i < |listed| && sntt >= 0
    requires IngestRip(o, tb, tb', b, v, sntt, hopLimit, listed[i].rip)
    ensures var d := listed[i].rip.destination;
            TimeVia(tb', d, v).Some? && TimeVia(tb', d, v) != TimeVia(tb, d, v) ==>
              exists w :: TimeVia(ta, d, w).Some?
                && TimeVia(tb', d, v).value.targetTimeMs > TimeVia(ta, d, w).value.targetTimeMs
                && TimeVia(tb', d, v).value.hopCount == Min(TimeVia(ta, d, w).value.hopCount + 1, 255)
                && forall x :: TimeVia(ta, d, x).Some? ==>
                     TimeVia(ta, d, w).value.targetTimeMs <= TimeVia(ta, d, x).value.targetTimeMs
  {
    var e := listed[i];
    var d := e.rip.destination;
    assert e in listed;
    var routes := RoutesTo(ta, d);
    var m :| IsBest(routes, m) && e == Listed(
      Rip(d, m.hopCount, if GoesVia(routes, target) then HORIZON_MS else Quantise(m.targetTimeMs), []), m.targetTimeMs);
    var w :| w in routes && routes[w].inp3 == Some(m);
    assert TimeVia(ta, d, w) == Some(m);
    QuantiseBounds(m.targetTimeMs);
    if TimeVia(tb', d, v).Some? && TimeVia(tb', d, v) != TimeVia(tb, d, v) {
      RipTeachesOne(o, tb, tb', b, v, sntt, hopLimit, e.rip, d, v);
      assert forall x :: TimeVia(ta, d, x).Some? ==> m.targetTimeMs <= TimeVia(ta, d, x).value.targetTimeMs;
    }
  }

  // ---- Poison reverse --------------------------------------------------------------------------------------

  lemma OthersUntouched(o: Settings, t: Table, t': Table, my: Callsign, v: Via, sntt: int, hopLimit: int, rip: Rip,
                        d: Callsign, w: Via)
    requires IngestRip(o, t, t', my, v, sntt, hopLimit, rip) && d != rip.destination
    ensures TimeVia(t', d, w) == TimeVia(t, d, w)
  {
  }

  lemma HorizonWithdraws(o: Settings, t: Table, t': Table, my: Callsign, v: Via, sntt: int, hopLimit: int, rip: Rip)
    requires IngestRip(o, t, t', my, v, sntt, hopLimit, rip) && rip.targetTimeMs >= HORIZON_MS
    ensures TimeVia(t', rip.destination, v).None?
  {
  }

  /** Where a frame can name a destination other than its sender. */
  lemma NamedAt(t: Table, my: Callsign, target: Callsign, withdrawn: set<Callsign>, rips: seq<Rip>,
                listed: seq<Listed>, gone: seq<Listed>, i: nat)
    requires IsRif(t, my, target, withdrawn, rips, listed, gone) && i < |rips| && rips[i].destination != my
    ensures i > 0
    ensures i <= |listed| ==> rips[i] == listed[i - 1].rip && rips[i].destination in Timed(t, my)
    ensures i > |listed| ==>
              rips[i] == gone[i - 1 - |listed|].rip && rips[i].destination in withdrawn - Timed(t, my)
  {
    if 1 <= i <= |listed| {
      assert rips[1 + (i - 1)] == listed[i - 1].rip && listed[i - 1] in listed;
      assert rips[i].destination in Named(listed);
    } else if i > |listed| {
      var j := i - 1 - |listed|;
      assert rips[1 + |listed| + j] == gone[j].rip && gone[j] in gone;
      assert rips[i].destination in Named(gone);
    }
  }

  lemma NamedOnce(t: Table, my: Callsign, target: Callsign, withdrawn: set<Callsign>, rips: seq<Rip>,
                  listed: seq<Listed>, gone: seq<Listed>, i: nat, j: nat)
    requires IsRif(t, my, target, withdrawn, rips, listed, gone) && i < j < |rips| && rips[i].destination != my
    ensures rips[j].destination != rips[i].destination
  {
    if rips[j].destination != my {
      NamedAt(t, my, target, withdrawn, rips, listed, gone, i);
      NamedAt(t, my, target, withdrawn, rips, listed, gone, j);
      assert j <= |listed| ==> listed[i - 1].rip.destination != listed[j - 1].rip.destination;
      assert i > |listed| ==>
          gone[i - 1 - |listed|].rip.destination != gone[j - 1 - |listed|].rip.destination;
    }
  }

  /** A frame names exactly the destinations with a time-route and the withdrawn ones. */
  lemma NamedIff(t: Table, my: Callsign, target: Callsign, withdrawn: set<Callsign>, rips: seq<Rip>,
                 listed: seq<Listed>, gone: seq<Listed>, d: Callsign)
    requires IsRif(t, my, target, withdrawn, rips, listed, gone) && d != my
    ensures (exists i :: 0 <= i < |rips| && rips[i].destination == d) <==> HoldsTime(t, d) || d in withdrawn
  {
    assert d in Timed(t, my) <==> HoldsTime(t, d);
    if HoldsTime(t, d) {
      assert d in Named(listed);
      var k :| 0 <= k < |listed| && listed[k].rip.destination == d;
      assert rips[1 + k].destination == d;
    } else if d in withdrawn {
      assert d in Named(gone);
      var k :| 0 <= k < |gone| && gone[k].rip.destination == d;
      assert rips[1 + |listed| + k].destination == d;
    } else if i :| 0 <= i < |rips| && rips[i].destination == d {
      NamedAt(t, my, target, withdrawn, rips, listed, gone, i);
    }
  }

  lemma NamedAtHorizon(t: Table, my: Callsign, target: Callsign, withdrawn: set<Callsign>, rips: seq<Rip>,
                       listed: seq<Listed>, gone: seq<Listed>, d: Callsign, i: nat)
    requires IsRif(t, my, target, withdrawn, rips, listed, gone) && GoesVia(RoutesTo(t, d), target) && d != my
    requires i < |rips| && rips[i].destination == d
    ensures rips[i].targetTimeMs >= HORIZON_MS
  {
    NamedAt(t, my, target, withdrawn, rips, listed, gone, i);
    if i <= |listed| {
      assert listed[i - 1] in listed;
    } else {
      assert gone[i - 1 - |listed|] in gone;
    }
  }

  /** One of the RIPs heard, if any were, is about `d`. */
  predicate Mentions(heard: Option<seq<Rip>>, d: Callsign) {
    heard.Some? && exists i :: 0 <= i < |heard.value| && heard.value[i].destination == d
  }

  /** RIPs of which every one about `d` is at the horizon clear its metric if there is one, and otherwise leave it. */
  lemma {:induction false} HorizonClears(o: Settings, my: Callsign, v: Via, sntt: int, hopLimit: int, rips: seq<Rip>,
                                         trace: seq<Table>, d: Callsign, n: nat)
    requires Ingests(o, my, v, sntt, hopLimit, rips, trace) && n <= |rips|
    requires forall i :: 0 <= i < |rips| && rips[i].destination == d ==> rips[i].targetTimeMs >= HORIZON_MS
    ensures if exists i :: 0 <= i < n && rips[i].destination == d then TimeVia(trace[n], d, v).None?
            else TimeVia(trace[n], d, v) == TimeVia(trace[0], d, v)
  {
    if n > 0 {
      HorizonClears(o, my, v, sntt, hopLimit, rips, trace, d, n - 1);
      assert IngestsAt(o, my, v, sntt, hopLimit, rips, trace, n - 1);
      if rips[n - 1].destination == d {
        HorizonWithdraws(o, trace[n - 1], trace[n], my, v, sntt, hopLimit, rips[n - 1]);
      } else {
        OthersUntouched(o, trace[n - 1], trace[n], my, v, sntt, hopLimit, rips[n - 1], d, v);
      }
    }
  }

  /** What is heard about `d` was sent, and is at the horizon as it was sent. */
  lemma HeardAtHorizon(t: Table, my: Callsign, target: Callsign, withdrawn: set<Callsign>, rips: seq<Rip>,
                       listed: seq<Listed>, gone: seq<Listed>, d: Callsign, options: Options, i: nat)
    requires IsRif(t, my, target, withdrawn, rips, listed, gone) && GoesVia(RoutesTo(t, d), target) && d != my
    requires Plain(rips) && ParseRif(RifBytes(rips), options).Some?
    requires i < |ParseRif(RifBytes(rips), options).value|
    requires ParseRif(RifBytes(rips), options).value[i].destination == d
    ensures ParseRif(RifBytes(rips), options).value[i].targetTimeMs >= HORIZON_MS
    ensures exists k :: 0 <= k < |rips| && rips[k].destination == d
  {
    var heard := ParseRif(RifBytes(rips), options).value;
    DamageInventsNothing(rips, options);
    ThinnedIn(heard, rips, i);
    var k :| 0 <= k < |rips| && SameRoute(heard[i], rips[k]);
    NamedAtHorizon(t, my, target, withdrawn, rips, listed, gone, d, k);
  }

  /**
   * Poison reverse. A keeps a route to D via B and sends B a frame; once B has taken in what its parser makes of it, B
   * holds no time-route to D via A exactly when D is among what was heard, or B held none to begin with. D can be heard
   * of only if A held a time-route to it or listed it as withdrawn, and then is, if the frame comes through whole.
   */
  lemma PoisonReverse(o: Settings, a: Callsign, ta: Table, b: Callsign, withdrawn: set<Callsign>, rips: seq<Rip>,
                      listed: seq<Listed>, gone: seq<Listed>, port: PortId, sntt: int, hopLimit: int,
                      options: Options, trace: seq<Table>, d: Callsign)
    requires IsRif(ta, a, b, withdrawn, rips, listed, gone) && d != a && GoesVia(RoutesTo(ta, d), b)
    requires Plain(rips) && TakesIn(o, b, Via(port, a), sntt, hopLimit, ParseRif(RifBytes(rips), options), trace)
    ensures var heard, v := ParseRif(RifBytes(rips), options), Via(port, a);
            && (TimeVia(trace[|trace| - 1], d, v).None? <==> Mentions(heard, d) || TimeVia(trace[0], d, v).None?)
            && (Mentions(heard, d) ==> HoldsTime(ta, d) || d in withdrawn)
            && (Framed(rips) ==> (Mentions(heard, d) <==> HoldsTime(ta, d) || d in withdrawn))
  {
    var heard, v := ParseRif(RifBytes(rips), options), Via(port, a);
    NamedIff(ta, a, b, withdrawn, rips, listed, gone, d);
    RifRoundTripIff(rips, options);
    if heard.Some? {
      forall i | 0 <= i < |heard.value| && heard.value[i].destination == d
        ensures heard.value[i].targetTimeMs >= HORIZON_MS && exists k :: 0 <= k < |rips| && rips[k].destination == d
      {
        HeardAtHorizon(ta, a, b, withdrawn, rips, listed, gone, d, options, i);
      }
      HorizonClears(o, b, v, sntt, hopLimit, heard.value, trace, d, |heard.value|);
    }
  }

  /**
   * A frame that does not come through whole can lose the poison: if the very first end marker is misread, as it is in
   * every frame of eighteen entries or more, the fastest destination is not heard of, and B keeps whatever time-route
   * it had to it by way of A.
   */
  lemma PoisonIsLost(o: Settings, a: Callsign, ta: Table, b: Callsign, withdrawn: set<Callsign>, rips: seq<Rip>,
                     listed: seq<Listed>, gone: seq<Listed>, port: PortId, sntt: int, hopLimit: int,
                     options: Options, trace: seq<Table>, d: Callsign)
    requires IsRif(ta, a, b, withdrawn, rips, listed, gone) && d != a && GoesVia(RoutesTo(ta, d), b)
    requires Plain(rips) && TakesIn(o, b, Via(port, a), sntt, hopLimit, ParseRif(RifBytes(rips), options), trace)
    requires |rips| >= 2 && rips[1].destination == d && (!Marked(rips[1..]) || |rips| >= 18)
    ensures TimeVia(trace[|trace| - 1], d, Via(port, a)) == TimeVia(trace[0], d, Via(port, a))
  {
    var heard := ParseRif(RifBytes(rips), options);
    if |rips| >= 18 {
      EighteenNeverFit(rips);
    }
    if heard.Some? {
      FirstMisreadLosesNext(rips, options);
      forall i | 0 <= i < |heard.value| ensures heard.value[i].destination != d {
        SkipsSecond(heard.value, rips, i);
        var k :| 0 <= k < |rips| && k != 1 && SameRoute(heard.value[i], rips[k]);
        if rips[k].destination == d {
          var lo, hi := if k < 1 then k else 1, if k < 1 then 1 else k;
          NamedOnce(ta, a, b, withdrawn, rips, listed, gone, lo, hi);
        }
      }
      HorizonClears(o, b, Via(port, a), sntt, hopLimit, heard.value, trace, d, |heard.value|);
    }
  }
}
