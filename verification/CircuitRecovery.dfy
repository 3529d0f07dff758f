/**
 * Recovery and lifecycle of a circuit pair: one due tick followed by a loss-free delivery of the channel makes
 * up for every loss before it; and the lifecycle notifications are one-shot.
 */
module CircuitRecovery {
  import opened Common
  import opened CircuitSpec
  import opened CircuitPair
  import opened CircuitInvariant
  import opened CircuitSafety

  // ---- The state and the event log only change at named points ---------------------------------------------

  predicate SameLife(c: Circuit, d: Circuit) {
    d.state == c.state && d.events == c.events
  }

  /** Nothing but sending happened between `c` and `d`. */
  predicate OnlySent(c: Circuit, d: Circuit) {
    SameLife(c, d) && d.rx == c.rx && d.delivered == c.delivered
  }

  lemma {:induction false} FillWindowOnlySends(c: Circuit, now: int)
    ensures OnlySent(c, FillWindow(c, now))
    decreases |c.tx.queue|
  {
    if c.tx.queue != [] && |c.tx.unacked| < c.window {
      FillWindowOnlySends(SendNext(c, now), now);
    }
  }

  lemma {:induction false} ResendOnlySends(c: Circuit, from: Option<byte>, i: nat, now: int)
    ensures OnlySent(c, Resend(c, from, i, now))
    decreases |c.tx.unacked| - i
  {
    if i < |c.tx.unacked| {
      ResendOnlySends(ResendOne(c, from, i, now), from, i + 1, now);
    }
  }

  lemma PumpOnlySends(c: Circuit, now: int)
    ensures OnlySent(c, Pump(c, now))
  {
    FillWindowOnlySends(c, now);
  }

  lemma AbsorbOnlySends(c: Circuit, expected: byte, now: int)
    ensures OnlySent(c, AbsorbAck(c, expected, now))
  {
    PumpOnlySends(c.(tx := c.tx.(unacked := Unacknowledged(c.tx.unacked, expected), va := expected)), now);
  }

  lemma PeerChokeOnlySends(c: Circuit, choke: bool, now: int)
    ensures OnlySent(c, ApplyPeerChoke(c, choke, now))
  {
    PumpOnlySends(c.(flow := c.flow.(peerChoked := false)), now);
  }

  lemma DataLife(c: Circuit, p: Packet, now: int)
    ensures SameLife(c, OnInformation(c, p, now)) && SameLife(c, OnInformationAcknowledge(c, p, now))
  {
    AbsorbOnlySends(c, p.rxSequence, now);
    PeerChokeOnlySends(AbsorbAck(c, p.rxSequence, now), p.choke, now);
    PeerChokeOnlySends(c, p.choke, now);
    var acked := AbsorbAck(ApplyPeerChoke(c, p.choke, now), p.rxSequence, now);
    AbsorbOnlySends(ApplyPeerChoke(c, p.choke, now), p.rxSequence, now);
    ResendOnlySends(acked, Some(p.rxSequence), 0, now);
    PumpOnlySends(if p.nak then Resend(acked, Some(p.rxSequence), 0, now) else acked, now);
  }

  // ---- Recovery --------------------------------------------------------------------------------------------

  /** Deliver everything in x's channel to y, losing nothing. */
  function DeliverAll(x: End, y: End, now: int): (End, End)
    decreases |x.c.outbox|
  {
    if x.c.outbox == [] then (x, y)
    else
      var (y', x') := Act(y, x, Deliver(true, now));
      DeliverAll(x', y', now)
  }

  /** The `j`-th of the last `m` datagrams carries position `lo + j`. */
  predicate SweepAt(box: seq<Packet>, frames: seq<nat>, lo: nat, m: nat, j: nat) {
    m <= |box| == |frames| && j < m
    && box[|box| - m + j].opcode == Information && frames[|box| - m + j] == lo + j
  }

  /** The channel ends with the frames `lo`..`sent`-1, in order. */
  predicate Sweeps(box: seq<Packet>, frames: seq<nat>, lo: nat, sent: nat) {
    && lo <= sent && sent - lo <= |box| == |frames|
    && forall j {:trigger SweepAt(box, frames, lo, sent - lo, j)} :: 0 <= j < sent - lo ==>
         SweepAt(box, frames, lo, sent - lo, j)
  }

  /** The start of the sweep once the head datagram is gone. */
  function AfterHead(box: seq<Packet>, lo: nat, sent: nat): nat {
    if sent - lo == |box| then lo + 1 else lo
  }

  lemma SweepPop(box: seq<Packet>, frames: seq<nat>, lo: nat, sent: nat)
    requires Sweeps(box, frames, lo, sent) && box != []
    ensures Sweeps(box[1..], frames[1..], AfterHead(box, lo, sent), sent)
    ensures sent - lo == |box| ==> box[0].opcode == Information && frames[0] == lo
  {
    var lo' := AfterHead(box, lo, sent);
    var box', frames' := box[1..], frames[1..];
    var m := sent - lo';
    forall j | 0 <= j < m ensures SweepAt(box', frames', lo', m, j) {
      assert SweepAt(box, frames, lo, sent - lo, j + lo' - lo);
    }
    if sent - lo == |box| {
      assert SweepAt(box, frames, lo, sent - lo, 0);
    }
  }

  lemma StaysConnected(c: Circuit, p: Packet, now: int)
    requires c.state == Connected && p.opcode != DisconnectRequest
    ensures OnPacket(c, p, now).state == Connected
  {
    DataLife(c, p, now);
  }

  /** A loss-free sweep over everything not yet taken leaves the receiver with all that was transmitted. */
  lemma {:induction false} SweepDelivers(x: End, y: End, g: Track, h: Track, lo: nat, now: int)
    returns (g': Track, h': Track)
    requires Inv(y, x, h, g) && x.c.state == Connected && y.c.state == Connected
    requires Sweeps(x.c.outbox, g.frames, lo, g.sent) && lo <= g.received
    ensures var (x', y') := DeliverAll(x, y, now);
            && Inv(y', x', h', g') && y'.c.state == Connected
            && g'.fs == g.fs && g'.sent == g.sent && g'.received == g'.sent
    decreases |x.c.outbox|
  {
    if x.c.outbox == [] {
      g', h' := g, h;
    } else {
      var h1, g1 := SweepStep(x, y, g, h, lo, now);
      var (y1, x1) := Act(y, x, Deliver(true, now));
      g', h' := SweepDelivers(x1, y1, g1, h1, AfterHead(x.c.outbox, lo, g.sent), now);
    }
  }

  lemma SweepStep(x: End, y: End, g: Track, h: Track, lo: nat, now: int) returns (h': Track, g': Track)
    requires Inv(y, x, h, g) && x.c.state == Connected && y.c.state == Connected && x.c.outbox != []
    requires Sweeps(x.c.outbox, g.frames, lo, g.sent) && lo <= g.received
    ensures var (y', x') := Act(y, x, Deliver(true, now));
            && Inv(y', x', h', g') && y'.c.state == Connected && x' == Popped(x)
            && g'.fs == g.fs && g'.sent == g.sent && g'.frames == g.frames[1..]
    ensures var lo' := AfterHead(x.c.outbox, lo, g.sent);
            Sweeps(x.c.outbox[1..], g'.frames, lo', g'.sent) && lo' <= g'.received
  {
    var p := x.c.outbox[0];
    assert OfferAt(x.c.outbox, true, 0);
    var h1, g1, k, a := TakeKeeps(y, x, h, g);
    h', g' := PacketKeeps(y, Popped(x), h1, g1, p, k, a, now);
    StaysConnected(y.c, p, now);
    SweepPop(x.c.outbox, g.frames, lo, g.sent);
  }

  lemma {:induction false} ResendBox(c: Circuit, i: nat, now: int)
    requires i <= |c.tx.unacked|
    ensures var d := Resend(c, None, i, now);
            && |d.outbox| == |c.outbox| + |c.tx.unacked| - i
            && (forall j :: |c.outbox| <= j < |d.outbox| ==> d.outbox[j].opcode == Information)
            && (forall j :: 0 <= j < |c.outbox| ==> d.outbox[j] == c.outbox[j])
    decreases |c.tx.unacked| - i
  {
    if i < |c.tx.unacked| {
      ResendBox(ResendOne(c, None, i, now), i + 1, now);
    }
  }

  /**
   * Recovery: at any reachable state with both ends connected, if the retransmit timer of `x` is due and its
   * retries are not exhausted, then one tick of x and a loss-free delivery of its channel bring y everything x
   * has transmitted, however much was lost before; with nothing queued, that is everything x accepted.
   */
  lemma CleanRoundRecovers(a: Identity, b: Identity, acts: seq<Action>, x: End, y: End, now: int)
    requires Facing(Run(Start(a, b), acts), x, y)
    requires x.c.state == Connected && y.c.state == Connected
    requires x.c.tx.unacked != [] && now >= x.c.tx.unacked[0].sentAt + x.c.own.options.retransmitTimeoutMs
    requires x.c.tx.unacked[0].retries < x.c.own.options.maxRetries
    ensures |x.c.tx.queue| <= |Sent(x)|
    ensures var y' := DeliverAll(With(x, CircuitSpec.Tick(x.c, now)), y, now).1;
            && y'.c.state == Connected
            && y'.c.delivered == Assemble(EMPTY, Sent(x)[..|Sent(x)| - |x.c.tx.queue|]).done
            && (x.c.tx.queue == [] ==> y'.c.delivered == x.accepted)
  {
    var g, h := FacingInv(a, b, acts, x, y);
    var x1 := With(x, Resend(x.c, None, 0, now));
    assert CircuitSpec.Tick(x.c, now) == x1.c;
    var g1, h1 := ResendKeeps(x, y, g, h, None, 0, now);
    ResendBox(x.c, 0, now);
    ResendOnlySends(x.c, None, 0, now);
    SweepAfterTick(x, x1, g, g1);
    var g2, h2 := SweepDelivers(x1, y, g1, h1, g.base, now);
    AllTransmitted(x, DeliverAll(x1, y, now).1, g, g2);
  }

  /** A receiver that has taken everything transmitted has delivered it, reassembled. */
  lemma AllTransmitted(x: End, y: End, g: Track, g': Track)
    requires CountsOk(g) && CountsOk(g') && g.fs == Sent(x) && SendingOk(x.c.tx, x.c.window, g)
    requires g'.fs == g.fs && g'.received == g.sent
    requires ReceivingOk(y.c.rx, y.c.delivered, y.c.state == Connected, g')
    requires forall i :: 0 <= i < |x.accepted| ==> |x.accepted[i]| > 0
    ensures |x.c.tx.queue| <= |Sent(x)|
    ensures y.c.delivered == Assemble(EMPTY, Sent(x)[..|Sent(x)| - |x.c.tx.queue|]).done
    ensures x.c.tx.queue == [] ==> y.c.delivered == x.accepted
  {
    HistoryAssembles(y.c.rx, y.c.delivered, y.c.state == Connected, g', g'.received);
    assert |Sent(x)| - |x.c.tx.queue| == g.sent;
    if x.c.tx.queue == [] {
      assert g.fs[..|g.fs|] == g.fs;
      AssembleFragments(x.accepted, FragmentSize(x.c));
    }
  }

  lemma SweepAfterTick(x: End, x1: End, g: Track, g1: Track)
    requires CountsOk(g) && CountsOk(g1) && SendingOk(x.c.tx, x.c.window, g)
    requires |g.frames| == |x.c.outbox| && |g1.frames| == |x1.c.outbox|
    requires g1.sent == g.sent && g1.frames == g.frames + Range(g.base, g.sent)
    requires |x1.c.outbox| == |x.c.outbox| + |x.c.tx.unacked|
    requires forall j :: |x.c.outbox| <= j < |x1.c.outbox| ==> x1.c.outbox[j].opcode == Information
    ensures Sweeps(x1.c.outbox, g1.frames, g.base, g1.sent)
  {
    var m := g1.sent - g.base;
    forall j | 0 <= j < m ensures SweepAt(x1.c.outbox, g1.frames, g.base, m, j) {
      assert g1.frames[|g.frames| + j] == Range(g.base, g.sent)[j];
    }
  }

  // ---- One-shot lifecycle notifications --------------------------------------------------------------------

  /** The notifications an end has raised, by where it is in its life. */
  predicate Story(x: End) {
    match x.c.state
    case Connecting => x.started && x.c.events == []
    case Connected => x.started && x.c.events == [ConnectedEvent]
    case Disconnecting => x.started && x.c.events == [ConnectedEvent]
    case Disconnected =>
      if x.started then OneShot(x.c.events) else x.c.events == []
  }

  /** At most one `connected`, then at most one `closed`. */
  predicate OneShot(events: seq<Event>) {
    || events == []
    || (|events| == 1 && events[0].ClosedEvent?)
    || (|events| == 2 && events[0] == ConnectedEvent && events[1].ClosedEvent?)
  }

  lemma PacketStory(x: End, p: Packet, now: int)
    requires Story(x)
    ensures Story(With(x, OnPacket(x.c, p, now)))
  {
    DataLife(x.c, p, now);
    if p.opcode == ConnectAcknowledge && x.c.state == Connecting && !p.choke {
      var known := x.c.(peer := Peer(p.txSequence, p.rxSequence), timer := x.c.timer.(armed := false));
      var accepted := AcceptedWindow(p.payload);
      var window := if accepted.Some? then Min(known.window, accepted.value) else known.window;
      PumpOnlySends(
        known.(window := window, state := Connected, events := known.events + [ConnectedEvent]), now);
    }
  }

  lemma TickStory(x: End, now: int)
    requires Story(x)
    ensures Story(With(x, CircuitSpec.Tick(x.c, now)))
  {
    ResendOnlySends(ControlTick(x.c, now), None, 0, now);
  }

  lemma ActStory(x: End, y: End, step: Step)
    requires Story(x) && Story(y)
    ensures Story(Act(x, y, step).0) && Story(Act(x, y, step).1)
  {
    match step {
      case Send(data, now) =>
        PumpOnlySends(x.c.(tx := x.c.tx.(queue := x.c.tx.queue + FragmentsOf(data, FragmentSize(x.c)))), now);
      case Tick(now) => TickStory(x, now);
      case Deliver(accept, now) => if y.c.outbox != [] { PacketStory(x, y.c.outbox[0], now); }
      case _ =>
    }
  }

  /** Over every run each end reports `connected` at most once, before `closed`, and `closed` at most once. */
  lemma LifecycleIsOneShot(a: Identity, b: Identity, acts: seq<Action>, x: End, y: End)
    requires Facing(Run(Start(a, b), acts), x, y)
    ensures OneShot(x.c.events) || x.c.events == [ConnectedEvent]
    ensures x.c.state == Connected ==> x.c.events == [ConnectedEvent]
    ensures x.c.state == Connecting ==> x.c.events == []
  {
    StoryOfRun(a, b, acts);
  }

  lemma {:induction false} StoryOfRun(a: Identity, b: Identity, acts: seq<Action>)
    ensures var s := Run(Start(a, b), acts); Story(s.a) && Story(s.b)
  {
    if acts != [] {
      StoryOfRun(a, b, acts[..|acts| - 1]);
      var s := Run(Start(a, b), acts[..|acts| - 1]);
      ActStory(s.a, s.b, acts[|acts| - 1].step);
      ActStory(s.b, s.a, acts[|acts| - 1].step);
    }
  }
}
