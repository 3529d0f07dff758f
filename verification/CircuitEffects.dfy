/**
 * What the operations of a circuit do as seen from outside: how two ends come to agree and to part, where datagrams are
 * addressed, when timers repeat and give up, and when an end holds back, resumes and transmits.
 */
module CircuitEffects {
  import opened Common
  import opened CircuitSpec
  import opened CircuitPair
  import opened CircuitRecovery
  import opened CircuitReuse
  import opened CircuitGap

  // ---- Coming together and parting -------------------------------------------------------------------------

  /** The pair an end goes by at its own node. */
  function PairOf(own: Identity): Peer {
    Peer(own.localIndex, own.localId)
  }

  function FreshOf(own: Identity): Circuit {
    Fresh(own.options, own.localIndex, own.localId)
  }

  /** A circuit whose channel has been delivered. */
  function Carried(c: Circuit): Circuit {
    c.(outbox := [])
  }

  predicate To(p: Packet, peer: Peer) {
    p.index == peer.index && p.id == peer.id
  }

  /**
   * A call that is accepted and acknowledged leaves both ends connected and knowing each other's pair; the acceptor's
   * window is the least of both proposals and 127, and the caller's the same if its own option is positive.
   */
  lemma CallAgrees(a: Identity, b: Identity, now: int, later: int)
    ensures var calling := CircuitSpec.Connect(FreshOf(a), now);
            var q := LastSent(calling);
            var y := AcceptInbound(FreshOf(b), q.index, q.id, ProposedWindow(q));
            var x := OnPacket(Carried(calling), LastSent(y), later);
            var least := Min(Min(a.options.windowSize, b.options.windowSize), 127);
            && calling.outbox == [q] && q.opcode == ConnectRequest && To(q, PairOf(a))
            && |y.outbox| == 1 && LastSent(y).opcode == ConnectAcknowledge
            && x.state == y.state == Connected && x.peer == PairOf(b) && y.peer == PairOf(a)
            && y.window == Max(1, least) && x.window == Min(a.options.windowSize, y.window)
            && (a.options.windowSize >= 1 ==> x.window == y.window)
            && !x.timer.armed && x.events == y.events == [ConnectedEvent] && x.outbox == []
  {
  }

  /** A call without a usable proposal is taken with the acceptor's own window. */
  lemma TerseCallTakesOwnWindow(c: Circuit, index: byte, id: byte, proposed: int)
    requires proposed <= 0
    ensures AcceptInbound(c, index, id, proposed).window == Max(1, Min(c.own.options.windowSize, 127))
  {
  }

  /** One that is refused leaves both closed, and the caller told so. */
  lemma RefusalCloses(a: Identity, b: Identity, now: int, later: int)
    ensures var calling := CircuitSpec.Connect(FreshOf(a), now);
            var q := LastSent(calling);
            var y := RefuseInbound(FreshOf(b), q.index, q.id);
            var x := OnPacket(Carried(calling), LastSent(y), later);
            && |y.outbox| == 1 && To(LastSent(y), PairOf(a))
            && x.state == y.state == Disconnected && !x.timer.armed
            && x.events == [ClosedEvent(Refused)] && y.events == [] && x.outbox == []
  {
  }

  /** Hanging up asks the peer, who closes and acknowledges, upon which the caller closes too. */
  lemma HangUpIsMutual(x: Circuit, y: Circuit, now: int, later: int)
    requires x.state == y.state == Connected
    ensures var leaving := CircuitSpec.Disconnect(x, now);
            var left := OnPacket(y, LastSent(leaving), later);
            var gone := OnPacket(leaving, LastSent(left), later);
            && leaving.state == Disconnecting && leaving.outbox == x.outbox + [LastSent(leaving)]
            && LastSent(leaving).opcode == DisconnectRequest && To(LastSent(leaving), x.peer)
            && left.state == Disconnected && left.events == y.events + [ClosedEvent(Normal)]
            && left.outbox == y.outbox + [LastSent(left)]
            && LastSent(left).opcode == DisconnectAcknowledge && To(LastSent(left), y.peer)
            && gone.state == Disconnected && gone.events == x.events + [ClosedEvent(Normal)] && !gone.timer.armed
            && gone.outbox == leaving.outbox
  {
  }

  /** A call given up before it is answered closes at once and in silence. */
  lemma AbandonedCallCloses(c: Circuit, now: int)
    requires c.state == Connecting
    ensures var d := CircuitSpec.Disconnect(c, now);
            d.state == Disconnected && d.events == c.events + [ClosedEvent(Normal)] && d.outbox == c.outbox
            && !d.timer.armed
  {
  }

  /** A Connect Request that comes again to a connected end is acknowledged again, and changes nothing else. */
  lemma RepeatedCallIsAcknowledged(c: Circuit, p: Packet, now: int)
    requires c.state == Connected && p.opcode == ConnectRequest
    ensures var d := OnPacket(c, p, now);
            d.outbox != [] && d == c.(outbox := c.outbox + [LastSent(d)])
            && LastSent(d).opcode == ConnectAcknowledge && !LastSent(d).choke && To(LastSent(d), c.peer)
            && LastSent(d).txSequence == c.own.localIndex && LastSent(d).rxSequence == c.own.localId
            && LastSent(d).payload == [Max(1, Min(127, c.window))]
  {
  }

  /** A Disconnect Request is always acknowledged, and closes an end that is not closed yet. */
  lemma HangUpIsAlwaysAnswered(c: Circuit, p: Packet, now: int)
    requires p.opcode == DisconnectRequest
    ensures var d := OnPacket(c, p, now);
            d.state == Disconnected && |d.outbox| == |c.outbox| + 1
            && LastSent(d).opcode == DisconnectAcknowledge && To(LastSent(d), c.peer)
            && d.events == c.events + if c.state == Disconnected then [] else [ClosedEvent(Normal)]
  {
  }

  /** Datagrams that do not belong where an end is in its life change nothing. */
  lemma StraysAreIgnored(c: Circuit, p: Packet, now: int)
    requires match p.opcode
             case ConnectRequest => c.state != Connected
             case ConnectAcknowledge => c.state != Connecting
             case DisconnectRequest => false
             case DisconnectAcknowledge => c.state != Disconnecting
             case Information => c.state != Connected
             case InformationAcknowledge => c.state != Connected
             case Unknown => true
    ensures OnPacket(c, p, now) == c
  {
  }

  // ---- Transmitting ----------------------------------------------------------------------------------------

  /** A datagram as an end that knows `peer` addresses it; a Connect Request names the end's own pair. */
  predicate Addressed(p: Packet, own: Identity, peer: Peer) {
    match p.opcode
    case ConnectRequest => To(p, PairOf(own))
    case ConnectAcknowledge => To(p, peer) && p.txSequence == own.localIndex && p.rxSequence == own.localId
    case _ => To(p, peer)
  }

  predicate AddressedFrom(box: seq<Packet>, n: nat, own: Identity, peer: Peer) {
    forall i :: n <= i < |box| ==> Addressed(box[i], own, peer)
  }

  /** From `c` to `d` only datagrams addressed that way were added. */
  predicate Speaks(c: Circuit, d: Circuit) {
    d.own == c.own && d.peer == c.peer && c.outbox <= d.outbox && AddressedFrom(d.outbox, |c.outbox|, c.own, c.peer)
  }

  lemma SpeaksOn(c: Circuit, d: Circuit, e: Circuit)
    requires Speaks(c, d) && Speaks(d, e)
    ensures Speaks(c, e)
  {
    assert forall i :: 0 <= i < |d.outbox| ==> e.outbox[i] == d.outbox[i];
  }

  /** An Information frame says what its end expects and whether its end is choked, and is never a NAK. */
  predicate Current(p: Packet, c: Circuit) {
    p.opcode == Information && p.rxSequence == c.rx.vr && p.choke == c.flow.localChoked && !p.nak
  }

  /** From `c` to `d` only such frames were added. */
  predicate Transmits(c: Circuit, d: Circuit) {
    Speaks(c, d) && d.rx == c.rx && d.flow == c.flow && d.state == c.state
    && forall i :: |c.outbox| <= i < |d.outbox| ==> Current(d.outbox[i], c)
  }

  lemma TransmitsOn(c: Circuit, d: Circuit, e: Circuit)
    requires Transmits(c, d) && Transmits(d, e)
    ensures Transmits(c, e)
  {
    SpeaksOn(c, d, e);
    forall i | |c.outbox| <= i < |e.outbox| ensures Current(e.outbox[i], c) {
      assert i < |d.outbox| ==> e.outbox[i] == d.outbox[i];
    }
  }

  /** Transmitting takes the head of the queue under V(s), stamps it with the time, and starts its retries at none. */
  lemma NextIsSent(c: Circuit, now: int)
    requires c.tx.queue != []
    ensures var d := SendNext(c, now);
            && Transmits(c, d) && |d.outbox| == |c.outbox| + 1
            && LastSent(d).txSequence == c.tx.vs && LastSent(d).payload == c.tx.queue[0].bytes
            && LastSent(d).moreFollows == c.tx.queue[0].moreFollows
            && |d.tx.unacked| == |c.tx.unacked| + 1 && d.tx.queue == c.tx.queue[1..] && d.tx.vs == (c.tx.vs + 1) % 256
            && var u := d.tx.unacked[|c.tx.unacked|];
               u.sequence == c.tx.vs && u.sentAt == now && u.retries == 0
  {
  }

  /** Every fragment of a frame but the last is full and says that more follow; the last is not empty. */
  lemma {:induction false} FragmentsAreFull(data: bytes, size: int, i: nat)
    requires size >= 1 && i < |FragmentsOf(data, size)|
    ensures var fs := FragmentsOf(data, size);
            && (fs[i].moreFollows <==> i < |fs| - 1)
            && (i < |fs| - 1 ==> |fs[i].bytes| == size)
            && 1 <= |fs[i].bytes| <= size
    decreases |data|
  {
    if |data| > size && i > 0 {
      FragmentsAreFull(data[size..], size, i - 1);
    }
  }

  /** A fragment is as long as the option says, and one octet when that says less. */
  lemma FragmentSizeIs(c: Circuit)
    ensures c.own.options.fragmentSize >= 1 ==> FragmentSize(c) == c.own.options.fragmentSize
    ensures c.own.options.fragmentSize < 1 ==> FragmentSize(c) == 1
  {
  }

  lemma {:induction false} FillWindowTransmits(c: Circuit, now: int)
    ensures Transmits(c, FillWindow(c, now))
    decreases |c.tx.queue|
  {
    if c.tx.queue != [] && |c.tx.unacked| < c.window {
      NextIsSent(c, now);
      FillWindowTransmits(SendNext(c, now), now);
      TransmitsOn(c, SendNext(c, now), FillWindow(c, now));
    }
  }

  lemma PumpTransmits(c: Circuit, now: int)
    ensures Transmits(c, Pump(c, now))
  {
    FillWindowTransmits(c, now);
  }

  /** Resending repeats a frame under its own number with a new stamp and one more retry, if the round takes it. */
  lemma OneIsResent(c: Circuit, from: Option<byte>, i: nat, now: int)
    requires i < |c.tx.unacked|
    ensures var d, u := ResendOne(c, from, i, now), c.tx.unacked[i];
            && Transmits(c, d) && |d.tx.unacked| == |c.tx.unacked|
            && (forall j :: 0 <= j < |c.tx.unacked| && j != i ==> d.tx.unacked[j] == c.tx.unacked[j])
            && (if from.None? || (u.sequence - from.value) % 256 <= 128 then
                  |d.outbox| == |c.outbox| + 1 && LastSent(d).txSequence == u.sequence
                  && LastSent(d).payload == u.payload && LastSent(d).moreFollows == u.moreFollows
                  && d.tx.unacked[i] == u.(sentAt := now, retries := u.retries + 1)
                else d == c)
  {
  }

  lemma {:induction false} ResendTransmits(c: Circuit, from: Option<byte>, i: nat, now: int)
    ensures Transmits(c, Resend(c, from, i, now))
    decreases |c.tx.unacked| - i
  {
    if i < |c.tx.unacked| {
      OneIsResent(c, from, i, now);
      ResendTransmits(ResendOne(c, from, i, now), from, i + 1, now);
      TransmitsOn(c, ResendOne(c, from, i, now), Resend(c, from, i, now));
    }
  }

  lemma AbsorbTransmits(c: Circuit, expected: byte, now: int)
    ensures Transmits(c, AbsorbAck(c, expected, now)) && AbsorbAck(c, expected, now).tx.va == expected
    ensures Stuck(c) ==> Stuck(AbsorbAck(c, expected, now))
  {
    var kept := c.(tx := c.tx.(unacked := Unacknowledged(c.tx.unacked, expected), va := expected));
    PumpTransmits(kept, now);
    PumpFills(kept, now);
    PumpKeepsVa(kept, now);
  }

  lemma PumpKeepsVa(c: Circuit, now: int)
    ensures Pump(c, now).tx.va == c.tx.va
  {
    FillWindowKeepsVa(c, now);
  }

  lemma {:induction false} FillWindowKeepsVa(c: Circuit, now: int)
    ensures FillWindow(c, now).tx.va == c.tx.va
    decreases |c.tx.queue|
  {
    if c.tx.queue != [] && |c.tx.unacked| < c.window {
      FillWindowKeepsVa(SendNext(c, now), now);
    }
  }

  /** The frames a cumulative acknowledgement leaves in flight are those not up to 128 behind what it expects. */
  lemma {:induction false} AcknowledgedGo(us: seq<Unacked>, expected: byte, u: Unacked)
    ensures u in Unacknowledged(us, expected) <==> u in us && !(1 <= (expected - u.sequence) % 256 <= 128)
  {
    if us != [] {
      AcknowledgedGo(us[..|us| - 1], expected, u);
      assert us == us[..|us| - 1] + [us[|us| - 1]];
    }
  }

  // ---- Holding back ----------------------------------------------------------------------------------------

  /** A peer's choke flag is taken as it is; when it is clear, transmitting resumes at once. */
  lemma ChokeIsTaken(c: Circuit, choke: bool, now: int)
    ensures var d := ApplyPeerChoke(c, choke, now);
            && d.flow == c.flow.(peerChoked := choke) && d.rx == c.rx && d.state == c.state && d.tx.va == c.tx.va
            && Speaks(c, d) && (Stuck(c) ==> Stuck(d))
  {
    var open := c.(flow := c.flow.(peerChoked := false));
    PumpTransmits(open, now);
    PumpFills(open, now);
    PumpKeepsVa(open, now);
  }

  /** Every data or status datagram says where the peer is and whether it is choked, and both are taken. */
  lemma StatusIsTaken(c: Circuit, p: Packet, now: int)
    requires c.state == Connected && Stuck(c) && (p.opcode == Information || p.opcode == InformationAcknowledge)
    ensures var d := OnPacket(c, p, now);
            && d.state == Connected && d.tx.va == p.rxSequence && d.flow.peerChoked == p.choke
            && Stuck(d) && Speaks(c, d)
  {
    if p.opcode == Information {
      InformationIsTaken(c, p, now);
    } else {
      AcknowledgeIsTaken(c, p, now);
    }
  }

  lemma InformationIsTaken(c: Circuit, p: Packet, now: int)
    requires c.state == Connected && Stuck(c)
    ensures var d := OnInformation(c, p, now);
            && d.state == Connected && d.tx.va == p.rxSequence && d.flow.peerChoked == p.choke
            && Stuck(d) && Speaks(c, d)
  {
    AbsorbTransmits(c, p.rxSequence, now);
    var absorbed := AbsorbAck(c, p.rxSequence, now);
    ChokeIsTaken(absorbed, p.choke, now);
    var acked := ApplyPeerChoke(absorbed, p.choke, now);
    SpeaksOn(c, absorbed, acked);
    AnswerSpeaks(acked, p);
    SpeaksOn(c, acked, OnInformation(c, p, now));
  }

  /** Taking the payload, or not, and answering. */
  function Answering(c: Circuit, p: Packet): Circuit {
    if p.txSequence == c.rx.vr then
      var got := Accept(c, p.payload, p.moreFollows);
      Emit(got, InformationAcknowledgePacket(got, false))
    else Emit(c, InformationAcknowledgePacket(c, Mod256After(p.txSequence, c.rx.vr)))
  }

  lemma AnswerSpeaks(c: Circuit, p: Packet)
    ensures var d := Answering(c, p);
            Speaks(c, d) && d.tx == c.tx && d.state == c.state && d.window == c.window
            && d.flow.peerChoked == c.flow.peerChoked
  {
  }

  lemma AcknowledgeIsTaken(c: Circuit, p: Packet, now: int)
    requires c.state == Connected
    ensures var d := OnInformationAcknowledge(c, p, now);
            && d.state == Connected && d.tx.va == p.rxSequence && d.flow.peerChoked == p.choke
            && Stuck(d) && Speaks(c, d)
  {
    ChokeIsTaken(c, p.choke, now);
    var choked := ApplyPeerChoke(c, p.choke, now);
    AbsorbTransmits(choked, p.rxSequence, now);
    var acked := AbsorbAck(choked, p.rxSequence, now);
    SpeaksOn(c, choked, acked);
    var resent := if p.nak then Resend(acked, Some(p.rxSequence), 0, now) else acked;
    ResendTransmits(acked, Some(p.rxSequence), 0, now);
    ResendKeepsVa(acked, Some(p.rxSequence), 0, now);
    SpeaksOn(c, acked, resent);
    PumpTransmits(resent, now);
    PumpFills(resent, now);
    PumpKeepsVa(resent, now);
    SpeaksOn(c, resent, Pump(resent, now));
  }

  lemma {:induction false} ResendKeepsVa(c: Circuit, from: Option<byte>, i: nat, now: int)
    ensures Resend(c, from, i, now).tx.va == c.tx.va
    decreases |c.tx.unacked| - i
  {
    if i < |c.tx.unacked| {
      ResendKeepsVa(ResendOne(c, from, i, now), from, i + 1, now);
    }
  }

  /** A logical frame handed up counts as pending until it is drained, if the end chokes at all. */
  lemma DeliveryCounts(c: Circuit, payload: bytes, moreFollows: bool)
    ensures var d := Accept(c, payload, moreFollows);
            var whole := !moreFollows && |c.rx.reassembly + payload| > 0;
            && d.rx == ReceiveSide((c.rx.vr + 1) % 256, if whole then [] else c.rx.reassembly + payload)
            && d.delivered == c.delivered + (if whole then [c.rx.reassembly + payload] else [])
            && d.flow.pendingDeliveries == c.flow.pendingDeliveries
                                           + (if whole && c.own.options.chokeThreshold > 0 then 1 else 0)
  {
  }

  /** Draining one takes it off; if that lifts the choke, a connected end says so. */
  lemma DrainTells(c: Circuit)
    ensures var d := OnDeliveryDrained(c);
            && d.flow.pendingDeliveries == c.flow.pendingDeliveries - (if c.flow.pendingDeliveries > 0 then 1 else 0)
            && (c.flow.localChoked && !d.flow.localChoked && c.state == Connected ==>
                  |d.outbox| == |c.outbox| + 1 && LastSent(d).opcode == InformationAcknowledge
                  && !LastSent(d).choke && !LastSent(d).nak && LastSent(d).rxSequence == c.rx.vr)
            && (c.flow.localChoked == d.flow.localChoked || c.state != Connected ==> d.outbox == c.outbox)
  {
  }

  // ---- Timers ----------------------------------------------------------------------------------------------

  /** Asking starts the timer anew. */
  lemma AskingArms(c: Circuit, now: int)
    requires c.state == Disconnected || c.state == Connected
    ensures var d := if c.state == Disconnected then CircuitSpec.Connect(c, now) else CircuitSpec.Disconnect(c, now);
            d.timer == ControlTimer(now + c.own.options.retransmitTimeoutMs, true, 0)
  {
  }

  /** The control timer has run out. */
  predicate ControlDue(c: Circuit, now: int) {
    c.timer.armed && now >= c.timer.deadline
  }

  /** The oldest frame in flight has gone unacknowledged for the timeout. */
  predicate DataDue(c: Circuit, now: int) {
    c.state == Connected && c.tx.unacked != []
    && now - c.tx.unacked[0].sentAt >= c.own.options.retransmitTimeoutMs
  }

  /** With neither due a tick does nothing. */
  lemma EarlyTickIsQuiet(c: Circuit, now: int)
    requires !ControlDue(c, now) && !DataDue(c, now)
    ensures CircuitSpec.Tick(c, now) == c
  {
  }

  /** What an end that waits for an answer keeps asking. */
  function Question(c: Circuit): Opcode
    requires c.state == Connecting || c.state == Disconnecting
  {
    if c.state == Connecting then ConnectRequest else DisconnectRequest
  }

  predicate Asking(c: Circuit) {
    (c.state == Connecting || c.state == Disconnecting) && c.timer.armed
  }

  /** A due tick asks again and waits as long again, or when it has asked often enough gives up. */
  lemma DueTickAsksAgain(c: Circuit, now: int)
    requires Asking(c) && ControlDue(c, now)
    ensures var d := CircuitSpec.Tick(c, now);
            if c.timer.retries < c.own.options.maxRetries then
              d.state == c.state && |d.outbox| == |c.outbox| + 1 && d.events == c.events
              && LastSent(d).opcode == Question(c) && Speaks(c, d)
              && d.timer == ControlTimer(now + c.own.options.retransmitTimeoutMs, true, c.timer.retries + 1)
            else
              d.state == Disconnected && d.outbox == c.outbox && d.events == c.events + [ClosedEvent(Timeout)]
              && !d.timer.armed
  {
  }

  function TickAll(c: Circuit, times: seq<int>): Circuit {
    if times == [] then c else CircuitSpec.Tick(TickAll(c, times[..|times| - 1]), times[|times| - 1])
  }

  /** Each of the ticks comes when the control timer has run out. */
  predicate EachDue(c: Circuit, times: seq<int>) {
    forall i :: 0 <= i < |times| ==> ControlDue(TickAll(c, times[..i]), times[i])
  }

  lemma FirstDue(c: Circuit, times: seq<int>, n: nat)
    requires EachDue(c, times) && n <= |times|
    ensures EachDue(c, times[..n])
  {
    assert forall i :: 0 <= i < n ==> times[..n][..i] == times[..i];
  }

  lemma {:induction false} AsksUntil(c: Circuit, times: seq<int>)
    requires Asking(c) && EachDue(c, times) && c.timer.retries + |times| <= c.own.options.maxRetries
    ensures var d := TickAll(c, times);
            && d.own == c.own && d.state == c.state && d.timer.armed && d.timer.retries == c.timer.retries + |times|
            && |d.outbox| == |c.outbox| + |times| && d.events == c.events
            && forall i :: |c.outbox| <= i < |d.outbox| ==> d.outbox[i].opcode == Question(c)
    decreases |times|
  {
    if times != [] {
      var n := |times| - 1;
      FirstDue(c, times, n);
      AsksUntil(c, times[..n]);
      DueTickAsksAgain(TickAll(c, times[..n]), times[n]);
    }
  }

  /** An end that is never answered asks as often as it may retry, and closes at the next time it is due. */
  lemma UnansweredGivesUp(c: Circuit, times: seq<int>)
    requires Asking(c) && EachDue(c, times) && times != []
    requires c.timer.retries + |times| == c.own.options.maxRetries + 1
    ensures var d := TickAll(c, times);
            && d.state == Disconnected && d.events == c.events + [ClosedEvent(Timeout)]
            && |d.outbox| == |c.outbox| + |times| - 1
    ensures forall n :: 0 <= n < |times| ==> TickAll(c, times[..n]).state == c.state
  {
    forall n | 0 <= n < |times|
      ensures TickAll(c, times[..n]).state == c.state
    {
      StillAsks(c, times, n);
    }
    var last := |times| - 1;
    StillAsks(c, times, last);
    DueTickAsksAgain(TickAll(c, times[..last]), times[last]);
  }

  lemma StillAsks(c: Circuit, times: seq<int>, n: nat)
    requires Asking(c) && EachDue(c, times) && n <= |times| && c.timer.retries + n <= c.own.options.maxRetries
    ensures var d := TickAll(c, times[..n]);
            && d.own == c.own && d.state == c.state && d.timer.armed && d.timer.retries == c.timer.retries + n
            && |d.outbox| == |c.outbox| + n && d.events == c.events
  {
    FirstDue(c, times, n);
    AsksUntil(c, times[..n]);
  }

  /** All that `d` has in flight is what `c` had, stamped anew and with one more retry. */
  predicate Restamped(c: Circuit, d: Circuit, lo: nat, now: int) {
    |d.tx.unacked| == |c.tx.unacked|
    && (forall i :: lo <= i < |c.tx.unacked| ==>
          d.tx.unacked[i] == c.tx.unacked[i].(sentAt := now, retries := c.tx.unacked[i].retries + 1))
    && (forall i :: 0 <= i < lo && i < |c.tx.unacked| ==> d.tx.unacked[i] == c.tx.unacked[i])
  }

  /** The datagrams after the first `n` repeat the frames of `c` in flight from `lo` on, in order. */
  predicate Repeats(box: seq<Packet>, n: nat, c: Circuit, lo: nat) {
    |box| - n == |c.tx.unacked| - lo
    && forall i :: lo <= i < |c.tx.unacked| ==> RepeatsAt(box, n + i - lo, c.tx.unacked[i])
  }

  predicate RepeatsAt(box: seq<Packet>, k: int, u: Unacked) {
    0 <= k < |box| && box[k].opcode == Information && box[k].txSequence == u.sequence && box[k].payload == u.payload
    && box[k].moreFollows == u.moreFollows
  }

  lemma {:induction false} ResendRepeats(c: Circuit, lo: nat, now: int)
    requires lo <= |c.tx.unacked|
    ensures var d := Resend(c, None, lo, now);
            Restamped(c, d, lo, now) && Repeats(d.outbox, |c.outbox|, c, lo) && c.outbox <= d.outbox
    decreases |c.tx.unacked| - lo
  {
    if lo < |c.tx.unacked| {
      OneIsResent(c, None, lo, now);
      var one, d := ResendOne(c, None, lo, now), Resend(c, None, lo, now);
      ResendRepeats(one, lo + 1, now);
      assert d.outbox[|c.outbox|] == one.outbox[|c.outbox|];
      forall i | lo <= i < |c.tx.unacked| ensures RepeatsAt(d.outbox, |c.outbox| + i - lo, c.tx.unacked[i]) {
        assert i > lo ==> RepeatsAt(d.outbox, |one.outbox| + i - (lo + 1), one.tx.unacked[i]);
      }
    }
  }

  /** A due tick sends all that is in flight again, in order, or when the oldest has been sent often enough gives up. */
  lemma DueTickResends(c: Circuit, now: int)
    requires DataDue(c, now) && !c.timer.armed
    ensures var d := CircuitSpec.Tick(c, now);
            if c.tx.unacked[0].retries < c.own.options.maxRetries then
              d.state == Connected && d.events == c.events && d.timer == c.timer
              && Restamped(c, d, 0, now) && Repeats(d.outbox, |c.outbox|, c, 0)
            else
              Cleared(d) && d.outbox == c.outbox && d.events == c.events + [ClosedEvent(Timeout)]
  {
    ResendRepeats(c, 0, now);
    ResendOnlySends(c, None, 0, now);
    ResendKeepsTimer(c, 0, now);
  }

  lemma {:induction false} ResendKeepsTimer(c: Circuit, i: nat, now: int)
    ensures Resend(c, None, i, now).timer == c.timer && Resend(c, None, i, now).own == c.own
    decreases |c.tx.unacked| - i
  {
    if i < |c.tx.unacked| {
      ResendKeepsTimer(ResendOne(c, None, i, now), i + 1, now);
    }
  }

  /** Each of the ticks comes when the oldest frame in flight has timed out. */
  predicate EachDataDue(c: Circuit, times: seq<int>) {
    forall i :: 0 <= i < |times| ==> DataDue(TickAll(c, times[..i]), times[i])
  }

  lemma FirstDataDue(c: Circuit, times: seq<int>, n: nat)
    requires EachDataDue(c, times) && n <= |times|
    ensures EachDataDue(c, times[..n])
  {
    assert forall i :: 0 <= i < n ==> times[..n][..i] == times[..i];
  }

  /** `d` is `c` after `n` rounds of resends. */
  predicate AfterRounds(c: Circuit, d: Circuit, n: nat) {
    && d.own == c.own && d.state == Connected && !d.timer.armed && d.events == c.events
    && |d.tx.unacked| == |c.tx.unacked| > 0 && d.tx.unacked[0].retries == c.tx.unacked[0].retries + n
  }

  lemma OneMoreRound(c: Circuit, d: Circuit, n: nat, now: int)
    requires AfterRounds(c, d, n) && DataDue(d, now) && d.tx.unacked[0].retries < d.own.options.maxRetries
    ensures AfterRounds(c, CircuitSpec.Tick(d, now), n + 1)
  {
    DueTickResends(d, now);
    ResendKeepsTimer(d, 0, now);
  }

  lemma {:induction false} ResendsUntil(c: Circuit, times: seq<int>)
    requires c.state == Connected && !c.timer.armed && c.tx.unacked != [] && EachDataDue(c, times)
    requires c.tx.unacked[0].retries + |times| <= c.own.options.maxRetries
    ensures AfterRounds(c, TickAll(c, times), |times|)
    decreases |times|
  {
    if times != [] {
      var n := |times| - 1;
      FirstDataDue(c, times, n);
      ResendsUntil(c, times[..n]);
      OneMoreRound(c, TickAll(c, times[..n]), n, times[n]);
    }
  }

  /** An end whose frames are never acknowledged stays up for as many resends as it may make, and then closes. */
  lemma UnacknowledgedGivesUp(c: Circuit, times: seq<int>)
    requires c.state == Connected && !c.timer.armed && c.tx.unacked != [] && EachDataDue(c, times) && times != []
    requires c.tx.unacked[0].retries + |times| == c.own.options.maxRetries + 1
    ensures var d := TickAll(c, times); Cleared(d) && d.events == c.events + [ClosedEvent(Timeout)]
    ensures forall n :: 0 <= n < |times| ==> AfterRounds(c, TickAll(c, times[..n]), n)
  {
    forall n | 0 <= n < |times| ensures AfterRounds(c, TickAll(c, times[..n]), n) {
      FirstDataDue(c, times, n);
      ResendsUntil(c, times[..n]);
    }
    var last := |times| - 1;
    DueTickResends(TickAll(c, times[..last]), times[last]);
  }
}
