/**
 * What a gap in the sequence sets off: the receiver reports it, and only it, with a NAK; the NAK alone, with no timer,
 * makes the sender send again all it has in flight; and that brings the receiver up to date.
 */
module CircuitGap {
  import opened Common
  import opened CircuitSpec
  import opened CircuitPair
  import opened CircuitInvariant
  import opened CircuitSafety
  import opened CircuitRecovery

  // ---- The receiver's answer -------------------------------------------------------------------------------

  /** The datagram `c` handed to the network last. */
  function LastSent(c: Circuit): Packet
    requires c.outbox != []
  {
    c.outbox[|c.outbox| - 1]
  }

  /**
   * Out of sequence nothing is taken, and the answer asks for the sequence expected: as a NAK when the frame is up to
   * 128 ahead of it, plainly when it is behind.
   */
  lemma GapIsReported(c: Circuit, p: Packet, now: int)
    requires c.state == Connected && p.txSequence != c.rx.vr
    ensures var d := OnInformation(c, p, now);
            && d.rx == c.rx && d.delivered == c.delivered && d.outbox != []
            && LastSent(d).opcode == InformationAcknowledge && LastSent(d).rxSequence == c.rx.vr
            && LastSent(d).choke == d.flow.localChoked
            && (LastSent(d).nak <==> 1 <= (p.txSequence - c.rx.vr) % 256 <= 128)
  {
    AbsorbOnlySends(c, p.rxSequence, now);
    PeerChokeOnlySends(AbsorbAck(c, p.rxSequence, now), p.choke, now);
  }

  /** In sequence V(r) moves on and the answer acknowledges that, never as a NAK. */
  lemma InSequenceIsAcknowledged(c: Circuit, p: Packet, now: int)
    requires c.state == Connected && p.txSequence == c.rx.vr
    ensures var d := OnInformation(c, p, now);
            && d.rx.vr == (c.rx.vr + 1) % 256 && d.outbox != []
            && LastSent(d).opcode == InformationAcknowledge && LastSent(d).rxSequence == d.rx.vr
            && LastSent(d).choke == d.flow.localChoked && !LastSent(d).nak
  {
    AbsorbOnlySends(c, p.rxSequence, now);
    PeerChokeOnlySends(AbsorbAck(c, p.rxSequence, now), p.choke, now);
  }

  lemma AheadIff(k: nat, g: Track)
    requires CountsOk(g) && k < g.sent && g.received <= k + REACH
    ensures 1 <= (k % MODULUS - g.received % MODULUS) % 256 <= 128 <==> k > g.received
  {
    var q := g.received / MODULUS - k / MODULUS;
    Turns(k - g.received, q);
    assert k % MODULUS - g.received % MODULUS == k - g.received + q * MODULUS;
    if k < g.received {
      Turns(k - g.received, 1);
    }
  }

  lemma {:induction false} Turns(n: int, q: int)
    ensures (n + q * MODULUS) % MODULUS == n % MODULUS
    decreases if q < 0 then -q else q
  {
    if q > 0 {
      Turns(n, q - 1);
      assert n + q * MODULUS == (n + (q - 1) * MODULUS) + MODULUS;
    } else if q < 0 {
      Turns(n, q + 1);
      assert n + (q + 1) * MODULUS == (n + q * MODULUS) + MODULUS;
    }
  }

  /** In a pair as every run leaves it, a NAK answers exactly the frames that are ahead of what has been taken. */
  lemma NakIffAhead(x: End, y: End, g: Track, h: Track, p: Packet, k: nat, a: nat, now: int)
    requires Inv(x, y, g, h) && Taken(y, g, h, p, k, a) && p.opcode == Information && x.c.state == Connected
    ensures var d := OnInformation(x.c, p, now);
            && d.outbox != [] && (LastSent(d).nak <==> k > h.received)
            && (d.rx.vr != x.c.rx.vr <==> k == h.received)
  {
    ExpectedIsNext(k, h);
    if k == h.received {
      InSequenceIsAcknowledged(x.c, p, now);
    } else {
      GapIsReported(x.c, p, now);
      AheadIff(k, h);
    }
  }

  // ---- The sender's response -------------------------------------------------------------------------------

  /** Transmitting goes on until the queue is empty or the window full. */
  lemma {:induction false} FillWindowFills(c: Circuit, now: int)
    ensures var d := FillWindow(c, now); d.tx.queue == [] || |d.tx.unacked| >= d.window
    ensures FillWindow(c, now).state == c.state && FillWindow(c, now).flow == c.flow
    ensures |FillWindow(c, now).tx.unacked| >= |c.tx.unacked|
    decreases |c.tx.queue|
  {
    if c.tx.queue != [] && |c.tx.unacked| < c.window {
      FillWindowFills(SendNext(c, now), now);
    }
  }

  /** Nothing more can be transmitted as things are. */
  predicate Stuck(c: Circuit) {
    !MayPump(c) || c.tx.queue == [] || |c.tx.unacked| >= c.window
  }

  lemma PumpFills(c: Circuit, now: int)
    ensures Stuck(Pump(c, now)) && (Stuck(c) ==> Pump(c, now) == c)
    ensures |Pump(c, now).tx.unacked| >= |c.tx.unacked|
  {
    FillWindowFills(c, now);
  }

  /** A resend changes none of what decides whether more may go out. */
  lemma {:induction false} ResendStuck(c: Circuit, from: Option<byte>, i: nat, now: int)
    requires i <= |c.tx.unacked|
    ensures Stuck(Resend(c, from, i, now)) == Stuck(c)
    decreases |c.tx.unacked| - i
  {
    if i < |c.tx.unacked| {
      ResendStuck(ResendOne(c, from, i, now), from, i + 1, now);
    }
  }

  /** A resend from the first sequence in flight on takes everything in flight. */
  lemma {:induction false} ResendTakesAll(c: Circuit, from: Option<byte>, i: nat, now: int)
    requires i <= |c.tx.unacked| && forall j :: i <= j < |c.tx.unacked| ==> Resends(c.tx.unacked[j], from)
    ensures Resend(c, from, i, now) == Resend(c, None, i, now)
    decreases |c.tx.unacked| - i
  {
    if i < |c.tx.unacked| {
      ResendTakesAll(ResendOne(c, from, i, now), from, i + 1, now);
    }
  }

  lemma AllFromBase(c: Circuit, g: Track, j: nat)
    requires CountsOk(g) && SendingOk(c.tx, c.window, g) && j < |c.tx.unacked|
    ensures Resends(c.tx.unacked[j], Some(g.base % MODULUS))
  {
    assert HoldsAt(c.tx.unacked, g.fs, g.base, j);
    Shifts(g.base, j);
  }

  /** The sender once a NAK has acknowledged what it acknowledges, before it sends the rest again. */
  function Acknowledged(c: Circuit, q: Packet, now: int): Circuit {
    AbsorbAck(ApplyPeerChoke(c, q.choke, now), q.rxSequence, now)
  }

  /** A NAK to an end with frames in flight makes it send all that it does not acknowledge again, in order. */
  lemma NakResends(x: End, y: End, g: Track, h: Track, q: Packet, k: nat, a: nat, now: int)
    returns (g': Track, h': Track)
    requires Inv(x, y, g, h) && Taken(y, g, h, q, k, a) && x.c.state == Connected && x.c.tx.unacked != []
    requires q.opcode == InformationAcknowledge && q.nak
    ensures var c := Acknowledged(x.c, q, now);
            OnInformationAcknowledge(x.c, q, now) == Resend(c, None, 0, now) && c.state == Connected
            && Inv(With(x, c), y, g', h') && g'.base == a && g'.fs == g.fs && g'.received == g.received
  {
    PumpStays(x, q, now);
    var x1 := With(x, ApplyPeerChoke(x.c, q.choke, now));
    StillInFlight(x.c, q.choke, now);
    g', h' := PeerChokeKeeps(x, y, g, h, q.choke, now);
    g', h' := AbsorbAckKeeps(x1, y, g', h', a, now);
    var c := Acknowledged(x.c, q, now);
    forall j | 0 <= j < |c.tx.unacked| ensures Resends(c.tx.unacked[j], Some(q.rxSequence)) {
      AllFromBase(c, g', j);
    }
    ResendTakesAll(c, Some(q.rxSequence), 0, now);
    AbsorbFills(x1.c, q.rxSequence, now);
    ResendStuck(c, None, 0, now);
    PumpFills(Resend(c, None, 0, now), now);
  }

  lemma StillInFlight(c: Circuit, choke: bool, now: int)
    requires c.tx.unacked != []
    ensures ApplyPeerChoke(c, choke, now).tx.unacked != []
  {
    PumpFills(c.(flow := c.flow.(peerChoked := false)), now);
  }

  lemma AbsorbFills(c: Circuit, expected: byte, now: int)
    requires c.tx.unacked != []
    ensures Stuck(AbsorbAck(c, expected, now))
  {
    PumpFills(c.(tx := c.tx.(unacked := Unacknowledged(c.tx.unacked, expected), va := expected)), now);
  }

  // ---- Both together ---------------------------------------------------------------------------------------

  /** After a NAK, the channel ends with everything from what it acknowledges to what has been transmitted, in order. */
  lemma NakSweeps(x: End, y: End, g: Track, h: Track, q: Packet, k: nat, n: nat, now: int)
    returns (g': Track, h': Track)
    requires Inv(x, y, g, h) && Taken(y, g, h, q, k, n) && x.c.state == Connected && x.c.tx.unacked != []
    requires q.opcode == InformationAcknowledge && q.nak
    ensures var x' := With(x, OnInformationAcknowledge(x.c, q, now));
            && Inv(x', y, g', h') && x'.c.state == Connected
            && Sweeps(x'.c.outbox, g'.frames, n, g'.sent) && n <= g'.received && g'.fs == g.fs
  {
    var g1, h1 := NakResends(x, y, g, h, q, k, n, now);
    var x1 := With(x, Acknowledged(x.c, q, now));
    g', h' := ResendSweeps(x1, y, g1, h1, now);
  }

  lemma ResendSweeps(x: End, y: End, g: Track, h: Track, now: int) returns (g': Track, h': Track)
    requires Inv(x, y, g, h) && x.c.state == Connected
    ensures var x' := With(x, Resend(x.c, None, 0, now));
            && Inv(x', y, g', h') && x'.c.state == Connected
            && Sweeps(x'.c.outbox, g'.frames, g.base, g'.sent) && g'.fs == g.fs && g'.received == g.received
  {
    g', h' := ResendKeeps(x, y, g, h, None, 0, now);
    ResendBox(x.c, 0, now);
    ResendOnlySends(x.c, None, 0, now);
    SweepAfterTick(x, With(x, Resend(x.c, None, 0, now)), g, g');
  }

  /** Once x's channel is delivered without loss, y has delivered all that x has transmitted. */
  predicate CatchesUp(x: End, y: End, now: int) {
    var y' := DeliverAll(x, y, now).1;
    && |x.c.tx.queue| <= |Sent(x)| && y'.c.state == Connected
    && y'.c.delivered == Assemble(EMPTY, Sent(x)[..|Sent(x)| - |x.c.tx.queue|]).done
    && (x.c.tx.queue == [] ==> y'.c.delivered == x.accepted)
  }

  lemma SweptIsDelivered(x: End, y: End, g: Track, h: Track, lo: nat, now: int)
    requires Inv(x, y, g, h) && x.c.state == Connected && y.c.state == Connected && g.fs == Sent(x)
    requires Sweeps(x.c.outbox, g.frames, lo, g.sent) && lo <= g.received
    ensures CatchesUp(x, y, now)
  {
    var g', h' := SweepDelivers(x, y, g, h, lo, now);
    AllTransmitted(x, DeliverAll(x, y, now).1, g, g');
  }

  lemma NakCatchesUp(x: End, y: End, g: Track, h: Track, x1: End, y1: End, now: int)
    requires Inv(x, y, g, h) && g.fs == Sent(x)
    requires x.c.state == Connected && y.c.state == Connected && x.c.tx.unacked != []
    requires y.c.outbox != [] && y.c.outbox[0].opcode == InformationAcknowledge && y.c.outbox[0].nak
    requires (x1, y1) == Act(x, y, Deliver(true, now))
    ensures CatchesUp(x1, y1, now)
  {
    var g1, h1, k, n := TakeKeeps(x, y, g, h);
    var g2, h2 := NakSweeps(x, y1, g1, h1, y.c.outbox[0], k, n, now);
    OwnStays(x, y, now);
    SweptIsDelivered(x1, y1, g2, h2, n, now);
  }

  /**
   * Recovery without a timer: in any reachable state with both ends connected, when a NAK reaches an end with frames in
   * flight, a loss-free delivery of its channel from then on brings the other end everything it has transmitted; with
   * nothing queued, that is everything it accepted.
   */
  lemma NakRoundRecovers(a: Identity, b: Identity, acts: seq<Action>, x: End, y: End, x1: End, y1: End, now: int)
    requires Facing(Run(Start(a, b), acts), x, y)
    requires x.c.state == Connected && y.c.state == Connected && x.c.tx.unacked != []
    requires y.c.outbox != [] && y.c.outbox[0].opcode == InformationAcknowledge && y.c.outbox[0].nak
    requires (x1, y1) == Act(x, y, Deliver(true, now))
    ensures CatchesUp(x1, y1, now)
  {
    var g, h := FacingInv(a, b, acts, x, y);
    NakCatchesUp(x, y, g, h, x1, y1, now);
  }

  lemma OwnStays(x: End, y: End, now: int)
    ensures Act(x, y, Deliver(true, now)).0.c.own == x.c.own
  {
    ActAccepts(x, y, Deliver(true, now));
  }
}
