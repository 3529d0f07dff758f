/**
 * The circuit pair keeps its invariant over every action, and what follows for every run.
 */
module CircuitSafety {
  import opened Common
  import opened CircuitSpec
  import opened CircuitPair
  import opened CircuitInvariant

  // ---- The invariant of the pair ---------------------------------------------------------------------------

  /** No data has been accepted or taken at this end yet. */
  predicate Unborn(x: End) {
    !x.started || x.c.state == Connecting
  }

  /** An accepting Connect Acknowledge carries a usable window; only a closing end asks to disconnect. */
  predicate OfferOk(p: Packet, open: bool) {
    && (p.opcode == ConnectAcknowledge && !p.choke ==> AcceptedWindow(p.payload).Some?)
    && (open ==> p.opcode != DisconnectRequest)
  }

  predicate OfferAt(box: seq<Packet>, open: bool, i: nat) {
    i < |box| && OfferOk(box[i], open)
  }

  predicate OffersOk(box: seq<Packet>, open: bool) {
    forall i {:trigger OfferAt(box, open, i)} :: 0 <= i < |box| ==> OfferAt(box, open, i)
  }

  lemma OffersAppend(box: seq<Packet>, open: bool, p: Packet)
    requires OffersOk(box, open) && OfferOk(p, open)
    ensures OffersOk(box + [p], open)
  {
    var box' := box + [p];
    forall i | 0 <= i < |box'| ensures OfferAt(box', open, i) {
      assert i < |box| ==> OfferAt(box, open, i);
    }
  }

  lemma OffersClose(box: seq<Packet>, open: bool)
    requires OffersOk(box, open)
    ensures OffersOk(box, false)
  {
    forall i | 0 <= i < |box| ensures OfferAt(box, false, i) {
      assert OfferAt(box, open, i);
    }
  }

  lemma OffersRemove(box: seq<Packet>, open: bool, n: nat)
    requires OffersOk(box, open) && n < |box|
    ensures OffersOk(RemoveAt(box, n), open)
  {
    var box' := RemoveAt(box, n);
    forall i | 0 <= i < |box'| ensures OfferAt(box', open, i) {
      assert OfferAt(box, open, Before(i, n));
    }
  }

  /** The end has not begun to close. */
  predicate Open(x: End) {
    Unborn(x) || x.c.state == Connected
  }

  /** The direction from `x` to `y`. */
  predicate Flow(x: End, y: End, g: Track) {
    && CountsOk(g)
    && (x.c.state == Connected ==> SendingOk(x.c.tx, x.c.window, g))
    && ReceivingOk(y.c.rx, y.c.delivered, y.c.state == Connected, g)
    && FramesOk(x.c.outbox, g)
    && AcksOk(y.c.outbox, g)
  }

  /** One end by itself: `g` tracks what it sends, `h` what it receives. */
  predicate Life(x: End, g: Track, h: Track) {
    && (forall i :: 0 <= i < |x.accepted| ==> |x.accepted[i]| > 0)
    && (Unborn(x) ==> x.accepted == [] && g.fs == [] && x.c.tx == SendSide(0, 0, [], []) && h.received == 0
                      && x.c.rx.reassembly == [])
    && (!x.started ==> x.c.state == Disconnected)
    && (x.c.timer.armed ==> x.c.state == Connecting || x.c.state == Disconnecting)
    && OffersOk(x.c.outbox, Open(x))
  }

  predicate Inv(x: End, y: End, g: Track, h: Track) {
    Flow(x, y, g) && Flow(y, x, h) && Life(x, g, h) && Life(y, h, g)
  }

  // ---- Elementary steps at one end -------------------------------------------------------------------------

  /** `x` with its circuit replaced. */
  function With(x: End, c: Circuit): End {
    x.(c := c)
  }

  /** What x's own steps leave alone in the tracks: its peer's progress, and the peer's channel. */
  predicate Local(g: Track, h: Track, g': Track, h': Track) {
    && g'.fs == g.fs && g'.received == g.received && g'.history == g.history && g'.acks == g.acks
    && h'.fs == h.fs && h'.base == h.base && h'.sent == h.sent && h'.frames == h.frames
  }

  predicate SameSent(g: Track, h: Track, g': Track, h': Track) {
    g'.fs == g.fs && h'.fs == h.fs
  }

  predicate MayEmit(x: End, g: Track, h: Track, p: Packet, k: nat) {
    && (p.opcode == Information ==> x.c.state == Connected && g.base <= k && IsFrame(p, g.fs, g.sent, k))
    && (CarriesAck(p) ==> p.rxSequence == h.received % MODULUS)
    && OfferOk(p, Open(x))
  }

  /** `x` with its channel replaced. */
  function Boxed(x: End, box: seq<Packet>): End {
    With(x, x.c.(outbox := box))
  }

  lemma BoxedSends(x: End, y: End, g: Track, box: seq<Packet>, frames: seq<nat>)
    requires Flow(x, y, g) && FramesOk(box, g.(frames := frames))
    ensures Flow(Boxed(x, box), y, g.(frames := frames))
  {
  }

  lemma BoxedReceives(x: End, y: End, h: Track, box: seq<Packet>, acks: seq<nat>)
    requires Flow(y, x, h) && AcksOk(box, h.(acks := acks))
    ensures Flow(y, Boxed(x, box), h.(acks := acks))
  {
  }

  lemma BoxedLives(x: End, g: Track, h: Track, box: seq<Packet>, frames: seq<nat>, acks: seq<nat>)
    requires Life(x, g, h) && OffersOk(box, Open(x))
    ensures Life(Boxed(x, box), g.(frames := frames), h.(acks := acks))
  {
  }

  /** Replacing a channel keeps the invariant when what the new one carries fits the rest. */
  lemma BoxedKeeps(x: End, y: End, g: Track, h: Track, box: seq<Packet>, frames: seq<nat>, acks: seq<nat>)
    requires Inv(x, y, g, h)
    requires FramesOk(box, g.(frames := frames)) && AcksOk(box, h.(acks := acks)) && OffersOk(box, Open(x))
    ensures Inv(Boxed(x, box), y, g.(frames := frames), h.(acks := acks))
  {
    BoxedSends(x, y, g, box, frames);
    BoxedReceives(x, y, h, box, acks);
    BoxedLives(x, g, h, box, frames, acks);
    PeerLives(y, h, g, acks, frames);
  }

  lemma PeerLives(y: End, h: Track, g: Track, acks: seq<nat>, frames: seq<nat>)
    requires Life(y, h, g)
    ensures Life(y, h.(acks := acks), g.(frames := frames))
  {
  }

  lemma EmitKeeps(x: End, y: End, g: Track, h: Track, p: Packet, k: nat) returns (g': Track, h': Track)
    requires Inv(x, y, g, h) && MayEmit(x, g, h, p, k)
    ensures Inv(With(x, Emit(x.c, p)), y, g', h')
    ensures g' == g.(frames := g.frames + [k]) && h' == h.(acks := h.acks + [h.received])
  {
    g', h' := g.(frames := g.frames + [k]), h.(acks := h.acks + [h.received]);
    FramesAppend(x.c.outbox, g, p, k);
    AcksAppend(x.c.outbox, h, p);
    OffersAppend(x.c.outbox, Open(x), p);
    BoxedKeeps(x, y, g, h, x.c.outbox + [p], g'.frames, h'.acks);
  }

  lemma SendNextKeeps(x: End, y: End, g: Track, h: Track, now: int) returns (g': Track, h': Track)
    requires Inv(x, y, g, h)
    requires x.c.state == Connected && x.c.tx.queue != [] && |x.c.tx.unacked| < x.c.window
    ensures Inv(With(x, SendNext(x.c, now)), y, g', h')
    ensures Local(g, h, g', h') && g'.base == g.base && h'.received == h.received
  {
    var f := x.c.tx.queue[0];
    var u := Unacked(x.c.tx.vs, f.bytes, f.moreFollows, now, 0);
    var c := x.c.(tx := SendSide(Next(x.c.tx.vs), x.c.tx.va, x.c.tx.queue[1..], x.c.tx.unacked + [u]));
    var gNext := g.(sent := g.sent + 1);
    SendNextOk(x.c.tx, x.c.window, g, u);
    FramesGrow(x.c.outbox, g, [], g.sent + 1);
    assert g.fs + [] == g.fs;
    assert Inv(With(x, c), y, gNext, h);
    g', h' := EmitKeeps(With(x, c), y, gNext, h, InformationPacket(c, u.sequence, f.bytes, f.moreFollows), g.sent);
  }

  lemma {:induction false} FillWindowKeeps(x: End, y: End, g: Track, h: Track, now: int)
    returns (g': Track, h': Track)
    requires Inv(x, y, g, h) && x.c.state == Connected
    ensures Inv(With(x, FillWindow(x.c, now)), y, g', h')
    ensures Local(g, h, g', h') && g'.base == g.base && h'.received == h.received
    decreases |x.c.tx.queue|
  {
    if x.c.tx.queue != [] && |x.c.tx.unacked| < x.c.window {
      var g1, h1 := SendNextKeeps(x, y, g, h, now);
      g', h' := FillWindowKeeps(With(x, SendNext(x.c, now)), y, g1, h1, now);
    } else {
      g', h' := g, h;
    }
  }

  lemma PumpKeeps(x: End, y: End, g: Track, h: Track, now: int) returns (g': Track, h': Track)
    requires Inv(x, y, g, h)
    ensures Inv(With(x, Pump(x.c, now)), y, g', h')
    ensures Local(g, h, g', h') && g'.base == g.base && h'.received == h.received
  {
    if MayPump(x.c) {
      g', h' := FillWindowKeeps(x, y, g, h, now);
    } else {
      g', h' := g, h;
    }
  }

  lemma AckedKeeps(x: End, y: End, g: Track, h: Track, a: nat)
    requires Inv(x, y, g, h) && x.c.state == Connected
    requires g.base <= a <= g.received && AllNotBelow(g.acks, a)
    ensures var kept := Unacknowledged(x.c.tx.unacked, a % MODULUS);
            Inv(With(x, x.c.(tx := x.c.tx.(unacked := kept, va := a % MODULUS))), y, g.(base := a), h)
    ensures x.c.tx.unacked == [] ==> Unacknowledged(x.c.tx.unacked, a % MODULUS) == []
  {
    AbsorbOk(x.c.tx, x.c.window, g, a);
    AcksRaise(y.c.outbox, g, a);
  }

  lemma AbsorbAckKeeps(x: End, y: End, g: Track, h: Track, a: nat, now: int) returns (g': Track, h': Track)
    requires Inv(x, y, g, h) && x.c.state == Connected
    requires g.base <= a <= g.received && AllNotBelow(g.acks, a)
    ensures Inv(With(x, AbsorbAck(x.c, a % MODULUS, now)), y, g', h')
    ensures Local(g, h, g', h') && g'.base == a && h'.received == h.received
  {
    var c := x.c;
    var kept := Unacknowledged(c.tx.unacked, a % MODULUS);
    var g1 := g.(base := a);
    AckedKeeps(x, y, g, h, a);
    var c1 := c.(tx := c.tx.(unacked := kept, va := a % MODULUS));
    if c.tx.unacked == [] {
      assert AbsorbAck(c, a % MODULUS, now) == c1;
      g', h' := g1, h;
    } else {
      g', h' := PumpKeeps(With(x, c1), y, g1, h, now);
    }
  }

  lemma MarkKeeps(x: End, y: End, g: Track, h: Track, i: nat, u: Unacked)
    requires Inv(x, y, g, h) && x.c.state == Connected && i < |x.c.tx.unacked|
    requires u == x.c.tx.unacked[i].(sentAt := u.sentAt, retries := u.retries)
    ensures Inv(With(x, x.c.(tx := x.c.tx.(unacked := x.c.tx.unacked[i := u]))), y, g, h)
    ensures g.base + i < g.sent && IsFrame(InformationPacket(x.c, u.sequence, u.payload, u.moreFollows), g.fs, g.sent,
                                           g.base + i)
  {
    assert HoldsAt(x.c.tx.unacked, g.fs, g.base, i);
    MarkOk(x.c.tx, x.c.window, g, i, u);
  }

  /** Nothing but the datagrams in flight has changed in the tracks. */
  predicate OnlyEmitted(g: Track, h: Track, g': Track, h': Track) {
    g' == g.(frames := g'.frames) && h' == h.(acks := h'.acks)
  }

  lemma ResendOneKeeps(x: End, y: End, g: Track, h: Track, from: Option<byte>, i: nat, now: int)
    returns (g': Track, h': Track)
    requires Inv(x, y, g, h) && x.c.state == Connected && i < |x.c.tx.unacked|
    ensures Inv(With(x, ResendOne(x.c, from, i, now)), y, g', h')
    ensures OnlyEmitted(g, h, g', h')
    ensures from == None ==> g'.frames == g.frames + [g.base + i]
  {
    var c := x.c;
    var u := c.tx.unacked[i];
    if Resends(u, from) {
      var u1 := u.(sentAt := now, retries := u.retries + 1);
      var c1 := c.(tx := c.tx.(unacked := c.tx.unacked[i := u1]));
      MarkKeeps(x, y, g, h, i, u1);
      g', h' := EmitKeeps(With(x, c1), y, g, h,
                          InformationPacket(c, u.sequence, u.payload, u.moreFollows), g.base + i);
    } else {
      g', h' := g, h;
    }
  }

  /** The positions from `lo` up to but not including `hi`. */
  function Range(lo: nat, hi: nat): (s: seq<nat>)
    requires lo <= hi
    ensures |s| == hi - lo && forall i :: 0 <= i < |s| ==> s[i] == lo + i
    decreases hi - lo
  {
    if lo == hi then [] else [lo] + Range(lo + 1, hi)
  }

  /** The invariant under a seal, so that a step that only passes it on does not look inside. */
  predicate Sealed(x: End, y: End, g: Track, h: Track) {
    forall u: bool {:trigger Seal(u)} :: Seal(u) ==> Inv(x, y, g, h)
  }

  predicate Seal(u: bool) {
    true
  }

  lemma ResendOneSealed(x: End, y: End, g: Track, h: Track, from: Option<byte>, i: nat, now: int)
    returns (x1: End, g': Track, h': Track)
    requires Sealed(x, y, g, h) && x.c.state == Connected && i < |x.c.tx.unacked| == g.sent - g.base
    ensures x1 == With(x, ResendOne(x.c, from, i, now)) && Sealed(x1, y, g', h')
    ensures x1.c.state == Connected && |x1.c.tx.unacked| == |x.c.tx.unacked|
    ensures OnlyEmitted(g, h, g', h')
    ensures from == None ==> g'.frames == g.frames + [g.base + i]
  {
    assert Seal(true);
    x1 := With(x, ResendOne(x.c, from, i, now));
    g', h' := ResendOneKeeps(x, y, g, h, from, i, now);
  }

  lemma {:induction false} ResendSealed(x: End, y: End, g: Track, h: Track, from: Option<byte>, i: nat, now: int)
    returns (x': End, g': Track, h': Track)
    requires Sealed(x, y, g, h) && x.c.state == Connected && i <= |x.c.tx.unacked| == g.sent - g.base
    ensures x' == With(x, Resend(x.c, from, i, now)) && Sealed(x', y, g', h')
    ensures OnlyEmitted(g, h, g', h')
    ensures from == None ==> g'.frames == g.frames + Range(g.base + i, g.sent)
    decreases |x.c.tx.unacked| - i
  {
    if i == |x.c.tx.unacked| {
      x', g', h' := x, g, h;
      ResendEnds(x, from, i, now);
      RangeNone(g.frames, g.sent);
    } else {
      var x1, g1, h1 := ResendOneSealed(x, y, g, h, from, i, now);
      ResendUnfolds(x, from, i, now);
      x', g', h' := ResendSealed(x1, y, g1, h1, from, i + 1, now);
      RangeStep(g.frames, g.base + i, g.sent);
    }
  }

  lemma ResendKeeps(x: End, y: End, g: Track, h: Track, from: Option<byte>, i: nat, now: int)
    returns (g': Track, h': Track)
    requires Inv(x, y, g, h) && x.c.state == Connected && i <= |x.c.tx.unacked|
    ensures Inv(With(x, Resend(x.c, from, i, now)), y, g', h')
    ensures OnlyEmitted(g, h, g', h')
    ensures from == None ==> g.base + i <= g.sent && g'.frames == g.frames + Range(g.base + i, g.sent)
  {
    var x';
    x', g', h' := ResendSealed(x, y, g, h, from, i, now);
    assert Seal(true);
  }

  lemma ResendEnds(x: End, from: Option<byte>, i: nat, now: int)
    requires i == |x.c.tx.unacked|
    ensures With(x, Resend(x.c, from, i, now)) == x
  {
  }

  lemma ResendUnfolds(x: End, from: Option<byte>, i: nat, now: int)
    requires i < |x.c.tx.unacked|
    ensures var x1 := With(x, ResendOne(x.c, from, i, now));
            With(x, Resend(x.c, from, i, now)) == With(x1, Resend(x1.c, from, i + 1, now))
  {
  }

  lemma RangeNone(frames: seq<nat>, hi: nat)
    ensures frames + Range(hi, hi) == frames
  {
  }

  lemma RangeStep(frames: seq<nat>, lo: nat, hi: nat)
    requires lo < hi
    ensures frames + [lo] + Range(lo + 1, hi) == frames + Range(lo, hi)
  {
  }

  lemma AcceptKeeps(x: End, y: End, g: Track, h: Track, p: Packet) returns (h': Track)
    requires Inv(x, y, g, h) && x.c.state == Connected
    requires h.received < h.sent && IsFrame(p, h.fs, h.sent, h.received) && FollowsOk(y.c.outbox, h.frames, h.received)
    ensures |h.history| == h.received + 1 && h' == Advance(h)
    ensures Inv(With(x, Accept(x.c, p.payload, p.moreFollows)), y, g, h')
  {
    h' := Advance(h);
    AcceptOk(x.c, h, p);
    TakeOk(y.c.outbox, h);
    AcksLoosen(x.c.outbox, h);
  }

  // ---- Steps that move no data -----------------------------------------------------------------------------

  /** `c` differs from `d` only in flow control, timers, the peer's slot, or the event log. */
  predicate SameData(c: Circuit, d: Circuit) {
    && c.own == d.own && c.state == d.state && c.window == d.window && c.tx == d.tx && c.rx == d.rx
    && c.outbox == d.outbox && c.delivered == d.delivered
    && (d.timer.armed ==> c.timer.armed || c.state == Connecting || c.state == Disconnecting)
  }

  lemma QuietKeeps(x: End, y: End, g: Track, h: Track, d: Circuit)
    requires Inv(x, y, g, h) && SameData(x.c, d)
    ensures Inv(With(x, d), y, g, h)
  {
  }

  lemma CloseKeeps(x: End, y: End, g: Track, h: Track, reason: CloseReason)
    requires Inv(x, y, g, h) && (x.c.state != Disconnected ==> x.started)
    ensures Inv(With(x, Close(x.c, reason)), y, g, h)
  {
    OffersClose(x.c.outbox, Open(x));
  }

  lemma ControlKeeps(x: End, y: End, g: Track, h: Track, p: Packet) returns (g': Track, h': Track)
    requires Inv(x, y, g, h) && !CarriesAck(p) && OfferOk(p, Open(x))
    ensures Inv(With(x, Emit(x.c, p)), y, g', h')
    ensures Local(g, h, g', h') && h'.received == h.received
  {
    g', h' := EmitKeeps(x, y, g, h, p, 0);
  }

  lemma PeerChokeKeeps(x: End, y: End, g: Track, h: Track, choke: bool, now: int) returns (g': Track, h': Track)
    requires Inv(x, y, g, h)
    ensures Inv(With(x, ApplyPeerChoke(x.c, choke, now)), y, g', h')
    ensures Local(g, h, g', h') && g'.base == g.base && h'.received == h.received
  {
    g', h' := g, h;
    if choke && !x.c.flow.peerChoked {
      QuietKeeps(x, y, g, h, x.c.(flow := x.c.flow.(peerChoked := true)));
    } else if !choke && x.c.flow.peerChoked {
      var c := x.c.(flow := x.c.flow.(peerChoked := false));
      QuietKeeps(x, y, g, h, c);
      g', h' := PumpKeeps(With(x, c), y, g, h, now);
    }
  }

  // ---- Datagrams -------------------------------------------------------------------------------------------

  /** What is known of the datagram `p` just taken off y's channel: its position `k`, its acknowledgement `a`. */
  predicate Taken(y: End, g: Track, h: Track, p: Packet, k: nat, a: nat) {
    && (p.opcode == Information ==>
          IsFrame(p, h.fs, h.sent, k) && h.received <= k + REACH && FollowsOk(y.c.outbox, h.frames, k))
    && (CarriesAck(p) ==> p.rxSequence == a % MODULUS)
    && OfferOk(p, false)
    && g.base <= a <= g.received
    && AllNotBelow(g.acks, a)
  }

  function Popped(y: End): End
    requires y.c.outbox != []
  {
    With(y, y.c.(outbox := y.c.outbox[1..]))
  }

  lemma TakeKeeps(x: End, y: End, g: Track, h: Track) returns (g': Track, h': Track, k: nat, a: nat)
    requires Inv(x, y, g, h) && y.c.outbox != []
    ensures SameSent(g, h, g', h') && g'.received == g.received && h'.received == h.received
    ensures g'.sent == g.sent && h'.sent == h.sent && h'.frames == h.frames[1..]
    ensures k == h.frames[0] && g'.frames == g.frames
    ensures Inv(x, Popped(y), g', h') && Taken(Popped(y), g', h', y.c.outbox[0], k, a)
  {
    k, a := h.frames[0], g.acks[0];
    g', h' := g.(acks := g.acks[1..]), h.(frames := h.frames[1..]);
    FramesPop(y.c.outbox, h);
    AcksPop(y.c.outbox, g);
    OffersRemove(y.c.outbox, Open(y), 0);
    assert RemoveAt(y.c.outbox, 0) == y.c.outbox[1..];
    assert OfferAt(y.c.outbox, Open(y), 0);
    BoxedKeeps(y, x, h, g, y.c.outbox[1..], h'.frames, g'.acks);
  }

  /** How far the receiver is after datagram `p`, which carries position `k` if it carries data. */
  function Progress(x: End, h: Track, p: Packet, k: nat): nat {
    if p.opcode == Information && x.c.state == Connected && k == h.received then k + 1 else h.received
  }

  lemma InformationKeeps(x: End, y: End, g: Track, h: Track, p: Packet, k: nat, a: nat, now: int)
    returns (g': Track, h': Track)
    requires Inv(x, y, g, h) && Taken(y, g, h, p, k, a) && p.opcode == Information
    ensures Inv(With(x, OnInformation(x.c, p, now)), y, g', h')
    ensures Local(g, h, g', h') && h'.received == Progress(x, h, p, k)
  {
    g', h' := g, h;
    if x.c.state == Connected {
      g', h' := AbsorbAckKeeps(x, y, g, h, a, now);
      var x1 := With(x, AbsorbAck(x.c, p.rxSequence, now));
      g', h' := PeerChokeKeeps(x1, y, g', h', p.choke, now);
      var x2 := With(x, ApplyPeerChoke(x1.c, p.choke, now));
      PumpStays(x, p, now);
      ExpectedIsNext(k, h');
      if p.txSequence == x2.c.rx.vr {
        h' := AcceptKeeps(x2, y, g', h', p);
        var x3 := With(x, Accept(x2.c, p.payload, p.moreFollows));
        g', h' := EmitKeeps(x3, y, g', h', InformationAcknowledgePacket(x3.c, false), 0);
      } else {
        g', h' := EmitKeeps(x2, y, g', h',
                            InformationAcknowledgePacket(x2.c, Mod256After(p.txSequence, x2.c.rx.vr)), 0);
      }
    }
  }

  /** Absorbing an acknowledgement and a choke flag leaves a connected end connected. */
  lemma PumpStays(x: End, p: Packet, now: int)
    ensures ApplyPeerChoke(AbsorbAck(x.c, p.rxSequence, now), p.choke, now).state == x.c.state
    ensures AbsorbAck(ApplyPeerChoke(x.c, p.choke, now), p.rxSequence, now).state == x.c.state
    ensures ApplyPeerChoke(x.c, p.choke, now).state == x.c.state
  {
    forall c: Circuit ensures Pump(c, now).state == c.state { FillWindowStays(c, now); }
  }

  lemma {:induction false} FillWindowStays(c: Circuit, now: int)
    ensures FillWindow(c, now).state == c.state
    decreases |c.tx.queue|
  {
    if c.tx.queue != [] && |c.tx.unacked| < c.window {
      FillWindowStays(SendNext(c, now), now);
    }
  }

  lemma InformationAckKeeps(x: End, y: End, g: Track, h: Track, p: Packet, k: nat, a: nat, now: int)
    returns (g': Track, h': Track)
    requires Inv(x, y, g, h) && Taken(y, g, h, p, k, a) && p.opcode == InformationAcknowledge
    ensures Inv(With(x, OnInformationAcknowledge(x.c, p, now)), y, g', h')
    ensures Local(g, h, g', h') && h'.received == h.received
  {
    g', h' := g, h;
    if x.c.state == Connected {
      PumpStays(x, p, now);
      g', h' := PeerChokeKeeps(x, y, g, h, p.choke, now);
      var x1 := With(x, ApplyPeerChoke(x.c, p.choke, now));
      g', h' := AbsorbAckKeeps(x1, y, g', h', a, now);
      var x2 := With(x, AbsorbAck(x1.c, p.rxSequence, now));
      if p.nak {
        g', h' := ResendKeeps(x2, y, g', h', Some(p.rxSequence), 0, now);
        x2 := With(x, Resend(x2.c, Some(p.rxSequence), 0, now));
      }
      g', h' := PumpKeeps(x2, y, g', h', now);
    }
  }

  /** A Connect Acknowledge turns a Connecting end, which has moved no data, into a connected one. */
  lemma ConnectAckKeeps(x: End, y: End, g: Track, h: Track, p: Packet, k: nat, a: nat, now: int)
    returns (g': Track, h': Track)
    requires Inv(x, y, g, h) && Taken(y, g, h, p, k, a) && p.opcode == ConnectAcknowledge
    ensures Inv(With(x, OnConnectAcknowledge(x.c, p, now)), y, g', h')
    ensures Local(g, h, g', h') && h'.received == h.received
  {
    g', h' := g, h;
    if x.c.state == Connecting {
      var known := x.c.(peer := Peer(p.txSequence, p.rxSequence), timer := x.c.timer.(armed := false));
      QuietKeeps(x, y, g, h, known);
      if p.choke {
        CloseKeeps(With(x, known), y, g, h, Refused);
      } else {
        var window := Min(known.window, AcceptedWindow(p.payload).value);
        var up := known.(window := window, state := Connected, events := known.events + [ConnectedEvent]);
        BirthKeeps(With(x, known), y, g, h, up);
        g', h' := PumpKeeps(With(x, up), y, g, h, now);
      }
    }
  }

  /** An end that has moved no data becomes connected with a window of at most REACH. */
  lemma BirthKeeps(x: End, y: End, g: Track, h: Track, up: Circuit)
    requires Inv(x, y, g, h) && Unborn(x)
    requires up.state == Connected && up.window <= REACH && up.own == x.c.own
    requires !up.timer.armed
    requires up.tx == x.c.tx && up.rx == x.c.rx && up.outbox == x.c.outbox && up.delivered == x.c.delivered
    ensures Inv(x.(started := true, c := up), y, g, h)
  {
  }

  lemma LeaveKeeps(x: End, y: End, g: Track, h: Track) returns (g': Track, h': Track)
    requires Inv(x, y, g, h)
    ensures Inv(With(x, OnDisconnectRequest(x.c)), y, g', h')
    ensures Local(g, h, g', h') && h'.received == h.received
  {
    var p := Control(x.c, DisconnectAcknowledge);
    g', h' := ControlKeeps(x, y, g, h, p);
    CloseKeeps(With(x, Emit(x.c, p)), y, g', h', Normal);
  }

  lemma LeftKeeps(x: End, y: End, g: Track, h: Track)
    requires Inv(x, y, g, h)
    ensures Inv(With(x, OnDisconnectAcknowledge(x.c)), y, g, h)
  {
    var quiet := x.c.(timer := x.c.timer.(armed := false));
    QuietKeeps(x, y, g, h, quiet);
    CloseKeeps(With(x, quiet), y, g, h, Normal);
  }

  lemma PacketKeeps(x: End, y: End, g: Track, h: Track, p: Packet, k: nat, a: nat, now: int)
    returns (g': Track, h': Track)
    requires Inv(x, y, g, h) && Taken(y, g, h, p, k, a)
    ensures Inv(With(x, OnPacket(x.c, p, now)), y, g', h')
    ensures Local(g, h, g', h') && h'.received == Progress(x, h, p, k)
  {
    g', h' := g, h;
    match p.opcode {
      case ConnectRequest =>
        if x.c.state == Connected {
          g', h' := ControlKeeps(x, y, g, h, ConnectAcknowledgePacket(x.c, false));
        }
      case ConnectAcknowledge => g', h' := ConnectAckKeeps(x, y, g, h, p, k, a, now);
      case DisconnectRequest =>
        g', h' := LeaveKeeps(x, y, g, h);
      case DisconnectAcknowledge => LeftKeeps(x, y, g, h);
      case Information => g', h' := InformationKeeps(x, y, g, h, p, k, a, now);
      case InformationAcknowledge => g', h' := InformationAckKeeps(x, y, g, h, p, k, a, now);
      case Unknown =>
    }
  }

  lemma InboundKeeps(x: End, y: End, g: Track, h: Track, index: byte, id: byte, proposed: int)
    returns (g': Track, h': Track)
    requires Inv(x, y, g, h) && !x.started
    ensures Inv(x.(started := true, c := AcceptInbound(x.c, index, id, proposed)), y, g', h') && SameSent(g, h, g', h')
  {
    var proposal := if proposed <= 0 then x.c.own.options.windowSize else proposed;
    var up := x.c.(peer := Peer(index, id), state := Connected,
                   window := Clamp(Min(proposal, x.c.own.options.windowSize), 1, 127));
    BirthKeeps(x, y, g, h, up);
    var born := x.(started := true, c := up);
    g', h' := ControlKeeps(born, y, g, h, ConnectAcknowledgePacket(up, false));
    var acked := Emit(up, ConnectAcknowledgePacket(up, false));
    QuietKeeps(With(born, acked), y, g', h', acked.(events := acked.events + [ConnectedEvent]));
  }

  lemma RefusedKeeps(x: End, y: End, g: Track, h: Track, index: byte, id: byte) returns (g': Track, h': Track)
    requires Inv(x, y, g, h) && !x.started
    ensures Inv(x.(started := true, c := RefuseInbound(x.c, index, id)), y, g', h') && SameSent(g, h, g', h')
  {
    var known := x.c.(peer := Peer(index, id));
    QuietKeeps(x, y, g, h, known);
    var p := ConnectAcknowledgePacket(known, true);
    g', h' := ControlKeeps(With(x, known), y, g, h, p);
    OffersClose(Emit(known, p).outbox, true);
  }

  lemma ArriveKeeps(x: End, y: End, g: Track, h: Track, p: Packet, k: nat, a: nat, accept: bool, now: int)
    returns (g': Track, h': Track)
    requires Inv(x, y, g, h) && Taken(y, g, h, p, k, a)
    ensures Inv(Arrive(x, p, accept, now), y, g', h') && SameSent(g, h, g', h')
  {
    if p.opcode == ConnectRequest && !x.started {
      if accept {
        g', h' := InboundKeeps(x, y, g, h, p.index, p.id, ProposedWindow(p));
      } else {
        g', h' := RefusedKeeps(x, y, g, h, p.index, p.id);
      }
    } else {
      g', h' := PacketKeeps(x, y, g, h, p, k, a, now);
    }
  }

  // ---- Actions and runs ------------------------------------------------------------------------------------

  /** The logical frames an action adds to what `x` has accepted. */
  function Accepts(x: End, step: Step): seq<bytes> {
    if step.Send? && x.c.state == Connected && |step.data| > 0 then [step.data] else []
  }

  lemma SendKeeps(x: End, y: End, g: Track, h: Track, data: bytes, now: int) returns (g': Track, h': Track)
    requires Inv(x, y, g, h) && x.c.state == Connected && |data| > 0
    ensures Inv(x.(accepted := x.accepted + [data], c := CircuitSpec.Send(x.c, data, now)), y, g', h')
    ensures g'.fs == g.fs + FragmentsOf(data, FragmentSize(x.c)) && h'.fs == h.fs
  {
    var more := FragmentsOf(data, FragmentSize(x.c));
    var g1 := g.(fs := g.fs + more);
    var x1 := x.(accepted := x.accepted + [data], c := x.c.(tx := x.c.tx.(queue := x.c.tx.queue + more)));
    LongerOk(x.c.tx, x.c.window, g, more);
    FramesGrow(x.c.outbox, g, more, g.sent);
    LongerReceipt(y, g, more);
    assert Inv(x1, y, g1, h);
    g', h' := PumpKeeps(x1, y, g1, h, now);
  }

  lemma LongerOk(tx: SendSide, window: int, g: Track, more: seq<Fragment>)
    requires CountsOk(g) && SendingOk(tx, window, g)
    ensures CountsOk(g.(fs := g.fs + more))
    ensures SendingOk(tx.(queue := tx.queue + more), window, g.(fs := g.fs + more))
  {
    assert (g.fs + more)[g.sent..] == g.fs[g.sent..] + more;
    var fs := g.fs + more;
    forall i | 0 <= i < |tx.unacked| ensures HoldsAt(tx.unacked, fs, g.base, i) {
      assert HoldsAt(tx.unacked, g.fs, g.base, i);
    }
  }

  lemma LongerReceipt(y: End, g: Track, more: seq<Fragment>)
    requires CountsOk(g) && ReceivingOk(y.c.rx, y.c.delivered, y.c.state == Connected, g)
    ensures CountsOk(g.(fs := g.fs + more))
    ensures ReceivingOk(y.c.rx, y.c.delivered, y.c.state == Connected, g.(fs := g.fs + more))
  {
    var fs := g.fs + more;
    forall i | 0 <= i < g.received ensures HistoryAt(fs, g.history, i) {
      assert HistoryAt(g.fs, g.history, i);
    }
  }

  lemma TickKeeps(x: End, y: End, g: Track, h: Track, now: int) returns (g': Track, h': Track)
    requires Inv(x, y, g, h)
    ensures Inv(With(x, CircuitSpec.Tick(x.c, now)), y, g', h') && SameSent(g, h, g', h')
  {
    g', h' := ControlTickKeeps(x, y, g, h, now);
    var x1 := With(x, ControlTick(x.c, now));
    if !ControlGivesUp(x.c, now) && x1.c.state == Connected {
      if x1.c.tx.unacked != [] && now >= x1.c.tx.unacked[0].sentAt + x1.c.own.options.retransmitTimeoutMs {
        if x1.c.tx.unacked[0].retries >= x1.c.own.options.maxRetries {
          CloseKeeps(x1, y, g', h', Timeout);
        } else {
          g', h' := ResendKeeps(x1, y, g', h', None, 0, now);
        }
      }
    }
  }

  lemma ControlTickKeeps(x: End, y: End, g: Track, h: Track, now: int) returns (g': Track, h': Track)
    requires Inv(x, y, g, h)
    ensures Inv(With(x, ControlTick(x.c, now)), y, g', h') && SameSent(g, h, g', h')
  {
    g', h' := g, h;
    if x.c.timer.armed && now >= x.c.timer.deadline {
      if x.c.timer.retries >= x.c.own.options.maxRetries {
        var quiet := x.c.(timer := x.c.timer.(armed := false));
        QuietKeeps(x, y, g, h, quiet);
        CloseKeeps(With(x, quiet), y, g, h, Timeout);
      } else {
        g', h' := RetryKeeps(x, y, g, h, now);
      }
    }
  }

  /** An armed control timer runs out and its datagram goes out again. */
  lemma RetryKeeps(x: End, y: End, g: Track, h: Track, now: int) returns (g': Track, h': Track)
    requires Inv(x, y, g, h) && x.c.timer.armed && now >= x.c.timer.deadline
    requires x.c.timer.retries < x.c.own.options.maxRetries
    ensures Inv(With(x, ControlTick(x.c, now)), y, g', h') && SameSent(g, h, g', h')
  {
    var c := x.c.(timer := x.c.timer.(retries := x.c.timer.retries + 1));
    QuietKeeps(x, y, g, h, c);
    var p := if x.c.state == Connecting then ConnectRequestPacket(c) else Control(c, DisconnectRequest);
    g', h' := ControlKeeps(With(x, c), y, g, h, p);
    var sent := Emit(c, p);
    QuietKeeps(With(x, sent), y, g', h', ArmControlTimer(sent, now));
  }

  lemma ConnectKeeps(x: End, y: End, g: Track, h: Track, now: int) returns (g': Track, h': Track)
    requires Inv(x, y, g, h) && !x.started
    ensures Inv(x.(started := true, c := CircuitSpec.Connect(x.c, now)), y, g', h') && SameSent(g, h, g', h')
  {
    var c := x.c.(state := Connecting, timer := x.c.timer.(retries := 0));
    var x1 := x.(started := true, c := c);
    assert Inv(x1, y, g, h);
    g', h' := ControlKeeps(x1, y, g, h, ConnectRequestPacket(c));
    var c1 := Emit(c, ConnectRequestPacket(c));
    QuietKeeps(With(x1, c1), y, g', h', ArmControlTimer(c1, now));
  }

  lemma DisconnectKeeps(x: End, y: End, g: Track, h: Track, now: int) returns (g': Track, h': Track)
    requires Inv(x, y, g, h)
    ensures Inv(With(x, CircuitSpec.Disconnect(x.c, now)), y, g', h') && SameSent(g, h, g', h')
  {
    g', h' := g, h;
    if x.c.state == Connecting {
      CloseKeeps(x, y, g, h, Normal);
    } else if x.c.state == Connected {
      var c := x.c.(state := Disconnecting, timer := x.c.timer.(retries := 0));
      OffersClose(x.c.outbox, Open(x));
      assert Inv(With(x, c), y, g, h);
      g', h' := ControlKeeps(With(x, c), y, g, h, Control(c, DisconnectRequest));
      var c1 := Emit(c, Control(c, DisconnectRequest));
      QuietKeeps(With(x, c1), y, g', h', ArmControlTimer(c1, now));
    }
  }

  lemma StatusKeeps(x: End, y: End, g: Track, h: Track) returns (g': Track, h': Track)
    requires Inv(x, y, g, h) && x.c.state == Connected
    ensures Inv(With(x, Emit(x.c, InformationAcknowledgePacket(x.c, false))), y, g', h') && SameSent(g, h, g', h')
  {
    var p := InformationAcknowledgePacket(x.c, false);
    assert MayEmit(x, g, h, p, 0);
    g', h' := EmitKeeps(x, y, g, h, p, 0);
  }

  lemma DrainedKeeps(x: End, y: End, g: Track, h: Track) returns (g': Track, h': Track)
    requires Inv(x, y, g, h)
    ensures Inv(With(x, OnDeliveryDrained(x.c)), y, g', h') && SameSent(g, h, g', h')
  {
    g', h' := g, h;
    var c := if x.c.flow.pendingDeliveries > 0
             then x.c.(flow := x.c.flow.(pendingDeliveries := x.c.flow.pendingDeliveries - 1)) else x.c;
    QuietKeeps(x, y, g, h, c);
    g', h' := ReleaseKeeps(With(x, c), y, g, h);
  }

  lemma ReleaseKeeps(x: End, y: End, g: Track, h: Track) returns (g': Track, h': Track)
    requires Inv(x, y, g, h)
    ensures Inv(With(x, MaybeReleaseChoke(x.c)), y, g', h') && SameSent(g, h, g', h')
  {
    g', h' := g, h;
    if x.c.flow.localChoked && x.c.flow.pendingDeliveries < x.c.own.options.chokeThreshold {
      var released := x.c.(flow := x.c.flow.(localChoked := false));
      QuietKeeps(x, y, g, h, released);
      if x.c.state == Connected {
        g', h' := StatusKeeps(With(x, released), y, g, h);
      }
    }
  }

  lemma LoseKeeps(x: End, y: End, g: Track, h: Track, n: nat) returns (g': Track, h': Track)
    requires Inv(x, y, g, h) && n < |x.c.outbox|
    ensures Inv(With(x, x.c.(outbox := RemoveAt(x.c.outbox, n))), y, g', h') && SameSent(g, h, g', h')
  {
    g', h' := g.(frames := RemoveAt(g.frames, n)), h.(acks := RemoveAt(h.acks, n));
    FramesRemove(x.c.outbox, g, n);
    AcksRemove(x.c.outbox, h, n);
    OffersRemove(x.c.outbox, Open(x), n);
    BoxedKeeps(x, y, g, h, RemoveAt(x.c.outbox, n), g'.frames, h'.acks);
  }

  lemma DeliverKeeps(x: End, y: End, g: Track, h: Track, accept: bool, now: int) returns (g': Track, h': Track)
    requires Inv(x, y, g, h) && y.c.outbox != []
    ensures Inv(Arrive(x, y.c.outbox[0], accept, now), Popped(y), g', h') && SameSent(g, h, g', h')
  {
    var g1, h1, k, a := TakeKeeps(x, y, g, h);
    g', h' := ArriveKeeps(x, Popped(y), g1, h1, y.c.outbox[0], k, a, accept, now);
  }

  lemma SendAnyKeeps(x: End, y: End, g: Track, h: Track, data: bytes, now: int) returns (g': Track, h': Track)
    requires Inv(x, y, g, h)
    ensures Inv(Act(x, y, Send(data, now)).0, y, g', h')
    ensures g'.fs == g.fs + Fragments(Accepts(x, Send(data, now)), FragmentSize(x.c)) && h'.fs == h.fs
  {
    if x.c.state == Connected && |data| > 0 {
      g', h' := SendKeeps(x, y, g, h, data, now);
      OneFrame(data, FragmentSize(x.c));
    } else {
      g', h' := g, h;
      assert x.accepted + [] == x.accepted && g.fs + [] == g.fs;
    }
  }

  lemma MoveKeeps(x: End, y: End, g: Track, h: Track, step: Step) returns (g': Track, h': Track)
    requires Inv(x, y, g, h) && !step.Send?
    ensures var (x', y') := Act(x, y, step); Inv(x', y', g', h')
    ensures SameSent(g, h, g', h')
  {
    g', h' := g, h;
    match step {
      case Connect(now) => if !x.started { g', h' := ConnectKeeps(x, y, g, h, now); }
      case Disconnect(now) => g', h' := DisconnectKeeps(x, y, g, h, now);
      case Tick(now) => g', h' := TickKeeps(x, y, g, h, now);
      case Drained => g', h' := DrainedKeeps(x, y, g, h);
      case Deliver(accept, now) => if y.c.outbox != [] { g', h' := DeliverKeeps(x, y, g, h, accept, now); }
      case Lose(n) => if n < |x.c.outbox| { g', h' := LoseKeeps(x, y, g, h, n); }
    }
  }

  /** Every action by either end keeps the invariant; only `send` adds to the accepted fragments. */
  lemma ActKeeps(x: End, y: End, g: Track, h: Track, step: Step) returns (g': Track, h': Track)
    requires Inv(x, y, g, h)
    ensures var (x', y') := Act(x, y, step); Inv(x', y', g', h')
    ensures g'.fs == g.fs + Fragments(Accepts(x, step), FragmentSize(x.c)) && h'.fs == h.fs
  {
    if step.Send? {
      g', h' := SendAnyKeeps(x, y, g, h, step.data, step.now);
    } else {
      g', h' := MoveKeeps(x, y, g, h, step);
      assert g.fs + [] == g.fs;
    }
  }

  lemma OneFrame(data: bytes, size: int)
    requires size >= 1
    ensures Fragments([data], size) == FragmentsOf(data, size)
  {
    assert [data][..0] == [];
  }

  /** An action changes neither end's options, and only a `send` what the acting end has accepted. */
  lemma ActAccepts(x: End, y: End, step: Step)
    ensures var (x', y') := Act(x, y, step);
            && x'.c.own == x.c.own && y'.c.own == y.c.own
            && x'.accepted == x.accepted + Accepts(x, step) && y'.accepted == y.accepted
  {
    match step {
      case Send(data, now) =>
        PumpOwn(x.c.(tx := x.c.tx.(queue := x.c.tx.queue + FragmentsOf(data, FragmentSize(x.c)))), now);
      case Tick(now) => ResendOwn(ControlTick(x.c, now), None, 0, now);
      case Deliver(accept, now) => if y.c.outbox != [] { PacketOwn(x.c, y.c.outbox[0], now); }
      case _ =>
    }
    assert x.accepted + [] == x.accepted;
  }

  lemma {:induction false} FillWindowOwn(c: Circuit, now: int)
    ensures FillWindow(c, now).own == c.own
    decreases |c.tx.queue|
  {
    if c.tx.queue != [] && |c.tx.unacked| < c.window {
      FillWindowOwn(SendNext(c, now), now);
    }
  }

  lemma PumpOwn(c: Circuit, now: int)
    ensures Pump(c, now).own == c.own
  {
    FillWindowOwn(c, now);
  }

  lemma {:induction false} ResendOwn(c: Circuit, from: Option<byte>, i: nat, now: int)
    ensures Resend(c, from, i, now).own == c.own
    decreases |c.tx.unacked| - i
  {
    if i < |c.tx.unacked| {
      ResendOwn(ResendOne(c, from, i, now), from, i + 1, now);
    }
  }

  lemma PacketOwn(c: Circuit, p: Packet, now: int)
    ensures OnPacket(c, p, now).own == c.own
  {
    forall d: Circuit ensures Pump(d, now).own == d.own { PumpOwn(d, now); }
    forall d: Circuit ensures Resend(d, Some(p.rxSequence), 0, now).own == d.own {
      ResendOwn(d, Some(p.rxSequence), 0, now);
    }
  }

  lemma {:induction false} RunKeeps(a: Identity, b: Identity, acts: seq<Action>) returns (g: Track, h: Track)
    ensures var s := Run(Start(a, b), acts);
            Inv(s.a, s.b, g, h) && g.fs == Sent(s.a) && h.fs == Sent(s.b)
  {
    if acts == [] {
      g, h := START, START;
    } else {
      var s := Run(Start(a, b), acts[..|acts| - 1]);
      g, h := RunKeeps(a, b, acts[..|acts| - 1]);
      var step := acts[|acts| - 1].step;
      if acts[|acts| - 1].side == A {
        g, h := ActKeeps(s.a, s.b, g, h, step);
        ActAccepts(s.a, s.b, step);
        FragmentsAppend(s.a.accepted, Accepts(s.a, step), FragmentSize(s.a.c));
      } else {
        h, g := ActKeeps(s.b, s.a, h, g, step);
        ActAccepts(s.b, s.a, step);
        FragmentsAppend(s.b.accepted, Accepts(s.b, step), FragmentSize(s.b.c));
      }
    }
  }

  lemma {:induction false} FragmentsAppend(frames: seq<bytes>, more: seq<bytes>, size: int)
    requires size >= 1
    ensures Fragments(frames + more, size) == Fragments(frames, size) + Fragments(more, size)
  {
    if more == [] {
      FragmentsNone(frames, size);
    } else {
      var init, last := more[..|more| - 1], more[|more| - 1];
      assert more == init + [last];
      FragmentsAppend(frames, init, size);
      FragmentsOneMore(init, last, size);
      FragmentsOneMore(frames + init, last, size);
      assert frames + more == frames + init + [last];
      Associates(Fragments(frames, size), Fragments(init, size), FragmentsOf(last, size));
    }
  }

  lemma Associates<T>(a: seq<T>, b: seq<T>, c: seq<T>)
    ensures a + b + c == a + (b + c)
  {
  }

  lemma FragmentsNone(frames: seq<bytes>, size: int)
    requires size >= 1
    ensures Fragments(frames + [], size) == Fragments(frames, size) + Fragments([], size)
  {
    assert frames + [] == frames;
  }

  lemma FragmentsOneMore(frames: seq<bytes>, last: bytes, size: int)
    requires size >= 1
    ensures Fragments(frames + [last], size) == Fragments(frames, size) + FragmentsOf(last, size)
  {
    assert (frames + [last])[..|frames|] == frames;
  }

  // ---- What every run guarantees ---------------------------------------------------------------------------

  /** `x` is one end of the pair and `y` the other. */
  predicate Facing(s: System, x: End, y: End) {
    (x == s.a && y == s.b) || (x == s.b && y == s.a)
  }

  lemma FacingInv(a: Identity, b: Identity, acts: seq<Action>, x: End, y: End) returns (g: Track, h: Track)
    requires Facing(Run(Start(a, b), acts), x, y)
    ensures Inv(x, y, g, h) && g.fs == Sent(x)
  {
    g, h := RunKeeps(a, b, acts);
    if x != Run(Start(a, b), acts).a || y != Run(Start(a, b), acts).b {
      g, h := h, g;
    }
  }

  /**
   * Safety: whatever is sent, lost, retransmitted, choked or timed out, the logical frames delivered at one end
   * are a prefix of those accepted by `send` at the other.
   */
  lemma DeliveredIsPrefix(a: Identity, b: Identity, acts: seq<Action>, x: End, y: End)
    requires Facing(Run(Start(a, b), acts), x, y)
    ensures y.c.delivered <= x.accepted
  {
    var g, h := FacingInv(a, b, acts, x, y);
    HistoryAssembles(y.c.rx, y.c.delivered, y.c.state == Connected, g, g.received);
    PrefixAssembles(x.accepted, FragmentSize(x.c), g.received);
  }

  /** Acknowledged means delivered: a connected end with nothing queued or in flight has lost nothing. */
  lemma AckedIsDelivered(a: Identity, b: Identity, acts: seq<Action>, x: End, y: End)
    requires Facing(Run(Start(a, b), acts), x, y)
    requires x.c.state == Connected && x.c.tx.queue == [] && x.c.tx.unacked == []
    ensures y.c.delivered == x.accepted
  {
    var g, h := FacingInv(a, b, acts, x, y);
    AllTaken(x, y, g);
  }

  lemma AllTaken(x: End, y: End, g: Track)
    requires Flow(x, y, g) && g.fs == Sent(x) && g.received == |g.fs|
    requires forall i :: 0 <= i < |x.accepted| ==> |x.accepted[i]| > 0
    ensures y.c.delivered == x.accepted
  {
    assert g.fs[..|g.fs|] == g.fs;
    HistoryAssembles(y.c.rx, y.c.delivered, y.c.state == Connected, g, g.received);
    AssembleFragments(x.accepted, FragmentSize(x.c));
  }

  function InFlight(us: seq<Unacked>): (fs: seq<Fragment>)
    ensures |fs| == |us|
    ensures forall i :: 0 <= i < |us| ==> fs[i] == Fragment(us[i].payload, us[i].moreFollows)
  {
    if us == [] then [] else
    InFlight(us[..|us| - 1]) + [Fragment(us[|us| - 1].payload, us[|us| - 1].moreFollows)]
  }

  /** The in-flight list carries the sequences V(a), V(a) + 1, ... V(s) - 1, modulo 256. */
  predicate Consecutive(tx: SendSide) {
    && (forall i :: 0 <= i < |tx.unacked| ==> tx.unacked[i].sequence == (tx.va + i) % MODULUS)
    && tx.vs == (tx.va + |tx.unacked|) % MODULUS
  }

  /**
   * While connected, the in-flight list carries exactly the consecutive sequences V(a)..V(s)-1, no more than the
   * window; and the acknowledged fragments, which the peer has taken, the in-flight ones and the queued ones
   * joined are exactly the bytes `send` accepted.
   */
  lemma WindowIsExact(a: Identity, b: Identity, acts: seq<Action>, x: End, y: End)
    returns (acked: seq<Fragment>)
    requires Facing(Run(Start(a, b), acts), x, y)
    requires x.c.state == Connected
    ensures Consecutive(x.c.tx)
    ensures x.c.tx.unacked == [] || |x.c.tx.unacked| <= x.c.window <= 127
    ensures Join(acked + InFlight(x.c.tx.unacked) + x.c.tx.queue) == Flatten(x.accepted)
    ensures Assemble(EMPTY, acked).done <= y.c.delivered
  {
    var g, h := FacingInv(a, b, acts, x, y);
    acked := g.fs[..g.base];
    WindowOf(x, y, g);
  }

  lemma WindowOf(x: End, y: End, g: Track)
    requires Flow(x, y, g) && g.fs == Sent(x) && x.c.state == Connected
    ensures Join(g.fs[..g.base] + InFlight(x.c.tx.unacked) + x.c.tx.queue) == Flatten(x.accepted)
    ensures Assemble(EMPTY, g.fs[..g.base]).done <= y.c.delivered
    ensures Consecutive(x.c.tx) && (x.c.tx.unacked == [] || |x.c.tx.unacked| <= x.c.window <= 127)
  {
    WindowSequences(x.c.tx, x.c.window, g);
    SplitAtWindow(x.c.tx, x.c.window, g);
    JoinFragments(x.accepted, FragmentSize(x.c));
    TakenCoversAcked(y, g);
  }

  lemma SplitAtWindow(tx: SendSide, window: int, g: Track)
    requires CountsOk(g) && SendingOk(tx, window, g)
    ensures g.fs[..g.base] + InFlight(tx.unacked) + tx.queue == g.fs
  {
    forall i | 0 <= i < |tx.unacked| ensures InFlight(tx.unacked)[i] == g.fs[g.base..g.sent][i] {
      assert HoldsAt(tx.unacked, g.fs, g.base, i);
    }
    assert InFlight(tx.unacked) == g.fs[g.base..g.sent];
    assert g.fs == g.fs[..g.base] + g.fs[g.base..g.sent] + g.fs[g.sent..];
  }

  lemma WindowSequences(tx: SendSide, window: int, g: Track)
    requires CountsOk(g) && SendingOk(tx, window, g)
    ensures Consecutive(tx) && (tx.unacked == [] || |tx.unacked| <= window <= 127)
  {
    forall i | 0 <= i < |tx.unacked| ensures tx.unacked[i].sequence == (tx.va + i) % MODULUS {
      assert HoldsAt(tx.unacked, g.fs, g.base, i);
      Shifts(g.base, i);
    }
    Shifts(g.base, |tx.unacked|);
  }

  lemma Shifts(base: nat, i: nat)
    ensures (base + i) % MODULUS == (base % MODULUS + i) % MODULUS
  {
  }

  lemma TakenCoversAcked(y: End, g: Track)
    requires CountsOk(g) && ReceivingOk(y.c.rx, y.c.delivered, y.c.state == Connected, g)
    ensures Assemble(EMPTY, g.fs[..g.base]).done <= y.c.delivered
  {
    var acked, rest := g.fs[..g.base], g.fs[g.base..g.received];
    assert g.fs[..g.received] == acked + rest;
    HistoryAssembles(y.c.rx, y.c.delivered, y.c.state == Connected, g, g.received);
    AssembleAppend(EMPTY, acked, rest);
    AssembleGrows(Assemble(EMPTY, acked), rest);
  }
}
