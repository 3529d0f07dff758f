/**
 * Connecting a closed circuit again: the call is allowed but keeps V(s), V(r) and the choke of the first life, so the
 * new one works only when these happen to be as a fresh peer expects.
 */
module CircuitReuse {
  import opened Common
  import opened CircuitSpec
  import opened CircuitPair
  import opened CircuitSafety
  import opened CircuitRecovery

  /** A closed circuit connected again, once the peer has accepted. */
  function Reopened(c: Circuit, ack: Packet, now: int): Circuit {
    OnConnectAcknowledge(CircuitSpec.Connect(c, now), ack, now)
  }

  /** What `c` puts on the wire when it is given `data`. */
  function Transmitted(c: Circuit, data: bytes, now: int): seq<Packet> {
    var after := CircuitSpec.Send(c, data, now);
    if |c.outbox| <= |after.outbox| then after.outbox[|c.outbox|..] else []
  }

  /** `f` takes the first of the datagrams `ps` in sequence. */
  predicate TakesFirst(f: Circuit, ps: seq<Packet>, now: int) {
    ps != [] && OnInformation(f, ps[0], now).rx.vr != f.rx.vr
  }

  predicate Cleared(c: Circuit) {
    c.state == Disconnected && c.tx.queue == [] && c.tx.unacked == [] && c.rx.reassembly == []
  }

  /** An end that is closed is cleared of everything it still had to send; one that has not started is closed. */
  predicate ClearWhenClosed(x: End) {
    (x.c.state == Disconnected ==> Cleared(x.c)) && (!x.started ==> x.c.state == Disconnected)
  }

  lemma PacketClears(x: End, p: Packet, now: int)
    requires ClearWhenClosed(x) && (x.started || p.opcode != ConnectRequest)
    ensures ClearWhenClosed(With(x, OnPacket(x.c, p, now)))
  {
    DataLife(x.c, p, now);
    if p.opcode == ConnectAcknowledge && x.c.state == Connecting && !p.choke {
      ReopenedStays(x.c, p, now);
    }
  }

  lemma ReopenedStays(c: Circuit, p: Packet, now: int)
    requires c.state == Connecting && !p.choke
    ensures OnConnectAcknowledge(c, p, now).state == Connected
  {
    var known := c.(peer := Peer(p.txSequence, p.rxSequence), timer := c.timer.(armed := false));
    var accepted := AcceptedWindow(p.payload);
    var window := if accepted.Some? then Min(known.window, accepted.value) else known.window;
    PumpOnlySends(known.(window := window, state := Connected, events := known.events + [ConnectedEvent]), now);
  }

  lemma TickClears(x: End, now: int)
    requires ClearWhenClosed(x)
    ensures ClearWhenClosed(With(x, CircuitSpec.Tick(x.c, now)))
  {
    ResendOnlySends(ControlTick(x.c, now), None, 0, now);
  }

  lemma ActClears(x: End, y: End, step: Step)
    requires ClearWhenClosed(x) && ClearWhenClosed(y)
    ensures ClearWhenClosed(Act(x, y, step).0) && ClearWhenClosed(Act(x, y, step).1)
  {
    match step {
      case Send(data, now) =>
        PumpOnlySends(x.c.(tx := x.c.tx.(queue := x.c.tx.queue + FragmentsOf(data, FragmentSize(x.c)))), now);
      case Tick(now) => TickClears(x, now);
      case Deliver(accept, now) =>
        if y.c.outbox != [] && (x.started || y.c.outbox[0].opcode != ConnectRequest) {
          PacketClears(x, y.c.outbox[0], now);
        }
      case _ =>
    }
  }

  lemma {:induction false} RunClears(a: Identity, b: Identity, acts: seq<Action>)
    ensures var s := Run(Start(a, b), acts); ClearWhenClosed(s.a) && ClearWhenClosed(s.b)
  {
    if acts != [] {
      RunClears(a, b, acts[..|acts| - 1]);
      var s := Run(Start(a, b), acts[..|acts| - 1]);
      ActClears(s.a, s.b, acts[|acts| - 1].step);
      ActClears(s.b, s.a, acts[|acts| - 1].step);
    }
  }

  /** Over every run, an end that is closed has nothing queued, nothing in flight and no frame half put together. */
  lemma ClosedIsCleared(a: Identity, b: Identity, acts: seq<Action>, x: End, y: End)
    requires Facing(Run(Start(a, b), acts), x, y) && x.c.state == Disconnected
    ensures Cleared(x.c)
  {
    RunClears(a, b, acts);
  }

  lemma {:induction false} FillWindowAppends(c: Circuit, now: int)
    ensures c.outbox <= FillWindow(c, now).outbox
    decreases |c.tx.queue|
  {
    if c.tx.queue != [] && |c.tx.unacked| < c.window {
      FillWindowAppends(SendNext(c, now), now);
    }
  }

  /** An idle connected circuit transmits unless it is choked or has no window; its first frame is numbered V(s). */
  lemma FirstFrame(c: Circuit, data: bytes, now: int)
    requires c.state == Connected && c.tx.queue == [] && c.tx.unacked == [] && |data| > 0
    ensures Transmitted(c, data, now) == [] <==> c.flow.peerChoked || c.window < 1
    ensures Transmitted(c, data, now) != [] ==> Transmitted(c, data, now)[0].txSequence == c.tx.vs
  {
    var queued := c.(tx := c.tx.(queue := FragmentsOf(data, FragmentSize(c))));
    assert c.tx.queue + FragmentsOf(data, FragmentSize(c)) == queued.tx.queue;
    if !c.flow.peerChoked && c.window >= 1 {
      var one := SendNext(queued, now);
      FillWindowAppends(one, now);
      assert Transmitted(c, data, now)[0] == one.outbox[|c.outbox|];
    }
  }

  lemma TakesIff(f: Circuit, p: Packet, now: int)
    requires f.state == Connected
    ensures OnInformation(f, p, now).rx.vr != f.rx.vr <==> p.txSequence == f.rx.vr
  {
    AbsorbOnlySends(f, p.rxSequence, now);
    PeerChokeOnlySends(AbsorbAck(f, p.rxSequence, now), p.choke, now);
  }

  /** A reconnected circuit is open and idle, its sequence numbers and choke being those it closed with. */
  lemma ReopenedKeeps(c: Circuit, ack: Packet, now: int)
    requires Cleared(c) && !ack.choke
    ensures var up := Reopened(c, ack, now);
            && up.state == Connected && up.tx == c.tx && up.rx == c.rx && up.flow == c.flow
            && (up.window >= 1 <==> c.window >= 1)
  {
  }

  /**
   * A peer that expects sequence 0, as every freshly accepted one does, takes the first frame of a reconnected circuit
   * if and only if that circuit closed with V(s) at 0 and not choked (and has a window at all).
   */
  lemma ReuseIsHeardIff(c: Circuit, ack: Packet, data: bytes, f: Circuit, now: int)
    requires Cleared(c) && !ack.choke && |data| > 0
    requires f.state == Connected && f.rx.vr == 0
    ensures TakesFirst(f, Transmitted(Reopened(c, ack, now), data, now), now) <==>
              c.tx.vs == 0 && !c.flow.peerChoked && c.window >= 1
  {
    var up := Reopened(c, ack, now);
    ReopenedKeeps(c, ack, now);
    FirstFrame(up, data, now);
    if Transmitted(up, data, now) != [] {
      TakesIff(f, Transmitted(up, data, now)[0], now);
    }
  }

  /** A reconnected circuit that closed while choked transmits nothing at all. */
  lemma ChokedReuseIsMute(c: Circuit, ack: Packet, data: bytes, now: int)
    requires Cleared(c) && c.flow.peerChoked && !ack.choke && |data| > 0
    ensures Transmitted(Reopened(c, ack, now), data, now) == []
  {
    ReopenedKeeps(c, ack, now);
    FirstFrame(Reopened(c, ack, now), data, now);
  }

  /** The other way, it takes the first frame of a freshly accepted peer exactly when it closed with V(r) at 0. */
  lemma ReuseHearsIff(c: Circuit, ack: Packet, peer: Identity, index: byte, id: byte, window: int, data: bytes,
                      now: int)
    requires Cleared(c) && !ack.choke && |data| > 0
    ensures var other := AcceptInbound(Fresh(peer.options, peer.localIndex, peer.localId), index, id, window);
            TakesFirst(Reopened(c, ack, now), Transmitted(other, data, now), now) <==> c.rx.vr == 0
  {
    var other := AcceptInbound(Fresh(peer.options, peer.localIndex, peer.localId), index, id, window);
    ReopenedKeeps(c, ack, now);
    FirstFrame(other, data, now);
    TakesIff(Reopened(c, ack, now), Transmitted(other, data, now)[0], now);
  }

  // ---- Such circuits exist ---------------------------------------------------------------------------------

  const CALLER := Identity(Options(4, 1000, 3, 236, 0), 1, 1)
  const CALLEE := Identity(Options(4, 1000, 3, 236, 1), 2, 1)
  const HELLO: bytes := [72, 73]

  predicate Idle(c: Circuit) {
    c.tx == SendSide(0, 0, [], []) && c.rx == ReceiveSide(0, []) && c.flow == FlowControl(false, false, 0)
  }

  predicate Owned(s: System) {
    s.a.c.own == CALLER && s.b.c.own == CALLEE && s.a.started
  }

  predicate Called(s: System) {
    && Owned(s) && Idle(s.a.c) && s.a.c.state == Connecting && s.a.c.window == 4
    && |s.a.c.outbox| == 1 && s.a.c.outbox[0].opcode == ConnectRequest && s.a.c.outbox[0].payload == [4]
    && s.b == End(Fresh(CALLEE.options, CALLEE.localIndex, CALLEE.localId), false, [])
  }

  predicate Answered(s: System) {
    && Owned(s) && Idle(s.a.c) && s.a.c.state == Connecting && s.a.c.window == 4 && s.a.c.outbox == []
    && s.b.started && Idle(s.b.c) && s.b.c.state == Connected
    && |s.b.c.outbox| == 1 && s.b.c.outbox[0].opcode == ConnectAcknowledge && !s.b.c.outbox[0].choke
    && s.b.c.outbox[0].payload == [4]
  }

  predicate Up(s: System) {
    && Owned(s) && Idle(s.a.c) && s.a.c.state == Connected && s.a.c.window == 4 && s.a.c.outbox == []
    && s.b.started && Idle(s.b.c) && s.b.c.state == Connected && s.b.c.outbox == []
  }

  /** A has sent its frame. */
  predicate Spoken(s: System) {
    && Owned(s) && s.a.c.state == Connected && s.a.c.window == 4 && s.a.c.tx.vs == 1
    && s.a.c.tx.queue == [] && s.a.c.rx == ReceiveSide(0, []) && !s.a.c.flow.peerChoked
    && |s.a.c.outbox| == 1 && s.a.c.outbox[0].opcode == Information && s.a.c.outbox[0].txSequence == 0
    && s.a.c.outbox[0].payload == HELLO && !s.a.c.outbox[0].moreFollows && !s.a.c.outbox[0].choke
    && s.b.started && Idle(s.b.c) && s.b.c.state == Connected && s.b.c.outbox == []
  }

  /** Both ends are up and A has sent one frame; `choked` says whether B has told it to hold off. */
  predicate Talking(s: System, choked: bool) {
    && s.a.c.state == Connected && s.a.c.tx.vs == 1 && s.a.c.tx.queue == [] && s.a.c.window == 4
    && s.a.c.flow.peerChoked == choked
    && s.b.c.state == Connected && s.b.c.outbox == []
  }

  lemma Call()
    ensures Called(Do(Start(CALLER, CALLEE), Action(A, Step.Connect(0))))
  {
  }

  lemma Answer(s: System)
    requires Called(s)
    ensures Answered(Do(s, Action(B, Deliver(true, 0))))
  {
  }

  lemma HearAnswer(s: System)
    requires Answered(s)
    ensures Up(Do(s, Action(A, Deliver(true, 0))))
  {
  }

  lemma Speak(s: System)
    requires Up(s)
    ensures Spoken(Do(s, Action(A, Step.Send(HELLO, 0))))
  {
    var c := s.a.c;
    assert FragmentsOf(HELLO, FragmentSize(c)) == [Fragment(HELLO, false)];
    var queued := c.(tx := c.tx.(queue := [Fragment(HELLO, false)]));
    assert c.tx.queue + [Fragment(HELLO, false)] == queued.tx.queue;
    assert FillWindow(queued, 0) == SendNext(queued, 0);
  }

  /** B takes the frame, is full, and says so in its acknowledgement. */
  lemma Fill(s: System)
    requires Spoken(s)
    ensures Talking(Do(Do(s, Action(B, Deliver(true, 0))), Action(A, Deliver(true, 0))), true)
  {
    var p := s.a.c.outbox[0];
    assert AbsorbAck(s.b.c, p.rxSequence, 0) == s.b.c.(tx := s.b.c.tx.(va := p.rxSequence));
    var s' := Do(s, Action(B, Deliver(true, 0)));
    assert |s'.b.c.outbox| == 1 && s'.b.c.outbox[0].opcode == InformationAcknowledge;
    var q := s'.b.c.outbox[0];
    assert q.choke && !q.nak;
    var held := ApplyPeerChoke(s'.a.c, q.choke, 0);
    assert held.flow.peerChoked;
  }

  /** B hangs up and A hears of it. */
  lemma HangUp(s: System, choked: bool)
    requires Talking(s, choked)
    ensures var c := Do(Do(s, Action(B, Step.Disconnect(0))), Action(A, Deliver(true, 0))).a.c;
            Cleared(c) && c.tx.vs == 1 && c.window == 4 && c.flow.peerChoked == choked
  {
  }

  lemma RunTwo(s: System, before: seq<Action>, acts: seq<Action>)
    requires |acts| == 2
    ensures Run(s, before + acts) == Do(Do(Run(s, before), acts[0]), acts[1])
  {
    var half := before + [acts[0]];
    assert half[..|before|] == before;
    assert (before + acts)[..|half|] == half;
  }

  /** A calls and B accepts. */
  const CALLED: seq<Action> := [Action(A, Step.Connect(0)), Action(B, Deliver(true, 0))]

  /** Then A hears of it and sends one frame. */
  const SPOKEN: seq<Action> := CALLED + [Action(A, Deliver(true, 0)), Action(A, Step.Send(HELLO, 0))]

  /** B takes it and A hears the acknowledgement. */
  const FILLED: seq<Action> := [Action(B, Deliver(true, 0)), Action(A, Deliver(true, 0))]

  const HUNG_UP: seq<Action> := [Action(B, Step.Disconnect(0)), Action(A, Deliver(true, 0))]

  lemma SpokenComesAbout()
    ensures Spoken(Run(Start(CALLER, CALLEE), SPOKEN))
  {
    var s0 := Start(CALLER, CALLEE);
    RunTwo(s0, [], CALLED);
    assert [] + CALLED == CALLED;
    Call();
    Answer(Do(s0, CALLED[0]));
    RunTwo(s0, CALLED, [Action(A, Deliver(true, 0)), Action(A, Step.Send(HELLO, 0))]);
    var s := Run(s0, CALLED);
    HearAnswer(s);
    Speak(Do(s, Action(A, Deliver(true, 0))));
  }

  /**
   * The failing circuits are reachable: A calls and sends a frame, then B hangs up. Connected again, A is not heard
   * if B had not choked it, and silent if B had.
   */
  lemma DeafReuse(choked: bool, ack: Packet, data: bytes, f: Circuit, now: int)
    requires !ack.choke && |data| > 0 && f.state == Connected && f.rx.vr == 0
    ensures var acts := SPOKEN + (if choked then FILLED else []) + HUNG_UP;
            var c := Run(Start(CALLER, CALLEE), acts).a.c;
            var out := Transmitted(Reopened(c, ack, now), data, now);
            && c.state == Disconnected && !TakesFirst(f, out, now)
            && (out == [] <==> choked)
  {
    var s0 := Start(CALLER, CALLEE);
    SpokenComesAbout();
    var s := Run(s0, SPOKEN);
    var before := SPOKEN + if choked then FILLED else [];
    RunTwo(s0, SPOKEN, FILLED);
    assert SPOKEN + [] == SPOKEN;
    if choked {
      Fill(s);
    }
    HangUp(Run(s0, before), choked);
    RunTwo(s0, before, HUNG_UP);
    var c := Run(s0, before + HUNG_UP).a.c;
    ReuseIsHeardIff(c, ack, data, f, now);
    ReopenedKeeps(c, ack, now);
    FirstFrame(Reopened(c, ack, now), data, now);
  }
}
