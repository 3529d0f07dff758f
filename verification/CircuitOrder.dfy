/**
 * What every run of a pair keeps besides the data: where its datagrams are addressed, that nothing waits without need,
 * and that an end chokes its peer exactly while it must.
 */
module CircuitOrder {
  import opened Common
  import opened CircuitSpec
  import opened CircuitPair
  import opened CircuitSafety
  import opened CircuitReuse
  import opened CircuitGap
  import opened CircuitEffects

  /** An end's peer as it knows it: right once it is up, and else unknown or right. */
  predicate Knows(x: End, y: End) {
    (x.c.peer == PairOf(y.c.own) || x.c.peer == Peer(0, 0))
    && (x.c.state == Connected || x.c.state == Disconnecting ==> x.c.peer == PairOf(y.c.own))
  }

  /** A datagram from `x` names y's pair, but for a Connect Request, and for an answer given before y was known. */
  predicate Reaches(p: Packet, x: Identity, y: Identity) {
    match p.opcode
    case DisconnectAcknowledge => To(p, PairOf(y)) || To(p, Peer(0, 0))
    case _ => Addressed(p, x, PairOf(y))
  }

  predicate AllReach(box: seq<Packet>, x: Identity, y: Identity) {
    forall i :: 0 <= i < |box| ==> Reaches(box[i], x, y)
  }

  /** It chokes its peer exactly while as many frames are pending as its threshold, if it has one. */
  predicate ChokesRightly(c: Circuit) {
    c.flow.pendingDeliveries >= 0
    && (if c.own.options.chokeThreshold > 0 then
          c.flow.localChoked <==> c.flow.pendingDeliveries >= c.own.options.chokeThreshold
        else !c.flow.localChoked && c.flow.pendingDeliveries == 0)
  }

  /** What every run keeps at one end. */
  predicate Orderly(x: End, y: End) {
    && Knows(x, y) && AllReach(x.c.outbox, x.c.own, y.c.own) && ChokesRightly(x.c) && Stuck(x.c)
    && ClearWhenClosed(x)
  }

  /** An end that only speaks keeps its datagrams in order, if it knows its peer or says nothing that needs it. */
  lemma SpeakingReaches(x: End, y: End, d: Circuit)
    requires AllReach(x.c.outbox, x.c.own, y.c.own) && Speaks(x.c, d)
    requires forall i :: |x.c.outbox| <= i < |d.outbox| ==>
               x.c.peer == PairOf(y.c.own) || d.outbox[i].opcode == ConnectRequest
               || (x.c.peer == Peer(0, 0) && d.outbox[i].opcode == DisconnectAcknowledge)
    ensures AllReach(d.outbox, x.c.own, y.c.own)
  {
    forall i | 0 <= i < |d.outbox| ensures Reaches(d.outbox[i], x.c.own, y.c.own) {
      if i < |x.c.outbox| {
        assert d.outbox[i] == x.c.outbox[i];
      }
    }
  }

  lemma StatusKeepsChoke(c: Circuit, p: Packet, now: int)
    requires c.state == Connected && ChokesRightly(c)
    ensures p.opcode == Information ==> ChokesRightly(OnInformation(c, p, now))
    ensures p.opcode == InformationAcknowledge ==> ChokesRightly(OnInformationAcknowledge(c, p, now))
  {
    if p.opcode == Information {
      AbsorbTransmits(c, p.rxSequence, now);
      ChokeIsTaken(AbsorbAck(c, p.rxSequence, now), p.choke, now);
    } else if p.opcode == InformationAcknowledge {
      ChokeIsTaken(c, p.choke, now);
      var choked := ApplyPeerChoke(c, p.choke, now);
      AbsorbTransmits(choked, p.rxSequence, now);
      var acked := AbsorbAck(choked, p.rxSequence, now);
      ResendTransmits(acked, Some(p.rxSequence), 0, now);
      PumpTransmits(if p.nak then Resend(acked, Some(p.rxSequence), 0, now) else acked, now);
    }
  }

  /** What an acknowledgement of a call makes of it. */
  lemma AnsweredIsOrderly(x: End, y: End, p: Packet, now: int)
    requires Orderly(x, y) && x.c.state == Connecting && p.opcode == ConnectAcknowledge && x.started
    requires Reaches(p, y.c.own, x.c.own)
    ensures Orderly(With(x, OnConnectAcknowledge(x.c, p, now)), y)
  {
    if !p.choke {
      var known := x.c.(peer := Peer(p.txSequence, p.rxSequence), timer := x.c.timer.(armed := false));
      var accepted := AcceptedWindow(p.payload);
      var window := if accepted.Some? then Min(known.window, accepted.value) else known.window;
      var up := known.(window := window, state := Connected, events := known.events + [ConnectedEvent]);
      PumpTransmits(up, now);
      PumpFills(up, now);
      SpeakingReaches(With(x, up), y, Pump(up, now));
    }
  }

  lemma StatusIsOrderly(x: End, y: End, p: Packet, now: int)
    requires Orderly(x, y) && x.c.state == Connected && (p.opcode == Information || p.opcode == InformationAcknowledge)
    requires x.started
    ensures Orderly(With(x, OnPacket(x.c, p, now)), y)
  {
    StatusIsTaken(x.c, p, now);
    StatusKeepsChoke(x.c, p, now);
    SpeakingReaches(x, y, OnPacket(x.c, p, now));
  }

  lemma PacketIsOrderly(x: End, y: End, p: Packet, now: int)
    requires Orderly(x, y) && Reaches(p, y.c.own, x.c.own) && (x.started || p.opcode != ConnectRequest)
    ensures Orderly(With(x, OnPacket(x.c, p, now)), y)
  {
    match p.opcode {
      case ConnectRequest => SpeakingReaches(x, y, OnPacket(x.c, p, now));
      case ConnectAcknowledge => if x.c.state == Connecting { AnsweredIsOrderly(x, y, p, now); }
      case DisconnectRequest => SpeakingReaches(x, y, OnPacket(x.c, p, now));
      case DisconnectAcknowledge =>
      case Information => if x.c.state == Connected { StatusIsOrderly(x, y, p, now); }
      case InformationAcknowledge => if x.c.state == Connected { StatusIsOrderly(x, y, p, now); }
      case Unknown =>
    }
  }

  lemma TickIsOrderly(x: End, y: End, now: int)
    requires Orderly(x, y)
    ensures Orderly(With(x, CircuitSpec.Tick(x.c, now)), y)
  {
    var controlled := ControlTick(x.c, now);
    SpeakingReaches(x, y, controlled);
    if !ControlGivesUp(x.c, now) && controlled.state == Connected {
      ResendTransmits(controlled, None, 0, now);
      ResendStuck(controlled, None, 0, now);
      SpeakingReaches(With(x, controlled), y, Resend(controlled, None, 0, now));
    }
  }

  lemma SendIsOrderly(x: End, y: End, data: bytes, now: int)
    requires Orderly(x, y)
    ensures Orderly(With(x, CircuitSpec.Send(x.c, data, now)), y)
  {
    if x.c.state == Connected && |data| > 0 {
      var queued := x.c.(tx := x.c.tx.(queue := x.c.tx.queue + FragmentsOf(data, FragmentSize(x.c))));
      PumpTransmits(queued, now);
      PumpFills(queued, now);
      SpeakingReaches(With(x, queued), y, Pump(queued, now));
    }
  }

  lemma CallIsOrderly(x: End, y: End, now: int)
    requires Orderly(x, y) && !x.started
    ensures Orderly(x.(started := true, c := CircuitSpec.Connect(x.c, now)), y)
  {
    SpeakingReaches(x, y, CircuitSpec.Connect(x.c, now));
  }

  lemma HangUpIsOrderly(x: End, y: End, now: int)
    requires Orderly(x, y)
    ensures Orderly(With(x, CircuitSpec.Disconnect(x.c, now)), y)
  {
    SpeakingReaches(x, y, CircuitSpec.Disconnect(x.c, now));
  }

  lemma DrainIsOrderly(x: End, y: End)
    requires Orderly(x, y)
    ensures Orderly(With(x, OnDeliveryDrained(x.c)), y)
  {
    SpeakingReaches(x, y, OnDeliveryDrained(x.c));
  }

  /** A call that arrives first is taken or refused under the pair it names. */
  lemma FirstCallIsOrderly(x: End, y: End, p: Packet, accept: bool, now: int)
    requires Orderly(x, y) && !x.started && p.opcode == ConnectRequest && Reaches(p, y.c.own, x.c.own)
    ensures Orderly(Arrive(x, p, accept, now), y)
  {
    var known := With(x, x.c.(peer := Peer(p.index, p.id)));
    var d := Arrive(x, p, accept, now).c;
    assert Speaks(known.c, d);
    SpeakingReaches(known, y, d);
  }

  lemma ReachesRemove(box: seq<Packet>, n: nat, x: Identity, y: Identity)
    requires AllReach(box, x, y) && n < |box|
    ensures AllReach(RemoveAt(box, n), x, y)
  {
    var box' := RemoveAt(box, n);
    forall i | 0 <= i < |box'| ensures Reaches(box'[i], x, y) {
      assert box'[i] == box[Before(i, n)];
    }
  }

  lemma ArrivalIsOrderly(x: End, y: End, accept: bool, now: int)
    requires Orderly(x, y) && Orderly(y, x) && y.c.outbox != []
    ensures Orderly(Arrive(x, y.c.outbox[0], accept, now), y)
  {
    var p := y.c.outbox[0];
    if p.opcode == ConnectRequest && !x.started {
      FirstCallIsOrderly(x, y, p, accept, now);
    } else {
      PacketIsOrderly(x, y, p, now);
    }
  }

  lemma OwnerStays(x: End, y: End, step: Step)
    requires Orderly(x, y)
    ensures var (x', y') := Act(x, y, step); x'.c.own == x.c.own && y'.c.own == y.c.own
  {
    ActAccepts(x, y, step);
  }

  lemma ActIsOrderly(x: End, y: End, step: Step)
    requires Orderly(x, y) && Orderly(y, x)
    ensures Orderly(Act(x, y, step).0, y)
  {
    match step {
      case Connect(now) => if !x.started { CallIsOrderly(x, y, now); }
      case Send(data, now) => SendIsOrderly(x, y, data, now);
      case Disconnect(now) => HangUpIsOrderly(x, y, now);
      case Tick(now) => TickIsOrderly(x, y, now);
      case Drained => DrainIsOrderly(x, y);
      case Deliver(accept, now) => if y.c.outbox != [] { ArrivalIsOrderly(x, y, accept, now); }
      case Lose(n) => if n < |x.c.outbox| { ReachesRemove(x.c.outbox, n, x.c.own, y.c.own); }
    }
  }

  /** The other end keeps its order: only its channel may lose its head, and only what it knows of `x` matters. */
  lemma OtherIsOrderly(x: End, y: End, step: Step)
    requires Orderly(x, y) && Orderly(y, x)
    ensures Orderly(Act(x, y, step).1, Act(x, y, step).0)
  {
    OwnerStays(x, y, step);
    if step.Deliver? && y.c.outbox != [] {
      ReachesRemove(y.c.outbox, 0, y.c.own, x.c.own);
      assert RemoveAt(y.c.outbox, 0) == y.c.outbox[1..];
    }
  }

  lemma ActIsOrderlyToo(x: End, y: End, step: Step)
    requires Orderly(x, y) && Orderly(y, x)
    ensures Orderly(Act(x, y, step).0, Act(x, y, step).1)
  {
    ActIsOrderly(x, y, step);
    OwnerStays(x, y, step);
  }

  lemma {:induction false} RunIsOrderly(a: Identity, b: Identity, acts: seq<Action>)
    ensures var s := Run(Start(a, b), acts); Orderly(s.a, s.b) && Orderly(s.b, s.a)
  {
    if acts != [] {
      RunIsOrderly(a, b, acts[..|acts| - 1]);
      var s := Run(Start(a, b), acts[..|acts| - 1]);
      var act := acts[|acts| - 1];
      var x, y := if act.side == A then s.a else s.b, if act.side == A then s.b else s.a;
      ActIsOrderlyToo(x, y, act.step);
      OtherIsOrderly(x, y, act.step);
    }
  }

  /**
   * Over every run, every datagram names the pair the other end goes by, a Connect Request its own end's; only the
   * answer to a Disconnect Request that overtook the acknowledgement of the call names (0, 0) instead.
   */
  lemma DatagramsReach(a: Identity, b: Identity, acts: seq<Action>, x: End, y: End, i: nat)
    requires Facing(Run(Start(a, b), acts), x, y) && i < |x.c.outbox|
    ensures Reaches(x.c.outbox[i], x.c.own, y.c.own)
    ensures x.c.state == Connected || x.c.state == Disconnecting ==> x.c.peer == PairOf(y.c.own)
  {
    RunIsOrderly(a, b, acts);
  }

  /** Such an answer is given: B accepts A's call and hangs up, and the acknowledgement of the call is lost. */
  lemma AnswerToNobody()
    ensures var s := Run(Start(CALLER, CALLEE), CALLED + [Action(B, Step.Disconnect(0)), Action(B, Lose(0))]
                         + [Action(A, Deliver(true, 0))]);
            |s.a.c.outbox| == 1 && s.a.c.outbox[0].opcode == DisconnectAcknowledge
            && To(s.a.c.outbox[0], Peer(0, 0)) && PairOf(s.b.c.own) != Peer(0, 0)
  {
    var s0 := Start(CALLER, CALLEE);
    var leave := [Action(B, Step.Disconnect(0)), Action(B, Lose(0))];
    RunTwo(s0, [], CALLED);
    assert [] + CALLED == CALLED;
    Call();
    Answer(Do(s0, CALLED[0]));
    RunTwo(s0, CALLED, leave);
    LosesAnswer(Run(s0, CALLED));
    AnswersUnknown(Run(s0, CALLED + leave));
    assert (CALLED + leave + [Action(A, Deliver(true, 0))])[..|CALLED + leave|] == CALLED + leave;
  }

  /** After B has hung up and its acknowledgement of the call is lost, only its Disconnect Request is under way. */
  predicate OnlyHangUp(s: System) {
    && s.a.started && s.a.c.state == Connecting && s.a.c.peer == Peer(0, 0) && s.a.c.outbox == []
    && |s.b.c.outbox| == 1 && s.b.c.outbox[0].opcode == DisconnectRequest && s.b.c.own == CALLEE
  }

  lemma LosesAnswer(s: System)
    requires Answered(s) && s.a.c.peer == Peer(0, 0)
    ensures OnlyHangUp(Do(Do(s, Action(B, Step.Disconnect(0))), Action(B, Lose(0))))
  {
    var s1 := Do(s, Action(B, Step.Disconnect(0)));
    assert s1.b.c.outbox == s.b.c.outbox + [Control(s.b.c, DisconnectRequest)] && s1.a == s.a;
    assert RemoveAt(s1.b.c.outbox, 0) == [Control(s.b.c, DisconnectRequest)];
  }

  lemma AnswersUnknown(s: System)
    requires OnlyHangUp(s)
    ensures var s' := Do(s, Action(A, Deliver(true, 0)));
            |s'.a.c.outbox| == 1 && s'.a.c.outbox[0].opcode == DisconnectAcknowledge
            && To(s'.a.c.outbox[0], Peer(0, 0)) && s'.b.c.own == CALLEE
  {
  }

  /** Over every run, a connected end that is not choked has nothing queued or a full window. */
  lemma NothingWaits(a: Identity, b: Identity, acts: seq<Action>, x: End, y: End)
    requires Facing(Run(Start(a, b), acts), x, y) && x.c.state == Connected && !x.c.flow.peerChoked
    ensures x.c.tx.queue == [] || |x.c.tx.unacked| >= x.c.window
  {
    RunIsOrderly(a, b, acts);
  }

  /** Over every run, an end chokes its peer exactly while as many frames wait to be drained as its threshold. */
  lemma ChokeIsExact(a: Identity, b: Identity, acts: seq<Action>, x: End, y: End)
    requires Facing(Run(Start(a, b), acts), x, y)
    ensures x.c.flow.localChoked <==>
              x.c.own.options.chokeThreshold > 0 && x.c.flow.pendingDeliveries >= x.c.own.options.chokeThreshold
  {
    RunIsOrderly(a, b, acts);
  }
}
