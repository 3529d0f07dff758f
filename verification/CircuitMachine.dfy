/**
 * The mutable circuit end. Every method is proved to move `State()` exactly as the function of the same name in
 * CircuitSpec does, loops included.
 */
module CircuitMachine {
  import opened Common
  import opened CircuitSpec

  class NetRomCircuit {
    const own: Identity
    var peer: Peer
    var state: State
    var window: int
    var tx: SendSide
    var rx: ReceiveSide
    var flow: FlowControl
    var timer: ControlTimer
    var outbox: seq<Packet>
    var delivered: seq<bytes>
    var events: seq<Event>

    /** The value CircuitSpec reasons about. */
    function Value(): Circuit
      reads this
    {
      Circuit(own, peer, state, window, tx, rx, flow, timer, outbox, delivered, events)
    }

    constructor (options: Options, localIndex: byte, localId: byte)
      ensures Value() == CircuitSpec.Fresh(options, localIndex, localId)
    {
      own := Identity(options, localIndex, localId);
      peer, state, window := Peer(0, 0), Disconnected, options.windowSize;
      tx, rx := SendSide(0, 0, [], []), ReceiveSide(0, []);
      flow, timer := FlowControl(false, false, 0), ControlTimer(0, false, 0);
      outbox, delivered, events := [], [], [];
    }

    // ---- Origination and teardown ------------------------------------------------------------------------

    method Connect(now: int)
      modifies this
      ensures Value() == CircuitSpec.Connect(old(Value()), now)
    {
      if state != Disconnected {
        return;
      }
      state := Connecting;
      timer := timer.(retries := 0);
      SendPacket(ConnectRequestPacket(Value()));
      ArmControlTimer(now);
    }

    method Disconnect(now: int)
      modifies this
      ensures Value() == CircuitSpec.Disconnect(old(Value()), now)
    {
      match state {
        case Disconnected =>
        case Disconnecting =>
        case Connecting => Close(Normal);
        case Connected =>
          state := Disconnecting;
          timer := timer.(retries := 0);
          SendPacket(Control(Value(), DisconnectRequest));
          ArmControlTimer(now);
      }
    }

    method AcceptInbound(peerIndex: byte, peerId: byte, proposedWindow: int)
      modifies this
      ensures Value() == CircuitSpec.AcceptInbound(old(Value()), peerIndex, peerId, proposedWindow)
    {
      peer := Peer(peerIndex, peerId);
      var proposal := if proposedWindow <= 0 then own.options.windowSize else proposedWindow;
      window := Clamp(Min(proposal, own.options.windowSize), 1, 127);
      state := Connected;
      SendPacket(ConnectAcknowledgePacket(Value(), false));
      events := events + [ConnectedEvent];
    }

    method RefuseInbound(peerIndex: byte, peerId: byte)
      modifies this
      ensures Value() == CircuitSpec.RefuseInbound(old(Value()), peerIndex, peerId)
    {
      peer := Peer(peerIndex, peerId);
      SendPacket(ConnectAcknowledgePacket(Value(), true));
      state := Disconnected;
    }

    // ---- Application data --------------------------------------------------------------------------------

    method Send(data: bytes, now: int)
      modifies this
      ensures Value() == CircuitSpec.Send(old(Value()), data, now)
    {
      if state != Connected || |data| == 0 {
        return;
      }
      var frag := Max(1, own.options.fragmentSize);
      ghost var goal := tx.queue + FragmentsOf(data, frag);
      var offset := 0;
      while offset < |data|
        invariant 0 <= offset <= |data|
        invariant tx.queue + FragmentsOf(data[offset..], frag) == goal
        invariant Value() == old(Value()).(tx := old(tx).(queue := tx.queue))
      {
        var take := Min(frag, |data| - offset);
        var more := offset + take < |data|;
        assert data[offset..][..take] == data[offset..offset + take];
        assert data[offset..][take..] == data[offset + take..];
        assert !more ==> data[offset..] == data[offset..offset + take];
        tx := tx.(queue := tx.queue + [Fragment(data[offset..offset + take], more)]);
        offset := offset + take;
      }
      assert tx.queue == goal;
      PumpSendQueue(now);
    }

    method OnDeliveryDrained()
      modifies this
      ensures Value() == CircuitSpec.OnDeliveryDrained(old(Value()))
    {
      if flow.pendingDeliveries > 0 {
        flow := flow.(pendingDeliveries := flow.pendingDeliveries - 1);
      }
      MaybeReleaseChoke();
    }

    // ---- Inbound -----------------------------------------------------------------------------------------

    method OnPacket(p: Packet, now: int)
      modifies this
      ensures Value() == CircuitSpec.OnPacket(old(Value()), p, now)
    {
      match p.opcode {
        case ConnectRequest =>
          if state == Connected {
            SendPacket(ConnectAcknowledgePacket(Value(), false));
          }
        case ConnectAcknowledge => OnConnectAcknowledge(p, now);
        case DisconnectRequest =>
          SendPacket(Control(Value(), DisconnectAcknowledge));
          if state != Disconnected {
            Close(Normal);
          }
        case DisconnectAcknowledge =>
          if state == Disconnecting {
            timer := timer.(armed := false);
            Close(Normal);
          }
        case Information => OnInformation(p, now);
        case InformationAcknowledge => OnInformationAcknowledge(p, now);
        case Unknown =>
      }
    }

    method OnConnectAcknowledge(p: Packet, now: int)
      modifies this
      ensures Value() == CircuitSpec.OnConnectAcknowledge(old(Value()), p, now)
    {
      if state != Connecting {
        return;
      }
      peer := Peer(p.txSequence, p.rxSequence);
      timer := timer.(armed := false);
      if p.choke {
        Close(Refused);
        return;
      }
      var accepted := AcceptedWindow(p.payload);
      if accepted.Some? {
        window := Min(window, accepted.value);
      }
      state := Connected;
      events := events + [ConnectedEvent];
      PumpSendQueue(now);
    }

    method OnInformation(p: Packet, now: int)
      modifies this
      ensures Value() == CircuitSpec.OnInformation(old(Value()), p, now)
    {
      if state != Connected {
        return;
      }
      AbsorbAck(p.rxSequence, now);
      ApplyPeerChoke(p.choke, now);
      if p.txSequence == rx.vr {
        rx := ReceiveSide(Next(rx.vr), rx.reassembly + p.payload);
        if !p.moreFollows && |rx.reassembly| > 0 {
          var whole := rx.reassembly;
          rx := rx.(reassembly := []);
          if own.options.chokeThreshold > 0 {
            flow := flow.(pendingDeliveries := flow.pendingDeliveries + 1);
          }
          delivered := delivered + [whole];
          MaybeAssertChoke();
        }
        SendPacket(InformationAcknowledgePacket(Value(), false));
      } else {
        var future := Mod256After(p.txSequence, rx.vr);
        SendPacket(InformationAcknowledgePacket(Value(), future));
      }
    }

    method OnInformationAcknowledge(p: Packet, now: int)
      modifies this
      ensures Value() == CircuitSpec.OnInformationAcknowledge(old(Value()), p, now)
    {
      if state != Connected {
        return;
      }
      ApplyPeerChoke(p.choke, now);
      AbsorbAck(p.rxSequence, now);
      if p.nak {
        Retransmit(Some(p.rxSequence), now);
      }
      PumpSendQueue(now);
    }

    // ---- Timer -------------------------------------------------------------------------------------------

    method Tick(now: int)
      modifies this
      ensures Value() == CircuitSpec.Tick(old(Value()), now)
    {
      if timer.armed && now >= timer.deadline {
        if timer.retries >= own.options.maxRetries {
          timer := timer.(armed := false);
          Close(Timeout);
          return;
        }
        timer := timer.(retries := timer.retries + 1);
        match state {
          case Connecting => SendPacket(ConnectRequestPacket(Value()));
          case Disconnecting => SendPacket(Control(Value(), DisconnectRequest));
          case _ =>
        }
        ArmControlTimer(now);
      }
      assert Value() == ControlTick(old(Value()), now);
      if state == Connected && |tx.unacked| > 0 {
        var oldest := tx.unacked[0];
        if now >= oldest.sentAt + own.options.retransmitTimeoutMs {
          if oldest.retries >= own.options.maxRetries {
            Close(Timeout);
            return;
          }
          Retransmit(None, now);
        }
      }
    }

    // ---- Window mechanics --------------------------------------------------------------------------------

    method SendPacket(p: Packet)
      modifies this
      ensures Value() == Emit(old(Value()), p)
    {
      outbox := outbox + [p];
    }

    method PumpSendQueue(now: int)
      modifies this
      ensures Value() == Pump(old(Value()), now)
    {
      if state != Connected || flow.peerChoked {
        return;
      }
      while |tx.queue| > 0 && |tx.unacked| < window
        invariant FillWindow(Value(), now) == FillWindow(old(Value()), now)
        decreases |tx.queue|
      {
        var fragment := tx.queue[0];
        tx := tx.(queue := tx.queue[1..]);
        var sequence := tx.vs;
        tx := tx.(vs := Next(tx.vs));
        tx := tx.(unacked := tx.unacked + [Unacked(sequence, fragment.bytes, fragment.moreFollows, now, 0)]);
        SendPacket(InformationPacket(Value(), sequence, fragment.bytes, fragment.moreFollows));
      }
    }

    method AbsorbAck(expected: byte, now: int)
      modifies this
      ensures Value() == CircuitSpec.AbsorbAck(old(Value()), expected, now)
    {
      if |tx.unacked| == 0 {
        tx := tx.(va := expected);
        return;
      }
      RemoveAcked(expected);
      tx := tx.(va := expected);
      PumpSendQueue(now);
    }

    /** Compact the unacknowledged list in place, keeping the order of what stays. */
    method RemoveAcked(expected: byte)
      modifies this
      ensures Value() == old(Value()).(tx := old(tx).(unacked := Unacknowledged(old(tx.unacked), expected)))
    {
      var kept := tx.unacked;
      var write := 0;
      for read := 0 to |tx.unacked|
        invariant 0 <= write <= read <= |kept| == |tx.unacked|
        invariant kept[..write] == Unacknowledged(tx.unacked[..read], expected)
        invariant kept[read..] == tx.unacked[read..]
      {
        assert kept[read] == kept[read..][0] == tx.unacked[read];
        assert tx.unacked[..read + 1][..read] == tx.unacked[..read];
        if !SeqAcked(kept[read].sequence, expected) {
          kept := kept[write := kept[read]];
          write := write + 1;
        }
        assert kept[read + 1..] == tx.unacked[read..][1..];
      }
      assert tx.unacked[..|tx.unacked|] == tx.unacked;
      tx := tx.(unacked := kept[..write]);
    }

    method Retransmit(from: Option<byte>, now: int)
      modifies this
      ensures Value() == Resend(old(Value()), from, 0, now)
    {
      var i := 0;
      while i < |tx.unacked|
        invariant 0 <= i <= |tx.unacked|
        invariant Resend(Value(), from, i, now) == Resend(old(Value()), from, 0, now)
      {
        var u := tx.unacked[i];
        if Resends(u, from) {
          SendPacket(InformationPacket(Value(), u.sequence, u.payload, u.moreFollows));
          tx := tx.(unacked := tx.unacked[i := u.(sentAt := now, retries := u.retries + 1)]);
        }
        i := i + 1;
      }
    }

    // ---- Flow control and lifecycle ----------------------------------------------------------------------

    method ApplyPeerChoke(choke: bool, now: int)
      modifies this
      ensures Value() == CircuitSpec.ApplyPeerChoke(old(Value()), choke, now)
    {
      if choke && !flow.peerChoked {
        flow := flow.(peerChoked := true);
      } else if !choke && flow.peerChoked {
        flow := flow.(peerChoked := false);
        PumpSendQueue(now);
      }
    }

    method MaybeAssertChoke()
      modifies this
      ensures Value() == CircuitSpec.MaybeAssertChoke(old(Value()))
    {
      if own.options.chokeThreshold > 0 && flow.pendingDeliveries >= own.options.chokeThreshold && !flow.localChoked {
        flow := flow.(localChoked := true);
      }
    }

    method MaybeReleaseChoke()
      modifies this
      ensures Value() == CircuitSpec.MaybeReleaseChoke(old(Value()))
    {
      if flow.localChoked && flow.pendingDeliveries < own.options.chokeThreshold {
        flow := flow.(localChoked := false);
        if state == Connected {
          SendPacket(InformationAcknowledgePacket(Value(), false));
        }
      }
    }

    method ArmControlTimer(now: int)
      modifies this
      ensures Value() == CircuitSpec.ArmControlTimer(old(Value()), now)
    {
      timer := timer.(deadline := now + own.options.retransmitTimeoutMs, armed := true);
    }

    method Close(reason: CloseReason)
      modifies this
      ensures Value() == CircuitSpec.Close(old(Value()), reason)
    {
      if state == Disconnected {
        return;
      }
      state := Disconnected;
      timer := timer.(armed := false);
      tx := tx.(queue := [], unacked := []);
      rx := rx.(reassembly := []);
      events := events + [ClosedEvent(reason)];
    }
  }
}
