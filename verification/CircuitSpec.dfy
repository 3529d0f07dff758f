/**
 * What each operation of a NET/ROM L4 circuit end does, as functions on values.
 *
 * The mutable object is `NetRomCircuit` in CircuitMachine.dfy, whose methods are proved equal to the
 * functions of this module; the two-ended protocol over lossy channels is in CircuitPair.dfy.
 */
module CircuitSpec {
  import opened Common

  datatype State = Disconnected | Connecting | Connected | Disconnecting

  datatype CloseReason = Normal | Refused | Timeout

  datatype Event = ConnectedEvent | ClosedEvent(reason: CloseReason)

  datatype Opcode =
    | ConnectRequest
    | ConnectAcknowledge
    | DisconnectRequest
    | DisconnectAcknowledge
    | Information
    | InformationAcknowledge
    | Unknown

  /** The transport header, its three flag bits, and the payload. */
  datatype Packet = Packet(
    opcode: Opcode,
    index: byte,
    id: byte,
    txSequence: byte,
    rxSequence: byte,
    choke: bool,
    nak: bool,
    moreFollows: bool,
    payload: bytes)

  datatype Options = Options(
    windowSize: int,
    retransmitTimeoutMs: int,
    maxRetries: int,
    fragmentSize: int,
    chokeThreshold: int)

  datatype Fragment = Fragment(bytes: bytes, moreFollows: bool)

  datatype Unacked = Unacked(sequence: byte, payload: bytes, moreFollows: bool, sentAt: int, retries: int)

  datatype Identity = Identity(options: Options, localIndex: byte, localId: byte)

  /** The circuit-table slot the peer gave itself. */
  datatype Peer = Peer(index: byte, id: byte)

  datatype SendSide = SendSide(vs: byte, va: byte, queue: seq<Fragment>, unacked: seq<Unacked>)

  datatype ReceiveSide = ReceiveSide(vr: byte, reassembly: bytes)

  datatype FlowControl = FlowControl(peerChoked: bool, localChoked: bool, pendingDeliveries: int)

  datatype ControlTimer = ControlTimer(deadline: int, armed: bool, retries: int)

  /**
   * One circuit end. `outbox` holds the datagrams handed to the packet sink, `delivered` the logical frames
   * handed to the data listeners, `events` the lifecycle notifications, each oldest first.
   */
  datatype Circuit = Circuit(
    own: Identity,
    peer: Peer,
    state: State,
    window: int,
    tx: SendSide,
    rx: ReceiveSide,
    flow: FlowControl,
    timer: ControlTimer,
    outbox: seq<Packet>,
    delivered: seq<bytes>,
    events: seq<Event>)

  /** A circuit end as constructed, before `connect` or `acceptInbound`. */
  function Fresh(options: Options, localIndex: byte, localId: byte): Circuit {
    Circuit(Identity(options, localIndex, localId), Peer(0, 0), Disconnected, options.windowSize,
            SendSide(0, 0, [], []), ReceiveSide(0, []), FlowControl(false, false, 0), ControlTimer(0, false, 0),
            [], [], [])
  }

  // ---- Sequence arithmetic -------------------------------------------------------------------------------

  const MODULUS := 256

  function Next(s: byte): byte {
    (s + 1) % MODULUS
  }

  /** `seq` is acknowledged by a peer that now expects `expected`. */
  predicate SeqAcked(sequence: byte, expected: byte) {
    1 <= (expected - sequence) % MODULUS <= 128
  }

  /** `a` is strictly after `b` within half the sequence space. */
  predicate Mod256After(a: byte, b: byte) {
    1 <= (a - b) % MODULUS <= 128
  }

  // ---- Datagrams -----------------------------------------------------------------------------------------

  function Control(c: Circuit, opcode: Opcode): Packet {
    Packet(opcode, c.peer.index, c.peer.id, 0, 0, false, false, false, [])
  }

  /** The info field is modelled by its first octet, the proposed window. */
  function ConnectRequestPacket(c: Circuit): Packet {
    Packet(ConnectRequest, c.own.localIndex, c.own.localId, 0, 0, false, false, false,
           [Clamp(c.own.options.windowSize, 1, 127)])
  }

  function ConnectAcknowledgePacket(c: Circuit, refused: bool): Packet {
    Packet(ConnectAcknowledge, c.peer.index, c.peer.id, c.own.localIndex, c.own.localId, refused, false, false,
           if refused then [] else [Max(1, Min(127, c.window))])
  }

  function InformationPacket(c: Circuit, sequence: byte, payload: bytes, moreFollows: bool): Packet {
    Packet(Information, c.peer.index, c.peer.id, sequence, c.rx.vr, c.flow.localChoked, false, moreFollows, payload)
  }

  function InformationAcknowledgePacket(c: Circuit, nak: bool): Packet {
    Packet(InformationAcknowledge, c.peer.index, c.peer.id, 0, c.rx.vr, c.flow.localChoked, nak, false, [])
  }

  function Emit(c: Circuit, p: Packet): Circuit {
    c.(outbox := c.outbox + [p])
  }

  function AcceptedWindow(info: bytes): Option<byte> {
    if |info| < 1 || info[0] == 0 || info[0] > 127 then None else Some(info[0])
  }

  // ---- Window mechanics ----------------------------------------------------------------------------------

  /** Move the head of the send queue into flight. */
  function SendNext(c: Circuit, now: int): Circuit
    requires c.tx.queue != []
  {
    var f := c.tx.queue[0];
    var sent := c.(tx := SendSide(Next(c.tx.vs), c.tx.va, c.tx.queue[1..],
                                  c.tx.unacked + [Unacked(c.tx.vs, f.bytes, f.moreFollows, now, 0)]));
    Emit(sent, InformationPacket(sent, c.tx.vs, f.bytes, f.moreFollows))
  }

  predicate MayPump(c: Circuit) {
    c.state == Connected && !c.flow.peerChoked
  }

  function FillWindow(c: Circuit, now: int): Circuit
    decreases |c.tx.queue|
  {
    if c.tx.queue != [] && |c.tx.unacked| < c.window then FillWindow(SendNext(c, now), now) else c
  }

  function Pump(c: Circuit, now: int): Circuit {
    if MayPump(c) then FillWindow(c, now) else c
  }

  /** The in-flight frames that survive a cumulative acknowledgement of everything before `expected`. */
  function Unacknowledged(us: seq<Unacked>, expected: byte): seq<Unacked> {
    if us == [] then []
    else
      var rest := Unacknowledged(us[..|us| - 1], expected);
      var u := us[|us| - 1];
      if SeqAcked(u.sequence, expected) then rest else rest + [u]
  }

  function AbsorbAck(c: Circuit, expected: byte, now: int): Circuit {
    if c.tx.unacked == [] then c.(tx := c.tx.(va := expected))
    else Pump(c.(tx := c.tx.(unacked := Unacknowledged(c.tx.unacked, expected), va := expected)), now)
  }

  /** Whether a resend round takes `u`: all of them, or those at or after a named sequence. */
  predicate Resends(u: Unacked, from: Option<byte>) {
    from.None? || u.sequence == from.value || Mod256After(u.sequence, from.value)
  }

  /** Resend, in order, the in-flight frames from position `i` on that `from` selects. */
  function Resend(c: Circuit, from: Option<byte>, i: nat, now: int): Circuit
    decreases |c.tx.unacked| - i
  {
    if i >= |c.tx.unacked| then c
    else Resend(ResendOne(c, from, i, now), from, i + 1, now)
  }

  function ResendOne(c: Circuit, from: Option<byte>, i: nat, now: int): Circuit
    requires i < |c.tx.unacked|
  {
    var u := c.tx.unacked[i];
    if !Resends(u, from) then c
    else
      Emit(c.(tx := c.tx.(unacked := c.tx.unacked[i := u.(sentAt := now, retries := u.retries + 1)])),
           InformationPacket(c, u.sequence, u.payload, u.moreFollows))
  }

  // ---- Flow control --------------------------------------------------------------------------------------

  function ApplyPeerChoke(c: Circuit, choke: bool, now: int): Circuit {
    if choke && !c.flow.peerChoked then c.(flow := c.flow.(peerChoked := true))
    else if !choke && c.flow.peerChoked then Pump(c.(flow := c.flow.(peerChoked := false)), now)
    else c
  }

  function MaybeAssertChoke(c: Circuit): Circuit {
    if c.own.options.chokeThreshold > 0 && c.flow.pendingDeliveries >= c.own.options.chokeThreshold
       && !c.flow.localChoked
    then c.(flow := c.flow.(localChoked := true))
    else c
  }

  function MaybeReleaseChoke(c: Circuit): Circuit {
    if c.flow.localChoked && c.flow.pendingDeliveries < c.own.options.chokeThreshold then
      var released := c.(flow := c.flow.(localChoked := false));
      if c.state == Connected then Emit(released, InformationAcknowledgePacket(released, false)) else released
    else c
  }

  // ---- Lifecycle -----------------------------------------------------------------------------------------

  function ArmControlTimer(c: Circuit, now: int): Circuit {
    c.(timer := c.timer.(deadline := now + c.own.options.retransmitTimeoutMs, armed := true))
  }

  function Close(c: Circuit, reason: CloseReason): Circuit {
    if c.state == Disconnected then c
    else c.(state := Disconnected,
            timer := c.timer.(armed := false),
            tx := c.tx.(queue := [], unacked := []),
            rx := c.rx.(reassembly := []),
            events := c.events + [ClosedEvent(reason)])
  }

  // ---- Operations ----------------------------------------------------------------------------------------

  function Connect(c: Circuit, now: int): Circuit {
    if c.state != Disconnected then c
    else
      var opening := c.(state := Connecting, timer := c.timer.(retries := 0));
      ArmControlTimer(Emit(opening, ConnectRequestPacket(opening)), now)
  }

  function AcceptInbound(c: Circuit, peerIndex: byte, peerId: byte, proposedWindow: int): Circuit {
    var proposal := if proposedWindow <= 0 then c.own.options.windowSize else proposedWindow;
    var up := c.(peer := Peer(peerIndex, peerId),
                 window := Clamp(Min(proposal, c.own.options.windowSize), 1, 127), state := Connected);
    var acked := Emit(up, ConnectAcknowledgePacket(up, false));
    acked.(events := acked.events + [ConnectedEvent])
  }

  function RefuseInbound(c: Circuit, peerIndex: byte, peerId: byte): Circuit {
    var known := c.(peer := Peer(peerIndex, peerId));
    Emit(known, ConnectAcknowledgePacket(known, true)).(state := Disconnected)
  }

  /** The fragments one logical frame travels as: all but the last carry more-follows. */
  function FragmentsOf(data: bytes, size: int): seq<Fragment>
    requires size >= 1
    decreases |data|
  {
    if |data| == 0 then []
    else if |data| <= size then [Fragment(data, false)]
    else [Fragment(data[..size], true)] + FragmentsOf(data[size..], size)
  }

  function FragmentSize(c: Circuit): int {
    Max(1, c.own.options.fragmentSize)
  }

  function Send(c: Circuit, data: bytes, now: int): Circuit {
    if c.state != Connected || |data| == 0 then c
    else Pump(c.(tx := c.tx.(queue := c.tx.queue + FragmentsOf(data, FragmentSize(c)))), now)
  }

  function Disconnect(c: Circuit, now: int): Circuit {
    match c.state
    case Disconnected => c
    case Disconnecting => c
    case Connecting => Close(c, Normal)
    case Connected =>
      var leaving := c.(state := Disconnecting, timer := c.timer.(retries := 0));
      ArmControlTimer(Emit(leaving, Control(leaving, DisconnectRequest)), now)
  }

  function OnConnectAcknowledge(c: Circuit, p: Packet, now: int): Circuit {
    if c.state != Connecting then c
    else
      var known := c.(peer := Peer(p.txSequence, p.rxSequence), timer := c.timer.(armed := false));
      if p.choke then Close(known, Refused)
      else
        var accepted := AcceptedWindow(p.payload);
        var window := if accepted.Some? then Min(known.window, accepted.value) else known.window;
        Pump(known.(window := window, state := Connected, events := known.events + [ConnectedEvent]), now)
  }

  function OnConnectRequest(c: Circuit): Circuit {
    if c.state == Connected then Emit(c, ConnectAcknowledgePacket(c, false)) else c
  }

  function OnDisconnectRequest(c: Circuit): Circuit {
    Close(Emit(c, Control(c, DisconnectAcknowledge)), Normal)
  }

  function OnDisconnectAcknowledge(c: Circuit): Circuit {
    if c.state == Disconnecting then Close(c.(timer := c.timer.(armed := false)), Normal) else c
  }

  /** Take an in-sequence Information payload: advance V(r), reassemble, deliver a completed frame. */
  function Accept(c: Circuit, payload: bytes, moreFollows: bool): Circuit {
    var got := c.(rx := ReceiveSide(Next(c.rx.vr), c.rx.reassembly + payload));
    if !moreFollows && |got.rx.reassembly| > 0 then
      MaybeAssertChoke(got.(
        delivered := got.delivered + [got.rx.reassembly],
        rx := got.rx.(reassembly := []),
        flow := got.flow.(pendingDeliveries :=
          got.flow.pendingDeliveries + if got.own.options.chokeThreshold > 0 then 1 else 0)))
    else got
  }

  function OnInformation(c: Circuit, p: Packet, now: int): Circuit {
    if c.state != Connected then c
    else
      var acked := ApplyPeerChoke(AbsorbAck(c, p.rxSequence, now), p.choke, now);
      if p.txSequence == acked.rx.vr then
        var got := Accept(acked, p.payload, p.moreFollows);
        Emit(got, InformationAcknowledgePacket(got, false))
      else
        Emit(acked, InformationAcknowledgePacket(acked, Mod256After(p.txSequence, acked.rx.vr)))
  }

  function OnInformationAcknowledge(c: Circuit, p: Packet, now: int): Circuit {
    if c.state != Connected then c
    else
      var acked := AbsorbAck(ApplyPeerChoke(c, p.choke, now), p.rxSequence, now);
      Pump(if p.nak then Resend(acked, Some(p.rxSequence), 0, now) else acked, now)
  }

  function OnPacket(c: Circuit, p: Packet, now: int): Circuit {
    match p.opcode
    case ConnectRequest => OnConnectRequest(c)
    case ConnectAcknowledge => OnConnectAcknowledge(c, p, now)
    case DisconnectRequest => OnDisconnectRequest(c)
    case DisconnectAcknowledge => OnDisconnectAcknowledge(c)
    case Information => OnInformation(c, p, now)
    case InformationAcknowledge => OnInformationAcknowledge(c, p, now)
    case Unknown => c
  }

  function ControlTick(c: Circuit, now: int): Circuit {
    if !(c.timer.armed && now >= c.timer.deadline) then c
    else if c.timer.retries >= c.own.options.maxRetries then Close(c.(timer := c.timer.(armed := false)), Timeout)
    else
      var retried := c.(timer := c.timer.(retries := c.timer.retries + 1));
      var resent :=
        if c.state == Connecting then Emit(retried, ConnectRequestPacket(retried))
        else if c.state == Disconnecting then Emit(retried, Control(retried, DisconnectRequest))
        else retried;
      ArmControlTimer(resent, now)
  }

  predicate ControlGivesUp(c: Circuit, now: int) {
    c.timer.armed && now >= c.timer.deadline && c.timer.retries >= c.own.options.maxRetries
  }

  function InformationTick(c: Circuit, now: int): Circuit {
    if c.state != Connected || c.tx.unacked == []
       || now < c.tx.unacked[0].sentAt + c.own.options.retransmitTimeoutMs then c
    else if c.tx.unacked[0].retries >= c.own.options.maxRetries then Close(c, Timeout)
    else Resend(c, None, 0, now)
  }

  function Tick(c: Circuit, now: int): Circuit {
    var controlled := ControlTick(c, now);
    if ControlGivesUp(c, now) then controlled else InformationTick(controlled, now)
  }

  function OnDeliveryDrained(c: Circuit): Circuit {
    MaybeReleaseChoke(
      if c.flow.pendingDeliveries > 0
      then c.(flow := c.flow.(pendingDeliveries := c.flow.pendingDeliveries - 1)) else c)
  }
}
