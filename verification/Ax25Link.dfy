/**
 * Two AX.25 stations exchanging I and S frames over one ordered, lossy channel per direction, within one link
 * establishment. A run is any sequence of data requests, busy changes, acknowledgements, selective-reject
 * requests for any N(R), retransmissions of any stored frame, deliveries and losses.
 */
module Ax25Link {
  import opened Common
  import opened Ax25Window

  /** A station and every payload its layer 3 has asked to send, oldest first. */
  datatype Station = Station(c: Context, accepted: seq<Entry>)

  datatype Link = Link(a: Station, b: Station)

  datatype Side = A | B

  datatype Step =
    | Request(e: Entry)
    | SetBusy(busy: bool)
    | Acknowledge
    | Reject(nr: nat)
    | Resend(ns: nat)
    | Deliver
    | Lose(position: nat)

  datatype Action = Action(side: Side, step: Step)

  function With(x: Station, c: Context): Station {
    x.(c := c)
  }

  function Popped(y: Station): Station
    requires y.c.outbox != []
  {
    With(y, y.c.(outbox := y.c.outbox[1..]))
  }

  /** One action by `x`, whose peer is `y`. */
  function Act(x: Station, y: Station, step: Step): (Station, Station) {
    match step
    case Request(e) =>
      (Station(DrainQueue(x.c.(queue := x.c.queue + [e])), x.accepted + [e]), y)
    case SetBusy(busy) => (With(x, DrainQueue(x.c.(peerBusy := busy))), y)
    case Acknowledge => (With(x, Emit(x.c, Supervisory(x.c.vr))), y)
    case Reject(nr) => (With(x, Emit(x.c, Srej(nr))), y)
    case Resend(ns) => (With(x, Replay(x.c, ns)), y)
    case Deliver =>
      if y.c.outbox == [] then (x, y)
      else (With(x, DrainQueue(OnFrame(x.c, y.c.outbox[0]))), Popped(y))
    case Lose(i) =>
      if i < |x.c.outbox| then (With(x, x.c.(outbox := RemoveAt(x.c.outbox, i))), y) else (x, y)
  }

  function Do(s: Link, act: Action): Link {
    if act.side == A then
      var (x, y) := Act(s.a, s.b, act.step);
      Link(x, y)
    else
      var (x, y) := Act(s.b, s.a, act.step);
      Link(y, x)
  }

  function Run(s: Link, acts: seq<Action>): Link {
    if acts == [] then s else Do(Run(s, acts[..|acts| - 1]), acts[|acts| - 1])
  }

  function Start(a: Config, b: Config): Link {
    Link(Station(Fresh(a), []), Station(Fresh(b), []))
  }

  /** The window a sender with this configuration ever has outstanding. */
  function SendWindow(config: Config): nat {
    Max(0, EffectiveWindow(config))
  }

  /** The receiver stores nothing out of sequence, or the two windows fit the ring together. */
  predicate Unambiguous(sender: Config, receiver: Config) {
    receiver.srejEnabled ==> SendWindow(sender) + SendWindow(receiver) <= Modulus(sender)
  }

  predicate Agreed(a: Config, b: Config) {
    a.extended == b.extended && Unambiguous(a, b) && Unambiguous(b, a)
  }

  /** The half-modulus clamp, with SREJ agreed, makes any pair of configured windows unambiguous. */
  lemma ClampAgrees(a: Config, b: Config)
    requires a.extended == b.extended && a.srejEnabled == b.srejEnabled && a.clampSrej && b.clampSrej
    ensures Agreed(a, b)
  {
  }
}
