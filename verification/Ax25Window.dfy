/**
 * The send and receive windows of an AX.25 link: what each sequence guard tests and what each verb does to the
 * session context, as functions on values. The mutable context is `SessionContext` in Ax25Context.dfy; two
 * stations over lossy channels are in Ax25Link.dfy.
 */
module Ax25Window {
  import opened Common

  /** An I frame's payload and PID. */
  datatype Entry = Entry(data: bytes, pid: byte)

  datatype Frame =
    | IFrame(ns: nat, nr: nat, entry: Entry)
    | Supervisory(nr: nat)
    | Srej(nr: nat)

  /** `clampSrej` is the switch that caps the window at half the modulus while SREJ is enabled. */
  datatype Config = Config(k: int, srejEnabled: bool, extended: bool, clampSrej: bool)

  /**
   * The sequence variables and stores of a session. `sent` and `stored` are keyed by the bare N(S); `replayed`
   * holds the N(S) already selectively retransmitted since V(a) last advanced. `outbox` and `delivered` log what
   * was sent to the peer and indicated to layer 3.
   */
  datatype Context = Context(
    config: Config,
    vs: nat,
    va: nat,
    vr: nat,
    peerBusy: bool,
    queue: seq<Entry>,
    sent: map<nat, Entry>,
    stored: map<nat, Entry>,
    replayed: set<nat>,
    outbox: seq<Frame>,
    delivered: seq<Entry>)

  function Fresh(config: Config): Context {
    Context(config, 0, 0, 0, false, [], map[], map[], {}, [], [])
  }

  function Modulus(config: Config): nat {
    if config.extended then 128 else 8
  }

  function EffectiveWindow(config: Config): int {
    var window := if config.clampSrej && config.srejEnabled then Min(config.k, Modulus(config) / 2) else config.k;
    Min(window, Modulus(config) - 1)
  }

  function Increment(c: Context, v: nat): nat {
    (v + 1) % Modulus(c.config)
  }

  /** How far `a` is ahead of `b` on the ring of `m` sequence numbers. */
  function Distance(a: nat, b: nat, m: nat): nat
    requires m > 0
  {
    (a - b + m) % m
  }

  // ---- Guards ----------------------------------------------------------------------------------------------

  function Outstanding(c: Context): nat {
    Distance(c.vs, c.va, Modulus(c.config))
  }

  predicate IsOutstanding(c: Context, ns: nat) {
    Distance(ns, c.va, Modulus(c.config)) < Outstanding(c)
  }

  predicate CanTransmit(c: Context) {
    !c.peerBusy && Outstanding(c) < EffectiveWindow(c.config)
  }

  predicate ValidNr(c: Context, nr: nat) {
    Distance(nr, c.va, Modulus(c.config)) <= Outstanding(c)
  }

  /** V(r) < N(s) < V(r) + k. */
  predicate InReceiveWindow(c: Context, ns: nat) {
    0 < Distance(ns, c.vr, Modulus(c.config)) < EffectiveWindow(c.config)
  }

  // ---- Verbs -----------------------------------------------------------------------------------------------

  function Emit(c: Context, f: Frame): Context {
    c.(outbox := c.outbox + [f])
  }

  /** Send the head of the queue as a new I frame at V(s). */
  function Transmit(c: Context): Context
    requires c.queue != []
  {
    var e := c.queue[0];
    Emit(c, IFrame(c.vs, c.vr, e)).(
      queue := c.queue[1..],
      sent := c.sent[c.vs := e],
      replayed := c.replayed - {c.vs},
      vs := Increment(c, c.vs))
  }

  function DrainQueue(c: Context): Context
    decreases |c.queue|
  {
    if c.queue != [] && CanTransmit(c) then DrainQueue(Transmit(c)) else c
  }

  function Pruned(c: Context): map<nat, Entry> {
    map ns | ns in c.sent && IsOutstanding(c, ns) :: c.sent[ns]
  }

  function AdvanceVa(c: Context, nr: nat): Context {
    var moved := c.(va := nr);
    if nr == c.va then moved else moved.(replayed := {}, sent := Pruned(moved))
  }

  /** Resend the stored frame `ns` under its original number. */
  function Replay(c: Context, ns: nat): Context {
    if ns in c.sent then Emit(c, IFrame(ns, c.vr, c.sent[ns])) else c
  }

  function ReplaySelectively(c: Context, ns: nat): Context {
    if !IsOutstanding(c, ns) || ns in c.replayed then c
    else Replay(c.(replayed := c.replayed + {ns}), ns)
  }

  function Indicate(c: Context, e: Entry): Context {
    c.(delivered := c.delivered + [e], vr := Increment(c, c.vr))
  }

  /** Deliver the stored frames that have become in-sequence. */
  function DrainStored(c: Context): Context
    decreases |c.stored|
  {
    if c.vr in c.stored then
      var e := c.stored[c.vr];
      assert |c.stored - {c.vr}| < |c.stored| by { Shrinks(c.stored, c.vr); }
      DrainStored(Indicate(c.(stored := c.stored - {c.vr}), e))
    else c
  }

  lemma Shrinks<K, V>(m: map<K, V>, k: K)
    requires k in m
    ensures |m - {k}| < |m|
  {
    assert (m - {k}).Keys == m.Keys - {k};
    assert |m.Keys - {k}| < |m.Keys|;
  }

  /** The receive path of an I frame's payload: in sequence, in window, or discarded. */
  function TakeData(c: Context, ns: nat, e: Entry): Context {
    if ns == c.vr then DrainStored(Indicate(c, e))
    else if c.config.srejEnabled && InReceiveWindow(c, ns) then c.(stored := c.stored[ns := e])
    else c
  }

  /** The acknowledgement carried by a frame, applied when it is valid. */
  function TakeAck(c: Context, nr: nat): Context {
    if ValidNr(c, nr) then AdvanceVa(c, nr) else c
  }

  function OnFrame(c: Context, f: Frame): Context {
    match f
    case IFrame(ns, nr, e) => if ValidNr(c, nr) then TakeData(AdvanceVa(c, nr), ns, e) else c
    case Supervisory(nr) => TakeAck(c, nr)
    case Srej(nr) => ReplaySelectively(c, nr)
  }

  // ---- What the gates let through --------------------------------------------------------------------------

  /** To a busy peer nothing is transmitted, whatever is queued. */
  lemma BusyHolds(c: Context)
    requires c.peerBusy
    ensures DrainQueue(c) == c
  {
  }

  /** What a drain of the queue leaves alone, whoever it is to. */
  predicate SameReceiver(c: Context, d: Context) {
    d.config == c.config && d.va == c.va && d.vr == c.vr && d.peerBusy == c.peerBusy && d.stored == c.stored
    && d.delivered == c.delivered
  }

  /**
   * To one that is not busy, as many of the queued payloads leave, in order and numbered from V(s) on, as it takes to
   * empty the queue or to fill the window, and no more.
   */
  lemma {:induction false} DrainFills(c: Context)
    requires !c.peerBusy
    ensures var d := DrainQueue(c);
            && (d.queue == [] || Outstanding(d) >= EffectiveWindow(d.config)) && SameReceiver(c, d)
            && |d.queue| <= |c.queue| && d.queue == c.queue[|c.queue| - |d.queue|..]
            && |d.outbox| == |c.outbox| + |c.queue| - |d.queue| && c.outbox <= d.outbox
    ensures forall i :: 0 <= i < |c.queue| - |DrainQueue(c).queue| ==> NextLeaves(c, DrainQueue(c), i)
    decreases |c.queue|
  {
    if c.queue != [] && CanTransmit(c) {
      DrainFills(Transmit(c));
      forall i | 0 <= i < |c.queue| - |DrainQueue(c).queue| ensures NextLeaves(c, DrainQueue(c), i) {
        LeavesFromNext(c, DrainQueue(c), i);
      }
    }
  }

  /** The `i`th payload queued leaves as the `i`th frame. */
  predicate NextLeaves(c: Context, d: Context, i: nat) {
    i < |c.queue| && |c.outbox| + i < |d.outbox|
    && d.outbox[|c.outbox| + i] == IFrame(NumberAfter(c, i), c.vr, c.queue[i])
  }

  lemma LeavesFromNext(c: Context, d: Context, i: nat)
    requires i < |c.queue| && Transmit(c).outbox <= d.outbox && (i > 0 ==> NextLeaves(Transmit(c), d, i - 1))
    ensures NextLeaves(c, d, i)
  {
    if i == 0 {
      assert d.outbox[|c.outbox|] == Transmit(c).outbox[|c.outbox|];
    } else {
      NumberFromNext(c, i);
    }
  }

  /** The number `i` places after V(s). */
  function NumberAfter(c: Context, i: nat): nat {
    if i == 0 then c.vs else Increment(c, NumberAfter(c, i - 1))
  }

  lemma {:induction false} NumberFromNext(c: Context, i: nat)
    requires i >= 1 && c.queue != []
    ensures NumberAfter(Transmit(c), i - 1) == NumberAfter(c, i)
  {
    if i > 1 {
      NumberFromNext(c, i - 1);
    }
  }
}
