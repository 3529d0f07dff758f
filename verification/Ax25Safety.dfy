/**
 * What every run of an AX.25 link with unambiguous windows guarantees.
 *
 *   DeliveredIsPrefix   each end delivers an in-order prefix of what the other was asked to send;
 *   NoSequenceError     every N(R) that arrives is within V(a)..V(s), and every N(S) accepted, stored or drained
 *                       names the payload sent under it;
 *   StoreIsExact        the retransmission store holds exactly the outstanding frames, at most one window.
 */
module Ax25Safety {
  import opened Common
  import opened Ax25Window
  import opened Ax25Link
  import opened Ax25Invariant

  /** The direction from `x` to `y`. */
  ghost predicate Flow(x: Station, y: Station, g: Track) {
    var m, w := Modulus(x.c.config), SendWindow(x.c.config);
    && CountsOk(g, w)
    && SendingOk(x.c, g, m)
    && ReceivingOk(y.c, g, m)
    && FramesOk(x.c.outbox, g, m, w)
    && AcksOk(y.c.outbox, g, m)
  }

  ghost predicate Inv(x: Station, y: Station, g: Track, h: Track) {
    Agreed(x.c.config, y.c.config) && Flow(x, y, g) && Flow(y, x, h)
  }

  /** What x's own steps leave alone. */
  ghost predicate Local(x: Station, c: Context, g: Track, h: Track, g': Track, h': Track) {
    && c.config == x.c.config
    && g'.fs == g.fs && g'.base == g.base && g'.received == g.received && g'.high == g.high && g'.acks == g.acks
    && h' == h.(acks := h'.acks)
  }

  lemma EmitKeeps(x: Station, y: Station, g: Track, h: Track, f: Frame, k: nat) returns (g': Track, h': Track)
    requires Inv(x, y, g, h)
    requires f.IFrame? ==> g.base <= k && IsData(f, g.fs, g.sent, Modulus(x.c.config), k)
    requires CarriesAck(f) ==> f.nr == x.c.vr
    ensures Inv(With(x, Emit(x.c, f)), y, g', h')
    ensures Local(x, Emit(x.c, f), g, h, g', h')
  {
    g', h' := g.(frames := g.frames + [k]), h.(acks := h.acks + [h.received]);
    FramesAppend(x.c.outbox, g, Modulus(x.c.config), SendWindow(x.c.config), f, k);
    AcksAppend(x.c.outbox, h, Modulus(x.c.config), f);
  }

  lemma TransmitKeeps(x: Station, y: Station, g: Track, h: Track) returns (g': Track, h': Track)
    requires Inv(x, y, g, h) && x.c.queue != [] && CanTransmit(x.c)
    ensures Inv(With(x, Transmit(x.c)), y, g', h')
    ensures Local(x, Transmit(x.c), g, h, g', h')
  {
    var m, w := Modulus(x.c.config), SendWindow(x.c.config);
    OutstandingIs(x.c, g, w);
    TransmitOk(x.c, g, w);
    FramesGrow(x.c.outbox, g, m, w, [], g.sent + 1);
    assert g.fs + [] == g.fs;
    var sent := Transmit(x.c).(outbox := x.c.outbox);
    assert Inv(With(x, sent), y, g.(sent := g.sent + 1), h);
    g', h' := EmitKeeps(With(x, sent), y, g.(sent := g.sent + 1), h, IFrame(x.c.vs, x.c.vr, x.c.queue[0]), g.sent);
  }

  lemma {:induction false} DrainQueueKeeps(x: Station, y: Station, g: Track, h: Track)
    returns (g': Track, h': Track)
    requires Inv(x, y, g, h)
    ensures Inv(With(x, DrainQueue(x.c)), y, g', h')
    ensures Local(x, DrainQueue(x.c), g, h, g', h')
    decreases |x.c.queue|
  {
    g', h' := g, h;
    if x.c.queue != [] && CanTransmit(x.c) {
      g', h' := TransmitKeeps(x, y, g, h);
      g', h' := DrainQueueKeeps(With(x, Transmit(x.c)), y, g', h');
    }
  }

  lemma ReplayKeeps(x: Station, y: Station, g: Track, h: Track, ns: nat) returns (g': Track, h': Track)
    requires Inv(x, y, g, h)
    ensures Inv(With(x, Replay(x.c, ns)), y, g', h')
    ensures Local(x, Replay(x.c, ns), g, h, g', h')
  {
    g', h' := g, h;
    if ns in x.c.sent {
      ReplayOk(x.c, g, SendWindow(x.c.config), ns);
      g', h' := EmitKeeps(x, y, g, h, IFrame(ns, x.c.vr, x.c.sent[ns]), Pos(g.base, ns, Modulus(x.c.config)));
    }
  }

  // ---- Arriving frames -------------------------------------------------------------------------------------

  /** What is known of the frame `f` just taken off y's channel: its position `k`, its acknowledgement `a`. */
  ghost predicate Taken(y: Station, g: Track, h: Track, f: Frame, k: nat, a: nat) {
    var m, w := Modulus(y.c.config), SendWindow(y.c.config);
    && (f.IFrame? ==> IsData(f, h.fs, h.sent, m, k) && h.high <= k + w && FollowsOk(y.c.outbox, h.frames, w, k))
    && (CarriesAck(f) ==> f.nr == a % m)
    && g.base <= a <= g.received
    && AllNotBelow(g.acks, a)
  }

  lemma TakeKeeps(x: Station, y: Station, g: Track, h: Track) returns (g': Track, h': Track, k: nat, a: nat)
    requires Inv(x, y, g, h) && y.c.outbox != []
    ensures Inv(x, Popped(y), g', h') && Taken(Popped(y), g', h', y.c.outbox[0], k, a)
    ensures g'.fs == g.fs && h'.fs == h.fs
  {
    var m, w := Modulus(y.c.config), SendWindow(y.c.config);
    k, a := h.frames[0], g.acks[0];
    g', h' := g.(acks := g.acks[1..]), h.(frames := h.frames[1..]);
    FramesPop(y.c.outbox, h, m, w);
    AcksPop(y.c.outbox, g, m);
  }

  lemma AckKeeps(x: Station, y: Station, g: Track, h: Track, a: nat) returns (g': Track)
    requires Inv(x, y, g, h) && g.base <= a <= g.received && AllNotBelow(g.acks, a)
    ensures g' == g.(base := a)
    ensures ValidNr(x.c, a % Modulus(x.c.config))
    ensures Inv(With(x, AdvanceVa(x.c, a % Modulus(x.c.config))), y, g', h)
  {
    g' := g.(base := a);
    AckOk(x.c, g, SendWindow(x.c.config), a);
    AcksRaise(y.c.outbox, g, Modulus(x.c.config), a);
  }

  lemma DataKeeps(x: Station, y: Station, g: Track, h: Track, ns: nat, k: nat) returns (h': Track)
    requires Inv(x, y, g, h)
    requires k < h.sent && ns == k % Modulus(y.c.config) && h.high <= k + SendWindow(y.c.config)
    requires FollowsOk(y.c.outbox, h.frames, SendWindow(y.c.config), k)
    ensures Inv(With(x, TakeData(x.c, ns, h.fs[k])), y, g, h')
    ensures h'.fs == h.fs
  {
    var m, w := Modulus(y.c.config), SendWindow(y.c.config);
    var received := TakeDataOk(x.c, h, w, ns, k);
    h' := h.(received := received, high := Max(h.high, k + 1));
    TakeDataSends(x.c, ns, h.fs[k]);
    FramesTake(y.c.outbox, h, m, w, k);
    AcksLoosen(x.c.outbox, h, m, received);
  }

  /** Taking data in touches nothing the sending side reads. */
  lemma TakeDataSends(c: Context, ns: nat, e: Entry)
    ensures var d := TakeData(c, ns, e);
            && d.config == c.config && d.vs == c.vs && d.va == c.va && d.queue == c.queue
            && d.sent == c.sent && d.outbox == c.outbox
  {
    DrainStoredSends(Indicate(c, e));
  }

  lemma {:induction false} DrainStoredSends(c: Context)
    ensures var d := DrainStored(c);
            && d.config == c.config && d.vs == c.vs && d.va == c.va && d.queue == c.queue
            && d.sent == c.sent && d.outbox == c.outbox
    decreases |c.stored|
  {
    if c.vr in c.stored {
      Shrinks(c.stored, c.vr);
      DrainStoredSends(Indicate(c.(stored := c.stored - {c.vr}), c.stored[c.vr]));
    }
  }

  lemma FrameKeeps(x: Station, y: Station, g: Track, h: Track, f: Frame, k: nat, a: nat)
    returns (g': Track, h': Track)
    requires Inv(x, y, g, h) && Taken(y, g, h, f, k, a)
    ensures Inv(With(x, OnFrame(x.c, f)), y, g', h')
    ensures g'.fs == g.fs && h'.fs == h.fs
  {
    g', h' := g, h;
    match f {
      case IFrame(ns, nr, e) =>
        g' := AckKeeps(x, y, g, h, a);
        h' := DataKeeps(With(x, AdvanceVa(x.c, nr)), y, g', h, ns, k);
      case Supervisory(nr) => g' := AckKeeps(x, y, g, h, a);
      case Srej(nr) =>
        if IsOutstanding(x.c, nr) && nr !in x.c.replayed {
          var marked := x.c.(replayed := x.c.replayed + {nr});
          assert Inv(With(x, marked), y, g, h);
          g', h' := ReplayKeeps(With(x, marked), y, g, h, nr);
        }
    }
  }

  // ---- Actions and runs ------------------------------------------------------------------------------------

  function Requests(step: Step): seq<Entry> {
    if step.Request? then [step.e] else []
  }

  lemma RequestKeeps(x: Station, y: Station, g: Track, h: Track, e: Entry) returns (g': Track, h': Track)
    requires Inv(x, y, g, h)
    ensures Inv(With(x, x.c.(queue := x.c.queue + [e])), y, g', h')
    ensures g'.fs == g.fs + [e] && h' == h
  {
    var m, w := Modulus(x.c.config), SendWindow(x.c.config);
    g', h' := g.(fs := g.fs + [e]), h;
    MoreOk(x.c, g, w, e);
    MoreReceivable(y.c, g, e);
    FramesGrow(x.c.outbox, g, m, w, [e], g.sent);
  }

  lemma LoseKeeps(x: Station, y: Station, g: Track, h: Track, n: nat) returns (g': Track, h': Track)
    requires Inv(x, y, g, h) && n < |x.c.outbox|
    ensures Inv(With(x, x.c.(outbox := RemoveAt(x.c.outbox, n))), y, g', h')
    ensures g'.fs == g.fs && h'.fs == h.fs
  {
    g', h' := g.(frames := RemoveAt(g.frames, n)), h.(acks := RemoveAt(h.acks, n));
    FramesRemove(x.c.outbox, g, Modulus(x.c.config), SendWindow(x.c.config), n);
    AcksRemove(x.c.outbox, h, Modulus(x.c.config), n);
  }

  lemma ActKeeps(x: Station, y: Station, g: Track, h: Track, step: Step) returns (g': Track, h': Track)
    requires Inv(x, y, g, h)
    ensures var (x', y') := Act(x, y, step);
            && Inv(x', y', g', h') && g'.fs == g.fs + Requests(step) && h'.fs == h.fs
            && x'.accepted == x.accepted + Requests(step) && y'.accepted == y.accepted
  {
    g', h' := g, h;
    assert g.fs + [] == g.fs && x.accepted + [] == x.accepted;
    match step {
      case Request(e) =>
        g', h' := RequestKeeps(x, y, g, h, e);
        g', h' := DrainQueueKeeps(With(x, x.c.(queue := x.c.queue + [e])), y, g', h');
      case SetBusy(busy) =>
        var c := x.c.(peerBusy := busy);
        assert Inv(With(x, c), y, g, h);
        g', h' := DrainQueueKeeps(With(x, c), y, g, h);
      case Acknowledge => g', h' := EmitKeeps(x, y, g, h, Supervisory(x.c.vr), 0);
      case Reject(nr) => g', h' := EmitKeeps(x, y, g, h, Srej(nr), 0);
      case Resend(ns) => g', h' := ReplayKeeps(x, y, g, h, ns);
      case Deliver =>
        if y.c.outbox != [] {
          var k, a;
          g', h', k, a := TakeKeeps(x, y, g, h);
          g', h' := FrameKeeps(x, Popped(y), g', h', y.c.outbox[0], k, a);
          g', h' := DrainQueueKeeps(With(x, OnFrame(x.c, y.c.outbox[0])), Popped(y), g', h');
        }
      case Lose(n) => if n < |x.c.outbox| { g', h' := LoseKeeps(x, y, g, h, n); }
    }
  }

  lemma StartInv(a: Config, b: Config)
    requires Agreed(a, b)
    ensures var s := Start(a, b); Inv(s.a, s.b, START, START)
  {
    FreshFlow(a, b);
    FreshFlow(b, a);
  }

  lemma FreshFlow(a: Config, b: Config)
    requires a.extended == b.extended
    ensures Flow(Station(Fresh(a), []), Station(Fresh(b), []), START)
  {
    var m := Modulus(a);
    forall key: nat ensures KeptAt(Fresh(a).sent, [], 0, 0, m, key) {
      if key < m {
        PosOnRing(0, key, m);
      }
    }
  }

  lemma {:induction false} RunKeeps(a: Config, b: Config, acts: seq<Action>) returns (g: Track, h: Track)
    requires Agreed(a, b)
    ensures var s := Run(Start(a, b), acts);
            Inv(s.a, s.b, g, h) && g.fs == s.a.accepted && h.fs == s.b.accepted
  {
    if acts == [] {
      StartInv(a, b);
      g, h := START, START;
    } else {
      var s := Run(Start(a, b), acts[..|acts| - 1]);
      g, h := RunKeeps(a, b, acts[..|acts| - 1]);
      var act := acts[|acts| - 1];
      if act.side == A {
        g, h := ActKeeps(s.a, s.b, g, h, act.step);
      } else {
        h, g := ActKeeps(s.b, s.a, h, g, act.step);
      }
    }
  }

  // ---- What every run guarantees ---------------------------------------------------------------------------

  /** `x` is one end of the link and `y` the other. */
  predicate Facing(s: Link, x: Station, y: Station) {
    (x == s.a && y == s.b) || (x == s.b && y == s.a)
  }

  lemma FacingInv(a: Config, b: Config, acts: seq<Action>, x: Station, y: Station) returns (g: Track, h: Track)
    requires Agreed(a, b) && Facing(Run(Start(a, b), acts), x, y)
    ensures Inv(x, y, g, h) && g.fs == x.accepted && h.fs == y.accepted
  {
    g, h := RunKeeps(a, b, acts);
    if x != Run(Start(a, b), acts).a || y != Run(Start(a, b), acts).b {
      g, h := h, g;
    }
  }

  /** Safety: delivery at one end is an in-order prefix of what layer 3 at the other asked to send. */
  lemma DeliveredIsPrefix(a: Config, b: Config, acts: seq<Action>, x: Station, y: Station)
    requires Agreed(a, b) && Facing(Run(Start(a, b), acts), x, y)
    ensures y.c.delivered <= x.accepted
  {
    var g, h := FacingInv(a, b, acts, x, y);
  }

  /** Every acknowledgement that arrives is valid: the N(R) error is never raised. */
  lemma NoSequenceError(a: Config, b: Config, acts: seq<Action>, x: Station, y: Station)
    requires Agreed(a, b) && Facing(Run(Start(a, b), acts), x, y)
    requires y.c.outbox != [] && !y.c.outbox[0].Srej?
    ensures ValidNr(x.c, y.c.outbox[0].nr)
  {
    var g, h := FacingInv(a, b, acts, x, y);
    var g1, h1, k, ack := TakeKeeps(x, y, g, h);
    var g2 := AckKeeps(x, Popped(y), g1, h1, ack);
  }

  /**
   * The retransmission store holds exactly the outstanding numbers, V(a)..V(s)-1, no more than the window of
   * them, each with a payload the peer has still to acknowledge; and a receiver with nothing outstanding at the
   * sender has delivered everything.
   */
  lemma StoreIsExact(a: Config, b: Config, acts: seq<Action>, x: Station, y: Station)
    requires Agreed(a, b) && Facing(Run(Start(a, b), acts), x, y)
    ensures forall ns: nat :: ns < Modulus(x.c.config) ==> (ns in x.c.sent <==> IsOutstanding(x.c, ns))
    ensures forall ns: nat :: ns in x.c.sent ==> ns < Modulus(x.c.config) && x.c.sent[ns] in x.accepted
    ensures Outstanding(x.c) <= SendWindow(x.c.config) < Modulus(x.c.config)
    ensures Outstanding(x.c) == 0 && x.c.queue == [] ==> y.c.delivered == x.accepted
  {
    var g, h := FacingInv(a, b, acts, x, y);
    OutstandingIs(x.c, g, SendWindow(x.c.config));
    StoreIs(x.c, g);
    assert g.fs[..|g.fs|] == g.fs;
  }

  lemma StoreIs(c: Context, g: Track)
    requires SendingOk(c, g, Modulus(c.config)) && Outstanding(c) == g.sent - g.base
    ensures forall ns: nat :: ns < Modulus(c.config) ==> (ns in c.sent <==> IsOutstanding(c, ns))
    ensures forall ns: nat :: ns in c.sent ==> ns < Modulus(c.config) && c.sent[ns] in g.fs
  {
    var m := Modulus(c.config);
    forall ns: nat ensures ns < m ==> (ns in c.sent <==> IsOutstanding(c, ns))
      ensures ns in c.sent ==> ns < m && c.sent[ns] in g.fs
    {
      assert KeptAt(c.sent, g.fs, g.base, g.sent, m, ns);
      if ns < m {
        PosOnRing(g.base, ns, m);
      }
    }
  }
}
