/**
 * The window bound is exact: a pair of configurations is safe in every run if and only if no receiver that
 * stores out-of-sequence frames has a window which, with its peer's, exceeds the modulus.
 */
module Ax25Necessity {
  import opened Ax25Window
  import opened Ax25Link
  import opened Ax25Invariant
  import opened Ax25Safety

  predicate Safe(s: Link) {
    s.b.c.delivered <= s.a.accepted && s.a.c.delivered <= s.b.accepted
  }

  lemma {:induction false} RunAppend(s: Link, acts: seq<Action>, more: seq<Action>)
    ensures Run(s, acts + more) == Run(Run(s, acts), more)
  {
    if more == [] {
      assert acts + more == acts;
    } else {
      assert (acts + more)[..|acts + more| - 1] == acts + more[..|more| - 1];
      RunAppend(s, acts, more[..|more| - 1]);
    }
  }

  lemma RunOne(s: Link, p: Action)
    ensures Run(s, [p]) == Do(s, p)
  {
    assert [p][..0] == [];
    assert Run(s, [p]) == Do(Run(s, [p][..0]), p);
  }

  lemma RunTwo(s: Link, p: Action, q: Action)
    ensures Run(s, [p, q]) == Do(Do(s, p), q)
  {
    RunOne(s, p);
    assert [p, q][..1] == [p];
  }

  const PAYLOAD := Entry([], 0)

  // ---- A run that fails when the windows overlap -----------------------------------------------------------

  /** Both ends are quiet, `n` frames have gone from a to b, b has acknowledged `acked` of them. */
  predicate Quiet(s: Link, a: Config, b: Config, n: nat, acked: nat) {
    && s.a.c.config == a && s.b.c.config == b
    && s.a.c.vs == n && s.a.c.va == acked && s.a.c.vr == 0
    && !s.a.c.peerBusy && s.a.c.queue == [] && s.a.c.outbox == [] && |s.a.accepted| == n
    && s.b.c.vs == 0 && s.b.c.va == 0 && s.b.c.vr == n
    && s.b.c.queue == [] && s.b.c.outbox == [] && |s.b.c.delivered| == n
  }

  /** One frame from a is transmitted and delivered in sequence. */
  lemma OneFrame(s: Link, a: Config, b: Config, n: nat, acked: nat)
    requires a.extended == b.extended && Quiet(s, a, b, n, acked) && acked <= n < Modulus(a) - 1
    requires n - acked < SendWindow(a) && (n + 1) !in s.b.c.stored
    ensures var s' := Do(Do(s, Action(A, Request(PAYLOAD))), Action(B, Deliver));
            && Quiet(s', a, b, n + 1, acked) && s'.b.c.stored == s.b.c.stored
            && s'.a.c.sent == s.a.c.sent[n := PAYLOAD]
  {
    RequestSends(s.a.c, Modulus(a), n, acked);
    var s1 := Do(s, Action(A, Request(PAYLOAD)));
    InSequence(s.b.c, Modulus(a), n);
    assert s1.a.c.outbox[0] == IFrame(n, 0, PAYLOAD);
  }

  /** With room in the window and an empty queue, a requested payload is transmitted at once. */
  lemma RequestSends(c: Context, m: nat, n: nat, acked: nat)
    requires m == Modulus(c.config) && c.vs == n && c.va == acked <= n < m && c.vr == 0
    requires !c.peerBusy && c.queue == [] && c.outbox == [] && n - acked < SendWindow(c.config)
    ensures DrainQueue(c.(queue := c.queue + [PAYLOAD]))
         == c.(vs := (n + 1) % m, sent := c.sent[n := PAYLOAD], replayed := c.replayed - {n},
               outbox := [IFrame(n, 0, PAYLOAD)])
  {
    DistanceAhead(n, acked, m);
    var asked := c.(queue := c.queue + [PAYLOAD]);
    assert asked.queue == [PAYLOAD];
    DrainOne(asked);
    TransmitIs(asked, m, n);
  }

  lemma TransmitIs(c: Context, m: nat, n: nat)
    requires m == Modulus(c.config) && c.vs == n < m && c.vr == 0 && c.queue == [PAYLOAD] && c.outbox == []
    ensures Transmit(c)
         == c.(vs := (n + 1) % m, sent := c.sent[n := PAYLOAD], replayed := c.replayed - {n}, queue := [],
               outbox := [IFrame(n, 0, PAYLOAD)])
  {
    assert c.queue[1..] == [];
  }

  lemma DrainOne(c: Context)
    requires |c.queue| == 1 && CanTransmit(c)
    ensures DrainQueue(c) == Transmit(c) && Transmit(c).queue == []
  {
    assert Transmit(c).queue == [];
    assert DrainQueue(Transmit(c)) == Transmit(c);
  }

  /** A frame with N(S) = V(r) is delivered, and with the next number not stored, alone. */
  lemma InSequence(c: Context, m: nat, n: nat)
    requires m == Modulus(c.config) && c.va == 0 && c.vs == 0 && c.vr == n && n + 1 < m
    requires (n + 1) !in c.stored && c.queue == []
    ensures DrainQueue(OnFrame(c, IFrame(n, 0, PAYLOAD)))
         == c.(vr := n + 1, delivered := c.delivered + [PAYLOAD])
  {
  }

  /** `n` frames go through unacknowledged. */
  lemma {:induction false} SendMany(a: Config, b: Config, n: nat) returns (acts: seq<Action>)
    requires a.extended == b.extended && n <= SendWindow(a) && n < Modulus(a)
    ensures var s := Run(Start(a, b), acts);
            Quiet(s, a, b, n, 0) && s.b.c.stored == map[] && (n > 0 ==> 0 in s.a.c.sent && s.a.c.sent[0] == PAYLOAD)
  {
    acts := [];
    if n > 0 {
      var before := SendMany(a, b, n - 1);
      var round := [Action(A, Request(PAYLOAD)), Action(B, Deliver)];
      acts := before + round;
      RunAppend(Start(a, b), before, round);
      RunTwo(Run(Start(a, b), before), round[0], round[1]);
      OneFrame(Run(Start(a, b), before), a, b, n - 1, 0);
    }
  }

  /** Resending frame 0 once b has moved on makes b store it as if it were a frame still to come. */
  lemma StaleIsStored(s: Link, a: Config, b: Config, n: nat)
    requires a.extended == b.extended && b.srejEnabled && Quiet(s, a, b, n, 0) && s.b.c.stored == map[]
    requires 0 < n < Modulus(a) && Modulus(a) - n < SendWindow(b)
    requires 0 in s.a.c.sent && s.a.c.sent[0] == PAYLOAD
    ensures var s' := Do(Do(s, Action(A, Resend(0))), Action(B, Deliver));
            Quiet(s', a, b, n, 0) && s'.b.c.stored == map[0 := PAYLOAD]
  {
    StaleIsTaken(s.b.c, Modulus(a), n);
    assert s.b.c.stored[0 := PAYLOAD] == map[0 := PAYLOAD];
  }

  /** A frame numbered 0 that lies in the receive window, though not next, is stored. */
  lemma StaleIsTaken(c: Context, m: nat, n: nat)
    requires m == Modulus(c.config) && c.config.srejEnabled && c.va == 0 && c.vs == 0 && c.vr == n && c.queue == []
    requires 0 < n < m && m - n < SendWindow(c.config)
    ensures DrainQueue(OnFrame(c, IFrame(0, 0, PAYLOAD))) == c.(stored := c.stored[0 := PAYLOAD])
  {
    StaleDistance(n, m);
    assert OnFrame(c, IFrame(0, 0, PAYLOAD)) == TakeData(c, 0, PAYLOAD);
  }

  lemma StaleDistance(n: nat, m: nat)
    requires 0 < n < m
    ensures Distance(0, n, m) == m - n && Distance(0, 0, m) == 0
  {
    assert (0 - n + m) % m == m - n;
  }

  lemma Acked(s: Link, a: Config, b: Config, n: nat, acked: nat)
    requires a.extended == b.extended && Quiet(s, a, b, n, acked) && acked <= n < Modulus(a)
    ensures var s' := Do(Do(s, Action(B, Acknowledge)), Action(A, Deliver));
            Quiet(s', a, b, n, n) && s'.b.c.stored == s.b.c.stored
  {
  }

  /** From `n` frames delivered and acknowledged, go on to `goal`, acknowledging each. */
  lemma {:induction false} SendAcked(s: Link, a: Config, b: Config, n: nat, goal: nat) returns (acts: seq<Action>)
    requires a.extended == b.extended && Quiet(s, a, b, n, n) && 0 < n <= goal < Modulus(a)
    requires SendWindow(a) > 0 && s.b.c.stored.Keys == {0}
    ensures var s' := Run(s, acts); Quiet(s', a, b, goal, goal) && s'.b.c.stored == s.b.c.stored
    decreases goal - n
  {
    acts := [];
    if n < goal {
      var send := [Action(A, Request(PAYLOAD)), Action(B, Deliver)];
      var ack := [Action(B, Acknowledge), Action(A, Deliver)];
      var sent := Run(s, send);
      RunTwo(s, send[0], send[1]);
      OneFrame(s, a, b, n, n);
      RunTwo(sent, ack[0], ack[1]);
      Acked(sent, a, b, n + 1, n);
      var rest := SendAcked(Run(sent, ack), a, b, n + 1, goal);
      acts := send + (ack + rest);
      RunAppend(s, send, ack + rest);
      RunAppend(sent, ack, rest);
    }
  }

  /** The last frame of the ring brings V(r) round to 0, and the stale frame is delivered as new. */
  lemma StaleIsDelivered(s: Link, a: Config, b: Config)
    requires a.extended == b.extended && SendWindow(a) > 0 && s.b.c.stored == map[0 := PAYLOAD]
    requires Quiet(s, a, b, Modulus(a) - 1, Modulus(a) - 1)
    ensures var s' := Do(Do(s, Action(A, Request(PAYLOAD))), Action(B, Deliver));
            |s'.b.c.delivered| == |s'.a.accepted| + 1
  {
    var m := Modulus(a);
    RequestSends(s.a.c, m, m - 1, m - 1);
    var c1 := Indicate(s.b.c, PAYLOAD);
    assert c1.vr == 0;
    Shrinks(c1.stored, 0);
    assert c1.stored - {0} == map[];
    var c2 := Indicate(c1.(stored := map[]), PAYLOAD);
    assert DrainStored(c2) == c2;
    assert DrainStored(c1) == c2;
  }

  /** With overlapping windows there is a run in which b delivers something a was never asked to send. */
  lemma OverlapIsUnsafe(a: Config, b: Config) returns (acts: seq<Action>)
    requires a.extended == b.extended && !Unambiguous(a, b)
    ensures !Safe(Run(Start(a, b), acts))
  {
    var m := Modulus(a);
    var n := m - SendWindow(b) + 1;
    var s0 := Start(a, b);
    var first := SendMany(a, b, n);
    var s1 := Run(s0, first);
    var stale := [Action(A, Resend(0)), Action(B, Deliver)];
    RunTwo(s1, stale[0], stale[1]);
    StaleIsStored(s1, a, b, n);
    var s2 := Run(s1, stale);
    var ack := [Action(B, Acknowledge), Action(A, Deliver)];
    RunTwo(s2, ack[0], ack[1]);
    Acked(s2, a, b, n, 0);
    var s3 := Run(s2, ack);
    var more := SendAcked(s3, a, b, n, m - 1);
    var s4 := Run(s3, more);
    var last := [Action(A, Request(PAYLOAD)), Action(B, Deliver)];
    RunTwo(s4, last[0], last[1]);
    StaleIsDelivered(s4, a, b);
    acts := first + (stale + (ack + (more + last)));
    RunAppend(s0, first, stale + (ack + (more + last)));
    RunAppend(s1, stale, ack + (more + last));
    RunAppend(s2, ack, more + last);
    RunAppend(s3, more, last);
  }

  // ---- Both directions -------------------------------------------------------------------------------------

  function Mirror(s: Link): Link {
    Link(s.b, s.a)
  }

  function MirrorActs(acts: seq<Action>): seq<Action> {
    if acts == [] then []
    else
      var last := acts[|acts| - 1];
      MirrorActs(acts[..|acts| - 1]) + [Action(if last.side == A then B else A, last.step)]
  }

  lemma {:induction false} MirrorRun(s: Link, acts: seq<Action>)
    ensures Run(Mirror(s), MirrorActs(acts)) == Mirror(Run(s, acts))
  {
    if acts != [] {
      MirrorRun(s, acts[..|acts| - 1]);
      var mirrored := MirrorActs(acts);
      assert mirrored[..|mirrored| - 1] == MirrorActs(acts[..|acts| - 1]);
    }
  }

  /** Two stations on the same modulus are safe in every run exactly when their windows are unambiguous. */
  lemma SafeIffUnambiguous(a: Config, b: Config)
    requires a.extended == b.extended
    ensures Agreed(a, b) <==> forall acts :: Safe(Run(Start(a, b), acts))
  {
    if Agreed(a, b) {
      forall acts ensures Safe(Run(Start(a, b), acts)) {
        var s := Run(Start(a, b), acts);
        DeliveredIsPrefix(a, b, acts, s.a, s.b);
        DeliveredIsPrefix(a, b, acts, s.b, s.a);
      }
    } else if !Unambiguous(a, b) {
      var acts := OverlapIsUnsafe(a, b);
    } else {
      var acts := OverlapIsUnsafe(b, a);
      MirrorRun(Start(b, a), acts);
      assert Mirror(Start(b, a)) == Start(a, b);
      assert !Safe(Run(Start(a, b), MirrorActs(acts)));
    }
  }
}
