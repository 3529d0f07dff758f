/**
 * The inductive invariant of one direction of a circuit pair, and the proof that each elementary step keeps it.
 *
 * Sequence numbers on the wire are one octet. A `Track` gives each of them the unbounded position it stands for
 * in the list of all fragments ever accepted at the sending end; the invariant bounds those positions so that
 * the octet determines the position.
 */
module CircuitInvariant {
  import opened Common
  import opened CircuitSpec
  import opened CircuitPair

  /**
   * One direction: all fragments accepted for sending, the first one not yet acknowledged, the number
   * transmitted, the number the receiver has taken, its reassembly state after each of those, the position
   * carried by each datagram in the sender's channel, and the acknowledgement carried by each datagram in the
   * receiver's channel.
   */
  datatype Track = Track(
    fs: seq<Fragment>,
    base: nat,
    sent: nat,
    received: nat,
    history: seq<Assembly>,
    frames: seq<nat>,
    acks: seq<nat>)

  const START := Track([], 0, 0, 0, [EMPTY], [], [])

  /** The largest window either end can negotiate. */
  const REACH := 127

  predicate Holds(u: Unacked, f: Fragment, k: nat) {
    u.sequence == k % MODULUS && u.payload == f.bytes && u.moreFollows == f.moreFollows
  }

  predicate HoldsAt(us: seq<Unacked>, fs: seq<Fragment>, base: nat, i: nat) {
    i < |us| && base + i < |fs| && Holds(us[i], fs[base + i], base + i)
  }

  predicate CountsOk(g: Track) {
    g.base <= g.received <= g.sent <= |g.fs| && g.sent <= g.received + REACH
  }

  /** A connected sender: the in-flight list is exactly the positions base..sent, the queue the rest. */
  predicate SendingOk(tx: SendSide, window: int, g: Track)
    requires CountsOk(g)
  {
    && window <= REACH
    && |tx.unacked| == g.sent - g.base
    && (|tx.unacked| == 0 || |tx.unacked| <= window)
    && tx.vs == g.sent % MODULUS
    && tx.va == g.base % MODULUS
    && tx.queue == g.fs[g.sent..]
    && forall i {:trigger HoldsAt(tx.unacked, g.fs, g.base, i)} :: 0 <= i < |tx.unacked| ==>
         HoldsAt(tx.unacked, g.fs, g.base, i)
  }

  predicate HistoryAt(fs: seq<Fragment>, history: seq<Assembly>, i: nat) {
    i + 1 < |history| && i < |fs| && history[i + 1] == CircuitPair.Absorb(history[i], fs[i])
  }

  predicate ReceivingOk(rx: ReceiveSide, delivered: seq<bytes>, up: bool, g: Track) {
    && |g.history| == g.received + 1
    && g.history[0] == EMPTY
    && (forall i {:trigger HistoryAt(g.fs, g.history, i)} :: 0 <= i < g.received ==> HistoryAt(g.fs, g.history, i))
    && rx.vr == g.received % MODULUS
    && delivered == g.history[g.received].done
    && (up ==> rx.reassembly == g.history[g.received].part)
  }

  lemma {:induction false} HistoryAssembles(rx: ReceiveSide, delivered: seq<bytes>, up: bool, g: Track, n: nat)
    requires CountsOk(g) && ReceivingOk(rx, delivered, up, g) && n <= g.received
    ensures g.history[n] == Assemble(EMPTY, g.fs[..n])
  {
    if n > 0 {
      HistoryAssembles(rx, delivered, up, g, n - 1);
      assert HistoryAt(g.fs, g.history, n - 1);
      assert g.fs[..n][..n - 1] == g.fs[..n - 1];
    }
  }

  predicate IsFrame(p: Packet, fs: seq<Fragment>, sent: nat, k: nat) {
    && k < sent <= |fs|
    && p.txSequence == k % MODULUS
    && p.payload == fs[k].bytes
    && p.moreFollows == fs[k].moreFollows
  }

  predicate FrameAt(
    box: seq<Packet>, fs: seq<Fragment>, sent: nat, received: nat, frames: seq<nat>, i: nat) {
    i < |box| && i < |frames| &&
    (box[i].opcode == Information ==> IsFrame(box[i], fs, sent, frames[i]) && received <= frames[i] + REACH)
  }

  /** Frames in the channel are less than one window out of order. */
  predicate InReach(box: seq<Packet>, frames: seq<nat>, i: nat, j: nat) {
    i < j < |box| && j < |frames| &&
    (box[i].opcode == Information && box[j].opcode == Information ==> frames[i] < frames[j] + REACH)
  }

  predicate FramesOk(box: seq<Packet>, g: Track) {
    && |g.frames| == |box|
    && (forall i {:trigger FrameAt(box, g.fs, g.sent, g.received, g.frames, i)} :: 0 <= i < |box| ==>
          FrameAt(box, g.fs, g.sent, g.received, g.frames, i))
    && (forall i, j {:trigger InReach(box, g.frames, i, j)} :: 0 <= i < j < |box| ==> InReach(box, g.frames, i, j))
  }

  predicate CarriesAck(p: Packet) {
    p.opcode == Information || p.opcode == InformationAcknowledge
  }

  predicate AckAt(back: seq<Packet>, base: nat, received: nat, acks: seq<nat>, i: nat) {
    i < |back| && i < |acks| && base <= acks[i] <= received &&
    (CarriesAck(back[i]) ==> back[i].rxSequence == acks[i] % MODULUS)
  }

  predicate InOrder(acks: seq<nat>, i: nat, j: nat) {
    i < j < |acks| && acks[i] <= acks[j]
  }

  predicate AcksOk(back: seq<Packet>, g: Track) {
    && |g.acks| == |back|
    && (forall i {:trigger AckAt(back, g.base, g.received, g.acks, i)} :: 0 <= i < |back| ==>
          AckAt(back, g.base, g.received, g.acks, i))
    && (forall i, j {:trigger InOrder(g.acks, i, j)} :: 0 <= i < j < |back| ==> InOrder(g.acks, i, j))
  }

  /** A datagram at position `i` of the channel comes less than one window after position `k`. */
  predicate Follows(box: seq<Packet>, frames: seq<nat>, k: nat, i: nat) {
    i < |box| && i < |frames| && (box[i].opcode == Information ==> k < frames[i] + REACH)
  }

  /** The frames still in the channel stay within reach when the receiver takes position `k`. */
  predicate FollowsOk(box: seq<Packet>, frames: seq<nat>, k: nat) {
    |frames| == |box| &&
    forall i {:trigger Follows(box, frames, k, i)} :: 0 <= i < |box| ==> Follows(box, frames, k, i)
  }

  predicate NotBelow(acks: seq<nat>, a: nat, i: nat) {
    i < |acks| && a <= acks[i]
  }

  /** No acknowledgement still in the channel is behind `a`. */
  predicate AllNotBelow(acks: seq<nat>, a: nat) {
    forall i {:trigger NotBelow(acks, a, i)} :: 0 <= i < |acks| ==> NotBelow(acks, a, i)
  }

  // ---- Channels: appending, taking the head, losing one ----------------------------------------------------

  lemma FramesAppend(box: seq<Packet>, g: Track, p: Packet, k: nat)
    requires FramesOk(box, g) && CountsOk(g)
    requires p.opcode == Information ==> g.sent <= g.base + REACH && g.base <= k && IsFrame(p, g.fs, g.sent, k)
    ensures FramesOk(box + [p], g.(frames := g.frames + [k]))
  {
    var g' := g.(frames := g.frames + [k]);
    forall i | 0 <= i < |box + [p]| ensures FrameAt(box + [p], g'.fs, g'.sent, g'.received, g'.frames, i) {
      assert i < |box| ==> FrameAt(box, g.fs, g.sent, g.received, g.frames, i);
    }
    forall i, j | 0 <= i < j < |box + [p]| ensures InReach(box + [p], g'.frames, i, j) {
      assert FrameAt(box, g.fs, g.sent, g.received, g.frames, i);
      assert j < |box| ==> InReach(box, g.frames, i, j);
    }
  }

  lemma AcksAppend(back: seq<Packet>, g: Track, p: Packet)
    requires AcksOk(back, g) && CountsOk(g)
    requires CarriesAck(p) ==> p.rxSequence == g.received % MODULUS
    ensures AcksOk(back + [p], g.(acks := g.acks + [g.received]))
  {
    var g' := g.(acks := g.acks + [g.received]);
    forall i | 0 <= i < |back + [p]| ensures AckAt(back + [p], g'.base, g'.received, g'.acks, i) {
      assert i < |back| ==> AckAt(back, g.base, g.received, g.acks, i);
    }
    forall i, j | 0 <= i < j < |back + [p]| ensures InOrder(g'.acks, i, j) {
      assert AckAt(back, g.base, g.received, g.acks, i);
      assert j < |back| ==> InOrder(g.acks, i, j);
    }
  }

  lemma FramesPop(box: seq<Packet>, g: Track)
    requires FramesOk(box, g) && box != []
    ensures var g' := g.(frames := g.frames[1..]);
            && FramesOk(box[1..], g')
            && (box[0].opcode == Information ==>
                  IsFrame(box[0], g.fs, g.sent, g.frames[0]) && g.received <= g.frames[0] + REACH
                  && FollowsOk(box[1..], g.frames[1..], g.frames[0]))
  {
    FramesRemove(box, g, 0);
    assert RemoveAt(box, 0) == box[1..] && RemoveAt(g.frames, 0) == g.frames[1..];
    assert FrameAt(box, g.fs, g.sent, g.received, g.frames, 0);
    var rest, g' := box[1..], g.(frames := g.frames[1..]);
    forall i | box[0].opcode == Information && 0 <= i < |rest| ensures Follows(rest, g'.frames, g.frames[0], i) {
      assert InReach(box, g.frames, 0, i + 1);
    }
  }

  lemma AcksPop(back: seq<Packet>, g: Track)
    requires AcksOk(back, g) && back != []
    ensures AckAt(back, g.base, g.received, g.acks, 0)
    ensures AcksOk(back[1..], g.(acks := g.acks[1..]))
    ensures AllNotBelow(g.acks[1..], g.acks[0])
  {
    AcksRemove(back, g, 0);
    assert RemoveAt(back, 0) == back[1..] && RemoveAt(g.acks, 0) == g.acks[1..];
    var g' := g.(acks := g.acks[1..]);
    forall i | 0 <= i < |g'.acks| ensures NotBelow(g'.acks, g.acks[0], i) {
      assert InOrder(g.acks, 0, i + 1);
    }
  }

  lemma FramesRemove(box: seq<Packet>, g: Track, n: nat)
    requires FramesOk(box, g) && n < |box|
    ensures FramesOk(RemoveAt(box, n), g.(frames := RemoveAt(g.frames, n)))
  {
    var box', g' := RemoveAt(box, n), g.(frames := RemoveAt(g.frames, n));
    forall i | 0 <= i < |box'| ensures FrameAt(box', g'.fs, g'.sent, g'.received, g'.frames, i) {
      assert FrameAt(box, g.fs, g.sent, g.received, g.frames, Before(i, n));
    }
    forall i, j | 0 <= i < j < |box'| ensures InReach(box', g'.frames, i, j) {
      assert InReach(box, g.frames, Before(i, n), Before(j, n));
    }
  }

  lemma AcksRemove(back: seq<Packet>, g: Track, n: nat)
    requires AcksOk(back, g) && n < |back|
    ensures AcksOk(RemoveAt(back, n), g.(acks := RemoveAt(g.acks, n)))
  {
    var back', g' := RemoveAt(back, n), g.(acks := RemoveAt(g.acks, n));
    forall i | 0 <= i < |back'| ensures AckAt(back', g'.base, g'.received, g'.acks, i) {
      assert AckAt(back, g.base, g.received, g.acks, Before(i, n));
    }
    forall i, j | 0 <= i < j < |back'| ensures InOrder(g'.acks, i, j) {
      assert InOrder(g.acks, Before(i, n), Before(j, n));
    }
  }

  /** A cumulative acknowledgement moves the floor under every acknowledgement still to come. */
  lemma AcksRaise(back: seq<Packet>, g: Track, a: nat)
    requires AcksOk(back, g) && AllNotBelow(g.acks, a)
    ensures AcksOk(back, g.(base := a))
  {
    var g' := g.(base := a);
    forall i | 0 <= i < |back| ensures AckAt(back, g'.base, g'.received, g'.acks, i) {
      assert AckAt(back, g.base, g.received, g.acks, i) && NotBelow(g.acks, a, i);
    }
    forall i, j | 0 <= i < j < |back| ensures InOrder(g'.acks, i, j) {
      assert InOrder(g.acks, i, j);
    }
  }

  // ---- Sending ---------------------------------------------------------------------------------------------

  lemma SendNextOk(tx: SendSide, window: int, g: Track, u: Unacked)
    requires CountsOk(g) && SendingOk(tx, window, g)
    requires tx.queue != [] && |tx.unacked| < window
    requires Holds(u, tx.queue[0], g.sent)
    ensures var g' := g.(sent := g.sent + 1);
            CountsOk(g') && SendingOk(SendSide(Next(tx.vs), tx.va, tx.queue[1..], tx.unacked + [u]), window, g')
  {
    assert g.fs[g.sent..][1..] == g.fs[g.sent + 1..];
    NextIs(g.sent);
    var tx' := SendSide(Next(tx.vs), tx.va, tx.queue[1..], tx.unacked + [u]);
    var g' := g.(sent := g.sent + 1);
    forall i | 0 <= i < |tx'.unacked| ensures HoldsAt(tx'.unacked, g'.fs, g'.base, i) {
      assert i < |tx.unacked| ==> HoldsAt(tx.unacked, g.fs, g.base, i);
    }
  }

  lemma NextIs(n: nat)
    ensures Next(n % MODULUS) == (n + 1) % MODULUS
  {
  }

  /** Replacing a frame's timer fields leaves what it holds. */
  lemma MarkOk(tx: SendSide, window: int, g: Track, i: nat, u: Unacked)
    requires CountsOk(g) && SendingOk(tx, window, g) && i < |tx.unacked|
    requires u.sequence == tx.unacked[i].sequence && u.payload == tx.unacked[i].payload
    requires u.moreFollows == tx.unacked[i].moreFollows
    ensures SendingOk(tx.(unacked := tx.unacked[i := u]), window, g)
    ensures g.base + i < g.sent && Holds(tx.unacked[i], g.fs[g.base + i], g.base + i)
  {
    assert HoldsAt(tx.unacked, g.fs, g.base, i);
    var tx' := tx.(unacked := tx.unacked[i := u]);
    forall j | 0 <= j < |tx.unacked| ensures HoldsAt(tx'.unacked, g.fs, g.base, j) {
      assert HoldsAt(tx.unacked, g.fs, g.base, j);
    }
  }

  /** Nothing in the channel minds more fragments being accepted or transmitted. */
  lemma FramesGrow(box: seq<Packet>, g: Track, more: seq<Fragment>, sent: nat)
    requires FramesOk(box, g) && g.sent <= |g.fs| && g.sent <= sent <= |g.fs| + |more|
    ensures FramesOk(box, g.(fs := g.fs + more, sent := sent))
  {
    var g' := g.(fs := g.fs + more, sent := sent);
    forall i | 0 <= i < |box| ensures FrameAt(box, g'.fs, g'.sent, g'.received, g'.frames, i) {
      assert FrameAt(box, g.fs, g.sent, g.received, g.frames, i);
    }
    forall i, j | 0 <= i < j < |box| ensures InReach(box, g'.frames, i, j) {
      assert InReach(box, g.frames, i, j);
    }
  }

  /** With at most REACH frames in flight, the octet test acknowledges exactly the positions before `a`. */
  lemma SeqAckedIsBefore(k: nat, a: nat)
    requires k <= a + REACH && a <= k + REACH
    ensures SeqAcked(k % MODULUS, a % MODULUS) <==> k < a
  {
  }

  /** When exactly the first `d` are acknowledged, the rest stays. */
  lemma {:induction false} KeepsRest(us: seq<Unacked>, expected: byte, d: nat, n: nat)
    requires n <= |us| && forall i :: 0 <= i < |us| ==> (SeqAcked(us[i].sequence, expected) <==> i < d)
    ensures Unacknowledged(us[..n], expected) == if n <= d then [] else us[d..n]
  {
    if n > 0 {
      KeepsRest(us, expected, d, n - 1);
      assert us[..n][..n - 1] == us[..n - 1];
      SliceGrows(us, d, n);
    }
  }

  lemma KeepsFrom(us: seq<Unacked>, base: nat, a: nat, n: nat)
    requires n <= |us| <= REACH && base <= a <= base + |us|
    requires forall i :: 0 <= i < |us| ==> us[i].sequence == (base + i) % MODULUS
    ensures Unacknowledged(us[..n], a % MODULUS) == if n <= a - base then [] else us[a - base..n]
  {
    forall i | 0 <= i < |us| ensures SeqAcked(us[i].sequence, a % MODULUS) <==> i < a - base {
      SeqAckedIsBefore(base + i, a);
    }
    KeepsRest(us, a % MODULUS, a - base, n);
  }

  lemma SliceGrows<T>(s: seq<T>, lo: int, n: nat)
    requires lo >= 0 && 0 < n <= |s|
    ensures (if n - 1 <= lo then [] else s[lo..n - 1]) + (if n - 1 < lo then [] else [s[n - 1]])
         == if n <= lo then [] else s[lo..n]
  {
  }

  lemma KeptIs(tx: SendSide, window: int, g: Track, a: nat)
    requires CountsOk(g) && SendingOk(tx, window, g) && g.base <= a <= g.received
    ensures a - g.base <= |tx.unacked| && Unacknowledged(tx.unacked, a % MODULUS) == tx.unacked[a - g.base..]
  {
    forall i | 0 <= i < |tx.unacked| ensures tx.unacked[i].sequence == (g.base + i) % MODULUS {
      assert HoldsAt(tx.unacked, g.fs, g.base, i);
    }
    KeepsFrom(tx.unacked, g.base, a, |tx.unacked|);
    assert tx.unacked[..|tx.unacked|] == tx.unacked;
  }

  /** A cumulative acknowledgement of everything before position `a` leaves exactly the suffix from `a`. */
  lemma AbsorbOk(tx: SendSide, window: int, g: Track, a: nat)
    requires CountsOk(g) && SendingOk(tx, window, g) && g.base <= a <= g.received
    ensures var kept := Unacknowledged(tx.unacked, a % MODULUS);
            CountsOk(g.(base := a)) && SendingOk(tx.(unacked := kept, va := a % MODULUS), window, g.(base := a))
  {
    KeptIs(tx, window, g, a);
    var kept := tx.unacked[a - g.base..];
    forall i | 0 <= i < |kept| ensures HoldsAt(kept, g.fs, a, i) {
      assert HoldsAt(tx.unacked, g.fs, g.base, a - g.base + i);
      SuffixHolds(tx.unacked, g.fs, g.base, a - g.base, i);
    }
  }

  lemma SuffixHolds(us: seq<Unacked>, fs: seq<Fragment>, base: nat, d: nat, i: nat)
    requires d <= |us| && HoldsAt(us, fs, base, d + i)
    ensures HoldsAt(us[d..], fs, base + d, i)
  {
    assert us[d..][i] == us[d + i] && base + (d + i) == base + d + i;
  }

  // ---- Receiving -------------------------------------------------------------------------------------------

  /** Only the frame the receiver expects has the expected octet. */
  lemma ExpectedIsNext(k: nat, g: Track)
    requires CountsOk(g) && k < g.sent && g.received <= k + REACH
    ensures k % MODULUS == g.received % MODULUS <==> k == g.received
  {
  }

  /** The track after the receiver takes the fragment it expects. */
  function Advance(g: Track): Track
    requires g.received < |g.fs| && |g.history| == g.received + 1
  {
    g.(received := g.received + 1,
       history := g.history + [CircuitPair.Absorb(g.history[g.received], g.fs[g.received])])
  }

  lemma TakeOk(box: seq<Packet>, g: Track)
    requires FramesOk(box, g) && g.received < |g.fs| && |g.history| == g.received + 1
    requires FollowsOk(box, g.frames, g.received)
    ensures FramesOk(box, Advance(g))
  {
    var g' := Advance(g);
    forall i | 0 <= i < |box| ensures FrameAt(box, g'.fs, g'.sent, g'.received, g'.frames, i) {
      assert FrameAt(box, g.fs, g.sent, g.received, g.frames, i) && Follows(box, g.frames, g.received, i);
    }
  }

  /** The receiver's progress only loosens the bounds on acknowledgements. */
  lemma AcksLoosen(back: seq<Packet>, g: Track)
    requires AcksOk(back, g) && g.received < |g.fs| && |g.history| == g.received + 1
    ensures AcksOk(back, Advance(g))
  {
    var g' := Advance(g);
    forall i | 0 <= i < |back| ensures AckAt(back, g'.base, g'.received, g'.acks, i) {
      assert AckAt(back, g.base, g.received, g.acks, i);
    }
  }

  lemma AcceptOk(c: Circuit, g: Track, p: Packet)
    requires CountsOk(g) && g.received < g.sent && ReceivingOk(c.rx, c.delivered, true, g)
    requires IsFrame(p, g.fs, g.sent, g.received)
    ensures var c' := Accept(c, p.payload, p.moreFollows);
            ReceivingOk(c'.rx, c'.delivered, true, Advance(g))
  {
    var g' := Advance(g);
    forall i | 0 <= i < g'.received ensures HistoryAt(g'.fs, g'.history, i) {
      assert i < g.received ==> HistoryAt(g.fs, g.history, i);
    }
  }
}
