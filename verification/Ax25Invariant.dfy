/**
 * The inductive invariant of one direction of an AX.25 link, and its preservation by each elementary step.
 */
module Ax25Invariant {
  import opened Common
  import opened Ax25Window
  import opened Ax25Link

  /**
   * One direction, from `x` to `y`: every payload requested at x, the first not acknowledged, the number
   * transmitted, the number y has delivered, one more than the furthest y has ever taken in, the position
   * carried by each I frame in x's channel, and the acknowledgement carried by each frame in y's channel.
   */
  datatype Track = Track(
    fs: seq<Entry>,
    base: nat,
    sent: nat,
    received: nat,
    high: nat,
    frames: seq<nat>,
    acks: seq<nat>)

  const START := Track([], 0, 0, 0, 0, [], [])

  // ---- Arithmetic on the ring ------------------------------------------------------------------------------

  /** A modulus AX.25 uses. */
  ghost predicate IsModulus(m: nat) {
    m == 8 || m == 128
  }

  /** The position at or after `q`, within one ring, that has sequence number `key`. */
  function Pos(q: nat, key: nat, m: nat): nat
    requires m > 0
  {
    q + (key - q) % m
  }

  lemma NextOnRing(p: nat, m: nat)
    requires IsModulus(m)
    ensures (p % m + 1) % m == (p + 1) % m
  {
    if m == 8 {} else {}
  }

  /** Adding a multiple of the modulus leaves the remainder. */
  lemma Wraps(r: int, turns: int, m: nat)
    requires IsModulus(m) && 0 <= r < m
    ensures (r + turns * m) % m == r
  {
    var x := r + turns * m;
    if m == 8 {
      assert x == 8 * (x / 8) + x % 8 && 8 * (x / 8 - turns) == r - x % 8;
    } else {
      assert x == 128 * (x / 128) + x % 128 && 128 * (x / 128 - turns) == r - x % 128;
    }
  }

  lemma DistanceAhead(p: nat, q: nat, m: nat)
    requires IsModulus(m) && q <= p < q + m
    ensures Distance(p % m, q % m, m) == p - q
  {
    Wraps(p - q, q / m - p / m + 1, m);
  }

  lemma DistanceBehind(p: nat, q: nat, m: nat)
    requires IsModulus(m) && p < q < p + m
    ensures Distance(p % m, q % m, m) == m - (q - p)
  {
    Wraps(m - (q - p), q / m - p / m, m);
  }

  /** `Pos` inverts the sequence number, and measures the ring distance. */
  lemma PosOnRing(q: nat, key: nat, m: nat)
    requires IsModulus(m) && key < m
    ensures Pos(q, key, m) % m == key && q <= Pos(q, key, m) < q + m
    ensures Distance(key, q % m, m) == Pos(q, key, m) - q
  {
    PosNumber(q, key, m);
    PosDistance(q, key, m);
  }

  lemma PosNumber(q: nat, key: nat, m: nat)
    requires IsModulus(m) && key < m
    ensures Pos(q, key, m) % m == key
  {
    Wraps(key, -((key - q) / m), m);
    assert Pos(q, key, m) == key + -((key - q) / m) * m by { if m == 8 {} else {} }
  }

  lemma PosDistance(q: nat, key: nat, m: nat)
    requires IsModulus(m) && key < m
    ensures Distance(key, q % m, m) == (key - q) % m
  {
    var turns := (key - q) / m + q / m + 1;
    Wraps((key - q) % m, turns, m);
    assert key - q % m + m == (key - q) % m + turns * m by { if m == 8 {} else {} }
  }

  lemma PosIs(q: nat, p: nat, m: nat)
    requires IsModulus(m) && q <= p < q + m
    ensures Pos(q, p % m, m) == p
  {
    Wraps(p - q, -(p / m), m);
    assert p % m - q == p - q + -(p / m) * m by {
      if m == 8 {
        assert p == 8 * (p / 8) + p % 8;
      } else {
        assert p == 128 * (p / 128) + p % 128;
      }
    }
  }

  /** Moving the lower edge up to `a` leaves the position of every number still below `sent`. */
  lemma PosShift(base: nat, a: nat, sent: nat, key: nat, m: nat)
    requires IsModulus(m) && key < m && base <= a <= sent < base + m
    ensures Pos(a, key, m) < sent ==> Pos(base, key, m) == Pos(a, key, m)
  {
    PosOnRing(a, key, m);
    if Pos(a, key, m) < sent {
      PosIs(base, Pos(a, key, m), m);
    }
  }

  lemma RingBound(p: nat, m: nat)
    requires IsModulus(m)
    ensures p % m < m
  {
  }

  // ---- The invariant ---------------------------------------------------------------------------------------

  ghost predicate CountsOk(g: Track, w: nat) {
    g.base <= g.received <= g.high <= g.sent <= |g.fs| && g.sent <= g.base + w
  }

  /** The retransmission store holds exactly the outstanding positions, each under its number. */
  ghost predicate KeptAt(store: map<nat, Entry>, fs: seq<Entry>, base: nat, sent: nat, m: nat, key: nat)
    requires m > 0
  {
    && (key in store <==> key < m && Pos(base, key, m) < sent)
    && (key in store ==> Pos(base, key, m) < |fs| && store[key] == fs[Pos(base, key, m)])
  }

  ghost predicate SendingOk(c: Context, g: Track, m: nat)
    requires m > 0
  {
    && g.sent <= |g.fs|
    && c.vs == g.sent % m
    && c.va == g.base % m
    && c.queue == g.fs[g.sent..]
    && forall key: nat {:trigger KeptAt(c.sent, g.fs, g.base, g.sent, m, key)} ::
         KeptAt(c.sent, g.fs, g.base, g.sent, m, key)
  }

  /** An out-of-sequence frame is stored under its number, no further than anything taken in. */
  ghost predicate HeldAt(store: map<nat, Entry>, fs: seq<Entry>, lo: nat, high: nat, m: nat, key: nat)
    requires m > 0
  {
    key in store ==>
      key < m && Pos(lo, key, m) < high && high <= |fs| && store[key] == fs[Pos(lo, key, m)]
  }

  ghost predicate HoldingOk(store: map<nat, Entry>, fs: seq<Entry>, lo: nat, high: nat, m: nat)
    requires m > 0
  {
    forall key: nat {:trigger HeldAt(store, fs, lo, high, m, key)} :: HeldAt(store, fs, lo, high, m, key)
  }

  ghost predicate ReceivingOk(c: Context, g: Track, m: nat)
    requires m > 0
  {
    && g.received <= g.high <= |g.fs|
    && c.vr == g.received % m
    && c.delivered == g.fs[..g.received]
    && HoldingOk(c.stored, g.fs, g.received, g.high, m)
    && c.vr !in c.stored
  }

  ghost predicate IsData(f: Frame, fs: seq<Entry>, sent: nat, m: nat, k: nat)
    requires m > 0 && f.IFrame?
  {
    k < sent <= |fs| && f.ns == k % m && f.entry == fs[k]
  }

  ghost predicate FrameAt(
    box: seq<Frame>, fs: seq<Entry>, sent: nat, high: nat, frames: seq<nat>, m: nat, w: nat, i: nat)
    requires m > 0
  {
    i < |box| && i < |frames| && (box[i].IFrame? ==> IsData(box[i], fs, sent, m, frames[i]) && high <= frames[i] + w)
  }

  ghost predicate InReach(box: seq<Frame>, frames: seq<nat>, w: nat, i: nat, j: nat) {
    i < j < |box| && j < |frames| && (box[i].IFrame? && box[j].IFrame? ==> frames[i] < frames[j] + w)
  }

  ghost predicate FramesOk(box: seq<Frame>, g: Track, m: nat, w: nat)
    requires m > 0
  {
    && |g.frames| == |box|
    && (forall i {:trigger FrameAt(box, g.fs, g.sent, g.high, g.frames, m, w, i)} ::
          0 <= i < |box| ==> FrameAt(box, g.fs, g.sent, g.high, g.frames, m, w, i))
    && (forall i, j {:trigger InReach(box, g.frames, w, i, j)} ::
          0 <= i < j < |box| ==> InReach(box, g.frames, w, i, j))
  }

  ghost predicate CarriesAck(f: Frame) {
    !f.Srej?
  }

  ghost predicate AckAt(back: seq<Frame>, base: nat, received: nat, acks: seq<nat>, m: nat, i: nat)
    requires m > 0
  {
    i < |back| && i < |acks| && base <= acks[i] <= received && (CarriesAck(back[i]) ==> back[i].nr == acks[i] % m)
  }

  ghost predicate InOrder(acks: seq<nat>, i: nat, j: nat) {
    i < j < |acks| && acks[i] <= acks[j]
  }

  ghost predicate AcksOk(back: seq<Frame>, g: Track, m: nat)
    requires m > 0
  {
    && |g.acks| == |back|
    && (forall i {:trigger AckAt(back, g.base, g.received, g.acks, m, i)} ::
          0 <= i < |back| ==> AckAt(back, g.base, g.received, g.acks, m, i))
    && (forall i, j {:trigger InOrder(g.acks, i, j)} :: 0 <= i < j < |back| ==> InOrder(g.acks, i, j))
  }

  ghost predicate Follows(box: seq<Frame>, frames: seq<nat>, w: nat, k: nat, i: nat) {
    i < |box| && i < |frames| && (box[i].IFrame? ==> k < frames[i] + w)
  }

  /** Every I frame still in the channel is less than one window behind position `k`. */
  ghost predicate FollowsOk(box: seq<Frame>, frames: seq<nat>, w: nat, k: nat) {
    |frames| == |box| &&
    forall i {:trigger Follows(box, frames, w, k, i)} :: 0 <= i < |box| ==> Follows(box, frames, w, k, i)
  }

  ghost predicate NotBelow(acks: seq<nat>, a: nat, i: nat) {
    i < |acks| && a <= acks[i]
  }

  ghost predicate AllNotBelow(acks: seq<nat>, a: nat) {
    forall i {:trigger NotBelow(acks, a, i)} :: 0 <= i < |acks| ==> NotBelow(acks, a, i)
  }

  // ---- Channels --------------------------------------------------------------------------------------------

  lemma FramesAppend(box: seq<Frame>, g: Track, m: nat, w: nat, f: Frame, k: nat)
    requires m > 0 && FramesOk(box, g, m, w) && CountsOk(g, w)
    requires f.IFrame? ==> g.base <= k && IsData(f, g.fs, g.sent, m, k)
    ensures FramesOk(box + [f], g.(frames := g.frames + [k]), m, w)
  {
    var box', frames' := box + [f], g.frames + [k];
    forall i | 0 <= i < |box'| ensures FrameAt(box', g.fs, g.sent, g.high, frames', m, w, i) {
      assert i < |box| ==> FrameAt(box, g.fs, g.sent, g.high, g.frames, m, w, i);
    }
    forall i, j | 0 <= i < j < |box'| ensures InReach(box', frames', w, i, j) {
      assert FrameAt(box, g.fs, g.sent, g.high, g.frames, m, w, i);
      assert j < |box| ==> InReach(box, g.frames, w, i, j);
    }
  }

  lemma AcksAppend(back: seq<Frame>, g: Track, m: nat, f: Frame)
    requires m > 0 && AcksOk(back, g, m) && g.base <= g.received
    requires CarriesAck(f) ==> f.nr == g.received % m
    ensures AcksOk(back + [f], g.(acks := g.acks + [g.received]), m)
  {
    var back', acks' := back + [f], g.acks + [g.received];
    forall i | 0 <= i < |back'| ensures AckAt(back', g.base, g.received, acks', m, i) {
      assert i < |back| ==> AckAt(back, g.base, g.received, g.acks, m, i);
    }
    forall i, j | 0 <= i < j < |back'| ensures InOrder(acks', i, j) {
      assert AckAt(back, g.base, g.received, g.acks, m, i);
      assert j < |back| ==> InOrder(g.acks, i, j);
    }
  }

  lemma FramesRemove(box: seq<Frame>, g: Track, m: nat, w: nat, n: nat)
    requires m > 0 && FramesOk(box, g, m, w) && n < |box|
    ensures FramesOk(RemoveAt(box, n), g.(frames := RemoveAt(g.frames, n)), m, w)
  {
    var box', frames' := RemoveAt(box, n), RemoveAt(g.frames, n);
    forall i | 0 <= i < |box'| ensures FrameAt(box', g.fs, g.sent, g.high, frames', m, w, i) {
      assert FrameAt(box, g.fs, g.sent, g.high, g.frames, m, w, Before(i, n));
    }
    forall i, j | 0 <= i < j < |box'| ensures InReach(box', frames', w, i, j) {
      assert InReach(box, g.frames, w, Before(i, n), Before(j, n));
    }
  }

  lemma AcksRemove(back: seq<Frame>, g: Track, m: nat, n: nat)
    requires m > 0 && AcksOk(back, g, m) && n < |back|
    ensures AcksOk(RemoveAt(back, n), g.(acks := RemoveAt(g.acks, n)), m)
  {
    var back', acks' := RemoveAt(back, n), RemoveAt(g.acks, n);
    forall i | 0 <= i < |back'| ensures AckAt(back', g.base, g.received, acks', m, i) {
      assert AckAt(back, g.base, g.received, g.acks, m, Before(i, n));
    }
    forall i, j | 0 <= i < j < |back'| ensures InOrder(acks', i, j) {
      assert InOrder(g.acks, Before(i, n), Before(j, n));
    }
  }

  lemma FramesPop(box: seq<Frame>, g: Track, m: nat, w: nat)
    requires m > 0 && FramesOk(box, g, m, w) && box != []
    ensures FramesOk(box[1..], g.(frames := g.frames[1..]), m, w)
    ensures box[0].IFrame? ==>
              && IsData(box[0], g.fs, g.sent, m, g.frames[0]) && g.high <= g.frames[0] + w
              && FollowsOk(box[1..], g.frames[1..], w, g.frames[0])
  {
    FramesRemove(box, g, m, w, 0);
    assert RemoveAt(box, 0) == box[1..] && RemoveAt(g.frames, 0) == g.frames[1..];
    assert FrameAt(box, g.fs, g.sent, g.high, g.frames, m, w, 0);
    var rest, frames := box[1..], g.frames[1..];
    forall i | box[0].IFrame? && 0 <= i < |rest| ensures Follows(rest, frames, w, g.frames[0], i) {
      assert InReach(box, g.frames, w, 0, i + 1);
    }
  }

  lemma AcksPop(back: seq<Frame>, g: Track, m: nat)
    requires m > 0 && AcksOk(back, g, m) && back != []
    ensures AckAt(back, g.base, g.received, g.acks, m, 0)
    ensures AcksOk(back[1..], g.(acks := g.acks[1..]), m) && AllNotBelow(g.acks[1..], g.acks[0])
  {
    AcksRemove(back, g, m, 0);
    assert RemoveAt(back, 0) == back[1..] && RemoveAt(g.acks, 0) == g.acks[1..];
    var acks := g.acks[1..];
    forall i | 0 <= i < |acks| ensures NotBelow(acks, g.acks[0], i) {
      assert InOrder(g.acks, 0, i + 1);
    }
  }

  lemma AcksRaise(back: seq<Frame>, g: Track, m: nat, a: nat)
    requires m > 0 && AcksOk(back, g, m) && AllNotBelow(g.acks, a)
    ensures AcksOk(back, g.(base := a), m)
  {
    forall i | 0 <= i < |back| ensures AckAt(back, a, g.received, g.acks, m, i) {
      assert AckAt(back, g.base, g.received, g.acks, m, i) && NotBelow(g.acks, a, i);
    }
  }

  lemma AcksLoosen(back: seq<Frame>, g: Track, m: nat, received: nat)
    requires m > 0 && AcksOk(back, g, m) && g.received <= received
    ensures AcksOk(back, g.(received := received), m)
  {
    forall i | 0 <= i < |back| ensures AckAt(back, g.base, received, g.acks, m, i) {
      assert AckAt(back, g.base, g.received, g.acks, m, i);
    }
  }

  /** Nothing in the channel minds more payloads being requested or transmitted. */
  lemma FramesGrow(box: seq<Frame>, g: Track, m: nat, w: nat, more: seq<Entry>, sent: nat)
    requires m > 0 && FramesOk(box, g, m, w) && g.sent <= |g.fs| && g.sent <= sent <= |g.fs| + |more|
    ensures FramesOk(box, g.(fs := g.fs + more, sent := sent), m, w)
  {
    var fs := g.fs + more;
    forall i | 0 <= i < |box| ensures FrameAt(box, fs, sent, g.high, g.frames, m, w, i) {
      assert FrameAt(box, g.fs, g.sent, g.high, g.frames, m, w, i);
    }
  }

  /** Taking in position `k` keeps the rest of the channel within reach. */
  lemma FramesTake(box: seq<Frame>, g: Track, m: nat, w: nat, k: nat)
    requires m > 0 && FramesOk(box, g, m, w) && FollowsOk(box, g.frames, w, k)
    ensures FramesOk(box, g.(high := Max(g.high, k + 1)), m, w)
  {
    var high := Max(g.high, k + 1);
    forall i | 0 <= i < |box| ensures FrameAt(box, g.fs, g.sent, high, g.frames, m, w, i) {
      assert FrameAt(box, g.fs, g.sent, g.high, g.frames, m, w, i) && Follows(box, g.frames, w, k, i);
    }
  }

  // ---- Sending ---------------------------------------------------------------------------------------------

  lemma TransmitOk(c: Context, g: Track, w: nat)
    requires var m := Modulus(c.config); CountsOk(g, w) && SendingOk(c, g, m) && w < m
    requires c.queue != [] && g.sent - g.base < w
    ensures var m := Modulus(c.config);
            CountsOk(g.(sent := g.sent + 1), w) && SendingOk(Transmit(c), g.(sent := g.sent + 1), m)
    ensures c.queue[0] == g.fs[g.sent]
  {
    var m := Modulus(c.config);
    NextOnRing(g.sent, m);
    RingBound(g.sent, m);
    assert g.fs[g.sent..][1..] == g.fs[g.sent + 1..];
    var store := Transmit(c).sent;
    var sent := g.sent + 1;
    forall key: nat ensures KeptAt(store, g.fs, g.base, sent, m, key) {
      assert KeptAt(c.sent, g.fs, g.base, g.sent, m, key);
      PosIs(g.base, g.sent, m);
      if key < m {
        PosOnRing(g.base, key, m);
      }
    }
  }

  /** What the send guards measure is the true number outstanding. */
  lemma OutstandingIs(c: Context, g: Track, w: nat)
    requires var m := Modulus(c.config); CountsOk(g, w) && SendingOk(c, g, m) && w < m
    ensures Outstanding(c) == g.sent - g.base
  {
    DistanceAhead(g.sent, g.base, Modulus(c.config));
  }

  /** A genuine acknowledgement is always valid, and moves the store to exactly what stays outstanding. */
  lemma AckOk(c: Context, g: Track, w: nat, a: nat)
    requires var m := Modulus(c.config); CountsOk(g, w) && SendingOk(c, g, m) && w < m
    requires g.base <= a <= g.received
    ensures var m := Modulus(c.config);
            && ValidNr(c, a % m)
            && CountsOk(g.(base := a), w) && SendingOk(AdvanceVa(c, a % m), g.(base := a), m)
  {
    var m := Modulus(c.config);
    DistanceAhead(a, g.base, m);
    OutstandingIs(c, g, w);
    var c' := AdvanceVa(c, a % m);
    if a % m == c.va {
      PosIs(g.base, a, m);
      PosIs(g.base, g.base, m);
      assert a == g.base;
    } else {
      DistanceAhead(g.sent, a, m);
      forall key: nat ensures KeptAt(c'.sent, g.fs, a, g.sent, m, key) {
        assert KeptAt(c.sent, g.fs, g.base, g.sent, m, key);
        if key < m {
          PosOnRing(a, key, m);
          PosShift(g.base, a, g.sent, key, m);
        }
      }
    }
  }

  /** Whatever is in the store can be resent under its number: it is an outstanding position. */
  lemma ReplayOk(c: Context, g: Track, w: nat, ns: nat)
    requires var m := Modulus(c.config); CountsOk(g, w) && SendingOk(c, g, m) && w < m
    requires ns in c.sent
    ensures var k := Pos(g.base, ns, Modulus(c.config));
            g.base <= k && IsData(IFrame(ns, c.vr, c.sent[ns]), g.fs, g.sent, Modulus(c.config), k)
  {
    var m := Modulus(c.config);
    assert KeptAt(c.sent, g.fs, g.base, g.sent, m, ns);
    PosOnRing(g.base, ns, m);
  }

  lemma MoreOk(c: Context, g: Track, w: nat, e: Entry)
    requires var m := Modulus(c.config); CountsOk(g, w) && SendingOk(c, g, m)
    ensures var m := Modulus(c.config);
            CountsOk(g.(fs := g.fs + [e]), w) && SendingOk(c.(queue := c.queue + [e]), g.(fs := g.fs + [e]), m)
  {
    var m := Modulus(c.config);
    var fs := g.fs + [e];
    assert fs[g.sent..] == g.fs[g.sent..] + [e];
    forall key: nat ensures KeptAt(c.sent, fs, g.base, g.sent, m, key) {
      assert KeptAt(c.sent, g.fs, g.base, g.sent, m, key);
    }
  }

  lemma MoreReceivable(c: Context, g: Track, e: Entry)
    requires ReceivingOk(c, g, Modulus(c.config))
    ensures ReceivingOk(c, g.(fs := g.fs + [e]), Modulus(c.config))
  {
    var m := Modulus(c.config);
    var fs := g.fs + [e];
    assert fs[..g.received] == g.fs[..g.received];
    forall key: nat ensures HeldAt(c.stored, fs, g.received, g.high, m, key) {
      assert HeldAt(c.stored, g.fs, g.received, g.high, m, key);
    }
  }

  // ---- Receiving -------------------------------------------------------------------------------------------

  /** Once position `lo` is out of the store, the rest of it reads the same from `lo + 1`. */
  lemma HoldNext(store: map<nat, Entry>, fs: seq<Entry>, lo: nat, high: nat, m: nat)
    requires IsModulus(m) && HoldingOk(store, fs, lo, high, m)
    ensures HoldingOk(store - {lo % m}, fs, lo + 1, high, m)
  {
    var rest := store - {lo % m};
    var next := lo + 1;
    forall key: nat ensures HeldAt(rest, fs, next, high, m, key) {
      assert HeldAt(store, fs, lo, high, m, key);
      if key in rest {
        PosOnRing(lo, key, m);
        PosIs(next, Pos(lo, key, m), m);
      }
    }
  }

  /** The drain loop delivers stored frames in order and stops at the first gap. */
  lemma {:induction false} DrainOk(c: Context, g: Track) returns (received: nat)
    requires var m := Modulus(c.config);
             && g.received <= g.high <= |g.fs| && c.vr == g.received % m && c.delivered == g.fs[..g.received]
             && HoldingOk(c.stored, g.fs, g.received, g.high, m)
    ensures g.received <= received <= g.high
    ensures ReceivingOk(DrainStored(c), g.(received := received), Modulus(c.config))
    decreases |c.stored|
  {
    var m := Modulus(c.config);
    if c.vr in c.stored {
      RingBound(g.received, m);
      assert HeldAt(c.stored, g.fs, g.received, g.high, m, c.vr);
      PosIs(g.received, g.received, m);
      HoldNext(c.stored, g.fs, g.received, g.high, m);
      NextOnRing(g.received, m);
      Shrinks(c.stored, c.vr);
      received := DrainOk(Indicate(c.(stored := c.stored - {c.vr}), c.stored[c.vr]),
                          g.(received := g.received + 1));
    } else {
      received := g.received;
    }
  }

  /**
   * The heart of the matter: a frame at any position the channel can hold is delivered only if it is the next
   * one, and stored only under a number that names its position; a stale one is discarded.
   */
  lemma TakeDataOk(c: Context, g: Track, w: nat, ns: nat, k: nat) returns (received: nat)
    requires var m := Modulus(c.config); CountsOk(g, w) && ReceivingOk(c, g, m) && w < m
    requires c.config.srejEnabled ==> w + SendWindow(c.config) <= Modulus(c.config)
    requires k < g.sent && g.high <= k + w && ns == k % Modulus(c.config)
    ensures g.received <= received <= Max(g.high, k + 1)
    ensures ReceivingOk(TakeData(c, ns, g.fs[k]), g.(received := received, high := Max(g.high, k + 1)),
                        Modulus(c.config))
  {
    RingBound(k, Modulus(c.config));
    received := g.received;
    if k < g.received {
      StaleOk(c, g, w, k);
    } else if k == g.received {
      received := NextOk(c, g, k);
    } else {
      FutureOk(c, g, k);
    }
  }

  lemma StaleOk(c: Context, g: Track, w: nat, k: nat)
    requires var m := Modulus(c.config); ReceivingOk(c, g, m) && w < m
    requires c.config.srejEnabled ==> w + SendWindow(c.config) <= Modulus(c.config)
    requires k < g.received <= k + w
    ensures TakeData(c, k % Modulus(c.config), g.fs[k]) == c
  {
    DistanceBehind(k, g.received, Modulus(c.config));
  }

  lemma NextOk(c: Context, g: Track, k: nat) returns (received: nat)
    requires ReceivingOk(c, g, Modulus(c.config)) && k == g.received < |g.fs|
    ensures g.received <= received <= Max(g.high, k + 1)
    ensures ReceivingOk(TakeData(c, c.vr, g.fs[k]), g.(received := received, high := Max(g.high, k + 1)),
                        Modulus(c.config))
  {
    var m := Modulus(c.config);
    var high := Max(g.high, k + 1);
    HoldNext(c.stored, g.fs, k, g.high, m);
    assert c.stored - {k % m} == c.stored;
    HoldWider(c.stored, g.fs, k + 1, g.high, high, m);
    NextOnRing(k, m);
    received := DrainOk(Indicate(c, g.fs[k]), g.(received := k + 1, high := high));
  }

  lemma FutureOk(c: Context, g: Track, k: nat)
    requires var m := Modulus(c.config); ReceivingOk(c, g, m) && g.received < k < g.received + m
    requires k < |g.fs|
    ensures ReceivingOk(TakeData(c, k % Modulus(c.config), g.fs[k]), g.(high := Max(g.high, k + 1)),
                        Modulus(c.config))
  {
    var m := Modulus(c.config);
    var high := Max(g.high, k + 1);
    var ns := k % m;
    DistanceAhead(k, g.received, m);
    PosIs(g.received, k, m);
    PosIs(g.received, g.received, m);
    HoldWider(c.stored, g.fs, g.received, g.high, high, m);
    var store := c.stored[ns := g.fs[k]];
    forall key: nat ensures HeldAt(store, g.fs, g.received, high, m, key) {
      assert HeldAt(c.stored, g.fs, g.received, high, m, key);
    }
  }

  lemma HoldWider(store: map<nat, Entry>, fs: seq<Entry>, lo: nat, high: nat, wider: nat, m: nat)
    requires m > 0 && HoldingOk(store, fs, lo, high, m) && high <= wider <= |fs|
    ensures HoldingOk(store, fs, lo, wider, m)
  {
    forall key: nat ensures HeldAt(store, fs, lo, wider, m, key) {
      assert HeldAt(store, fs, lo, high, m, key);
    }
  }
}
