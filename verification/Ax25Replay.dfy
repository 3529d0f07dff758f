/** Selective retransmission answers any burst of rejects with exactly one copy of each frame still outstanding. */
module Ax25Replay {
  import opened Ax25Window

  /** What a burst of selective rejects does while V(a) stands still. */
  function Rejected(c: Context, nrs: seq<nat>): Context {
    if nrs == [] then c else ReplaySelectively(Rejected(c, nrs[..|nrs| - 1]), nrs[|nrs| - 1])
  }

  /** How many of the frames carry N(S) = `ns`. */
  function Copies(frames: seq<Frame>, ns: nat): nat {
    if frames == [] then 0
    else
      var last := frames[|frames| - 1];
      Copies(frames[..|frames| - 1], ns) + if last.IFrame? && last.ns == ns then 1 else 0
  }

  lemma CopiesOfOneMore(frames: seq<Frame>, f: Frame, ns: nat)
    ensures Copies(frames + [f], ns) == Copies(frames, ns) + if f.IFrame? && f.ns == ns then 1 else 0
  {
    assert (frames + [f])[..|frames|] == frames;
  }

  /** Whether a reject for `ns` would be answered in `c`. */
  predicate Answerable(c: Context, ns: nat) {
    IsOutstanding(c, ns) && ns !in c.replayed && ns in c.sent
  }

  /**
   * However many times and in whatever order they are rejected, each frame that is outstanding, stored and not yet
   * replayed since V(a) advanced goes out exactly once, every other one not at all, and nothing but the channel and
   * the replayed set changes.
   */
  lemma {:induction false} OneCopyPerCycle(c: Context, nrs: seq<nat>, ns: nat)
    ensures var c' := Rejected(c, nrs);
            && c' == c.(outbox := c'.outbox, replayed := c'.replayed)
            && Copies(c'.outbox, ns) == Copies(c.outbox, ns) + (if ns in nrs && Answerable(c, ns) then 1 else 0)
            && (ns in c'.replayed <==> ns in c.replayed || (ns in nrs && IsOutstanding(c, ns)))
  {
    if nrs != [] {
      var init, last := nrs[..|nrs| - 1], nrs[|nrs| - 1];
      OneCopyPerCycle(c, init, ns);
      OneCopyPerCycle(c, init, last);
      var before := Rejected(c, init);
      assert ns in nrs <==> ns in init || ns == last;
      if last in before.sent {
        CopiesOfOneMore(before.outbox, IFrame(last, before.vr, before.sent[last]), ns);
      }
    }
  }
}
