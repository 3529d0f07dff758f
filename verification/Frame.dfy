/** AX.25 frames: addresses, the encoder and decoder in both modulos, and the control field accessors. */
module Frames {
  import opened Common
  import opened Callsigns
  import opened Addresses

  /** `controlExtension` is the second control octet of a modulo-128 I or S frame. */
  datatype Frame = Frame(
    destination: Address,
    source: Address,
    digipeaters: seq<Address>,
    control: byte,
    controlExtension: Option<byte>,
    pid: Option<byte>,
    info: bytes)

  datatype Options = Options(allowInfoOnSupervisory: bool, allowEmptyBase: bool, allowCommandAsResponse: bool)

  const LENIENT := Options(true, true, true)

  const MAX_DIGIPEATERS := 8

  const CONTROL_SABM := 0x2f
  const CONTROL_SABME := 0x6f
  const CONTROL_DISC := 0x43
  const CONTROL_UI := 0x03
  const CONTROL_FRMR := 0x87
  const CONTROL_XID := 0xaf
  const CONTROL_TEST := 0xe3

  // ---- Control field ---------------------------------------------------------------------------------------

  /** The control octet without its poll/final bit. */
  function WithoutPf(control: byte): nat {
    control - if control / 16 % 2 == 1 then 16 else 0
  }

  predicate IsI(control: byte) {
    control % 2 == 0
  }

  predicate IsU(control: byte) {
    control % 4 == 3
  }

  predicate HasPid(control: byte) {
    IsI(control) || WithoutPf(control) == CONTROL_UI
  }

  predicate InfoAllowed(control: byte) {
    HasPid(control) || WithoutPf(control) in {CONTROL_FRMR, CONTROL_XID, CONTROL_TEST}
  }

  predicate CommandOnly(control: byte) {
    WithoutPf(control) in {CONTROL_SABM, CONTROL_SABME, CONTROL_DISC}
  }

  function GetNs(f: Frame): nat {
    if f.controlExtension.Some? then f.control / 2 % 128 else f.control / 2 % 8
  }

  function GetNr(f: Frame): nat {
    if f.controlExtension.Some? then f.controlExtension.value / 2 % 128 else f.control / 32 % 8
  }

  predicate PollFinal(f: Frame) {
    if f.controlExtension.Some? then f.controlExtension.value % 2 == 1 else f.control / 16 % 2 == 1
  }

  // ---- Wire form -------------------------------------------------------------------------------------------

  predicate AllValid(chain: seq<Address>) {
    forall i :: 0 <= i < |chain| ==> Valid(chain[i].callsign)
  }

  function ChainBytes(chain: seq<Address>): (s: bytes)
    requires AllValid(chain)
    ensures |s| == SHIFTED_LENGTH * |chain|
  {
    if chain == [] then [] else ChainBytes(chain[..|chain| - 1]) + AddressBytes(chain[|chain| - 1])
  }

  function Chain(f: Frame): seq<Address> {
    [f.destination, f.source] + f.digipeaters
  }

  function OctetOf(b: Option<byte>): bytes {
    if b.Some? then [b.value] else []
  }

  function Tail(f: Frame): bytes {
    [f.control] + OctetOf(f.controlExtension) + OctetOf(f.pid) + f.info
  }

  function Encoded(f: Frame): bytes
    requires AllValid(Chain(f))
  {
    ChainBytes(Chain(f)) + Tail(f)
  }

  // ---- Decoder ---------------------------------------------------------------------------------------------

  datatype Route = Route(digipeaters: seq<Address>, end: nat)

  /** The digipeaters from `o` on after `digis` and the address `last`; None when the chain does not end. */
  function ReadRoute(s: bytes, o: nat, last: Address, digis: seq<Address>): Option<Route>
    decreases MAX_DIGIPEATERS - |digis|
  {
    if last.last then Some(Route(digis, o))
    else if |digis| >= MAX_DIGIPEATERS then None
    else
      var a := ReadAddress(s, o);
      if a.None? then None else ReadRoute(s, o + SHIFTED_LENGTH, a.value, digis + [a.value])
  }

  /** The frame after its addresses; None on a missing control or PID octet. */
  function ReadTail(s: bytes, o: nat, destination: Address, source: Address, digis: seq<Address>, extended: bool)
    : Option<Frame>
  {
    if |s| < o + 1 then None
    else
      var control := s[o];
      var wide := extended && !IsU(control);
      if wide && |s| < o + 2 then None
      else
        var ext, p := if wide then Some(s[o + 1]) else None, o + if wide then 2 else 1;
        if !HasPid(control) then Some(Frame(destination, source, digis, control, ext, None, s[p..]))
        else if |s| < p + 1 then None
        else Some(Frame(destination, source, digis, control, ext, Some(s[p]), s[p + 1..]))
  }

  /** What the strict options refuse. */
  predicate Permitted(f: Frame, o: Options) {
    && (o.allowInfoOnSupervisory || f.info == [] || InfoAllowed(f.control))
    && (o.allowEmptyBase || forall i :: 0 <= i < |Chain(f)| ==> Chain(f)[i].callsign.base != [])
    && (o.allowCommandAsResponse || !CommandOnly(f.control) || (f.destination.crh && !f.source.crh))
  }

  function Decoded(s: bytes, extended: bool, o: Options): Option<Frame> {
    if |s| < 2 * SHIFTED_LENGTH + 1 then None
    else
      var destination, source := ReadAddress(s, 0), ReadAddress(s, SHIFTED_LENGTH);
      if destination.None? || destination.value.last || source.None? then None
      else
        var route := ReadRoute(s, 2 * SHIFTED_LENGTH, source.value, []);
        if route.None? then None
        else
          var f := ReadTail(s, route.value.end, destination.value, source.value, route.value.digipeaters, extended);
          if f.None? || !Permitted(f.value, o) then None else f
  }

  // ---- The code --------------------------------------------------------------------------------------------

  method EncodeFrame(f: Frame) returns (wire: bytes)
    requires AllValid(Chain(f))
    ensures wire == Encoded(f)
  {
    var n := SHIFTED_LENGTH * (2 + |f.digipeaters|);
    var buf := new byte[n + |Tail(f)|];
    var chain := Chain(f);
    for i := 0 to |chain|
      invariant buf[..SHIFTED_LENGTH * i] == ChainBytes(chain[..i])
    {
      WriteAddress(buf, SHIFTED_LENGTH * i, chain[i]);
      assert chain[..i + 1][..i] == chain[..i];
    }
    assert chain[..|chain|] == chain;
    Put(buf, n, Tail(f));
    wire := buf[..];
  }

  /** Fill the buffer from `offset` to its end. */
  method Put(buf: array<byte>, offset: nat, tail: bytes)
    requires offset + |tail| == buf.Length
    modifies buf
    ensures buf[..] == old(buf[..offset]) + tail
  {
    for j := 0 to |tail|
      invariant buf[..offset] == old(buf[..offset])
      invariant forall k :: 0 <= k < j ==> buf[offset + k] == tail[k]
    {
      buf[offset + j] := tail[j];
    }
  }

  method DecodeFrame(s: bytes, extended: bool, o: Options) returns (r: Option<Frame>)
    ensures r == Decoded(s, extended, o)
  {
    if |s| < 2 * SHIFTED_LENGTH + 1 {
      return None;
    }
    var destination := ReadAddressAt(s, 0);
    var source := ReadAddressAt(s, SHIFTED_LENGTH);
    if destination.None? || destination.value.last || source.None? {
      return None;
    }
    var digipeaters: seq<Address> := [];
    var last, offset: nat := source.value, 2 * SHIFTED_LENGTH;
    while !last.last
      invariant ReadRoute(s, offset, last, digipeaters) == ReadRoute(s, 2 * SHIFTED_LENGTH, source.value, [])
      invariant |digipeaters| <= MAX_DIGIPEATERS
      decreases MAX_DIGIPEATERS - |digipeaters|
    {
      if |digipeaters| >= MAX_DIGIPEATERS {
        return None;
      }
      var a := ReadAddressAt(s, offset);
      if a.None? {
        return None;
      }
      last, offset, digipeaters := a.value, offset + SHIFTED_LENGTH, digipeaters + [a.value];
    }
    r := ReadTail(s, offset, destination.value, source.value, digipeaters, extended);
    if r.Some? && !Permitted(r.value, o) {
      r := None;
    }
  }

  // ---- Round trip ------------------------------------------------------------------------------------------

  predicate Ends(chain: seq<Address>) {
    forall i :: 0 <= i < |chain| ==> (chain[i].last <==> i == |chain| - 1)
  }

  /** The end bit on the last address only, at most eight digipeaters, and octets where the control field wants them. */
  predicate WellFormed(f: Frame, extended: bool) {
    && AllValid(Chain(f)) && |f.digipeaters| <= MAX_DIGIPEATERS
    && Ends(Chain(f))
    && (f.controlExtension.Some? <==> extended && !IsU(f.control))
    && (f.pid.Some? <==> HasPid(f.control))
  }

  lemma {:induction false} ChainAt(chain: seq<Address>, i: nat)
    requires AllValid(chain) && i < |chain|
    ensures ChainBytes(chain)[SHIFTED_LENGTH * i..SHIFTED_LENGTH * (i + 1)] == AddressBytes(chain[i])
  {
    var init := chain[..|chain| - 1];
    if i < |init| {
      ChainAt(init, i);
      assert ChainBytes(chain)[..|ChainBytes(init)|] == ChainBytes(init);
      assert ChainBytes(chain)[SHIFTED_LENGTH * i..SHIFTED_LENGTH * (i + 1)]
          == ChainBytes(init)[SHIFTED_LENGTH * i..SHIFTED_LENGTH * (i + 1)];
    }
  }

  lemma SubSlice(s: bytes, t: bytes, lo: nat, hi: nat)
    requires |t| <= |s| && s[..|t|] == t && lo <= hi <= |t|
    ensures s[lo..hi] == t[lo..hi]
  {
    assert forall k :: lo <= k < hi ==> s[k] == s[..|t|][k];
  }

  lemma SlotRead(s: bytes, chain: seq<Address>, i: nat)
    requires AllValid(chain) && i < |chain| && StartsWith(s, chain)
    ensures ReadAddress(s, SHIFTED_LENGTH * i) == Some(chain[i])
  {
    var lo := SHIFTED_LENGTH * i;
    ChainAt(chain, i);
    SubSlice(s, ChainBytes(chain), lo, lo + SHIFTED_LENGTH);
    AddressRead(s, lo, chain[i]);
  }

  predicate StartsWith(s: bytes, chain: seq<Address>)
    requires AllValid(chain)
  {
    |ChainBytes(chain)| <= |s| && s[..|ChainBytes(chain)|] == ChainBytes(chain)
  }

  lemma {:induction false} RouteRead(s: bytes, chain: seq<Address>, i: nat)
    requires AllValid(chain) && Ends(chain) && 2 <= |chain| <= 2 + MAX_DIGIPEATERS && StartsWith(s, chain)
    requires 2 <= i <= |chain|
    ensures ReadRoute(s, SHIFTED_LENGTH * i, chain[i - 1], chain[2..i])
         == Some(Route(chain[2..], SHIFTED_LENGTH * |chain|))
    decreases |chain| - i
  {
    if i == |chain| {
      assert chain[2..i] == chain[2..];
    } else {
      SlotRead(s, chain, i);
      assert !chain[i - 1].last;
      assert chain[2..i + 1] == chain[2..i] + [chain[i]];
      assert SHIFTED_LENGTH * (i + 1) == SHIFTED_LENGTH * i + SHIFTED_LENGTH;
      RouteRead(s, chain, i + 1);
    }
  }

  lemma TailRead(s: bytes, o: nat, f: Frame, extended: bool)
    requires WellFormed(f, extended) && o <= |s| && s[o..] == Tail(f)
    ensures ReadTail(s, o, f.destination, f.source, f.digipeaters, extended) == Some(f)
  {
    var tail := Tail(f);
    var skip := 1 + |OctetOf(f.controlExtension)| + |OctetOf(f.pid)|;
    assert s[o + skip..] == tail[skip..] == f.info;
    assert s[o] == tail[0] && (|s| > o + 1 ==> s[o + 1] == tail[1]) && (|s| > o + 2 ==> s[o + 2] == tail[2]);
  }

  /** A well-formed frame decodes, at its own modulo, to itself exactly when the options permit it. */
  lemma FrameRoundTrip(f: Frame, extended: bool, o: Options)
    requires WellFormed(f, extended)
    ensures Decoded(Encoded(f), extended, o) == if Permitted(f, o) then Some(f) else None
  {
    var s, chain := Encoded(f), Chain(f);
    SlotRead(s, chain, 0);
    SlotRead(s, chain, 1);
    RouteRead(s, chain, 2);
    TailRead(s, |ChainBytes(chain)|, f, extended);
    assert chain[2..2] == [] && chain[2..] == f.digipeaters;
  }

  /** The addresses of a frame up to `last`, with the digipeaters read so far: none but `last` may end the chain. */
  predicate Unended(destination: Address, source: Address, digis: seq<Address>, last: Address) {
    var chain := [destination, source] + digis;
    && AllValid(chain) && |digis| <= MAX_DIGIPEATERS && chain[|chain| - 1] == last
    && forall i :: 0 <= i < |chain| - 1 ==> !chain[i].last
  }

  lemma UnendedOneMore(destination: Address, source: Address, digis: seq<Address>, last: Address, a: Address)
    requires Unended(destination, source, digis, last) && !last.last && |digis| < MAX_DIGIPEATERS && Valid(a.callsign)
    ensures Unended(destination, source, digis + [a], a)
  {
    assert [destination, source] + (digis + [a]) == [destination, source] + digis + [a];
  }

  lemma {:induction false} RouteEnds(s: bytes, o: nat, destination: Address, source: Address, digis: seq<Address>,
                                     last: Address)
    requires Unended(destination, source, digis, last) && ReadRoute(s, o, last, digis).Some?
    ensures var found := ReadRoute(s, o, last, digis).value.digipeaters;
            AllValid([destination, source] + found) && |found| <= MAX_DIGIPEATERS
            && Ends([destination, source] + found)
    decreases MAX_DIGIPEATERS - |digis|
  {
    if !last.last {
      var a := ReadAddress(s, o).value;
      AddressIsValid(s, o);
      UnendedOneMore(destination, source, digis, last, a);
      RouteEnds(s, o + SHIFTED_LENGTH, destination, source, digis + [a], a);
    }
  }

  /** Whatever decodes, under any options, is a well-formed frame of that modulo. */
  lemma DecodedIsWellFormed(s: bytes, extended: bool, o: Options)
    requires Decoded(s, extended, o).Some?
    ensures WellFormed(Decoded(s, extended, o).value, extended) && Permitted(Decoded(s, extended, o).value, o)
  {
    var destination, source := ReadAddress(s, 0).value, ReadAddress(s, SHIFTED_LENGTH).value;
    AddressIsValid(s, 0);
    AddressIsValid(s, SHIFTED_LENGTH);
    assert [destination, source] + [] == [destination, source];
    RouteEnds(s, 2 * SHIFTED_LENGTH, destination, source, [], source);
  }

  /** Sending on what was decoded keeps its meaning: encoded again it decodes, under the same options, to the same. */
  lemma ReencodedIsSame(s: bytes, extended: bool, o: Options)
    requires Decoded(s, extended, o).Some?
    ensures var f := Decoded(s, extended, o).value;
            AllValid(Chain(f)) && Decoded(Encoded(f), extended, o) == Some(f)
  {
    DecodedIsWellFormed(s, extended, o);
    FrameRoundTrip(Decoded(s, extended, o).value, extended, o);
  }

  /** Decoding a modulo-128 frame as modulo 8 still succeeds and finds the same addresses and frame type. */
  lemma NarrowDecodeRoutes(f: Frame)
    requires WellFormed(f, true)
    ensures var r := Decoded(Encoded(f), false, LENIENT);
            r.Some? && Chain(r.value) == Chain(f) && r.value.control == f.control
  {
    var s, chain := Encoded(f), Chain(f);
    SlotRead(s, chain, 0);
    SlotRead(s, chain, 1);
    RouteRead(s, chain, 2);
    assert chain[2..2] == [] && chain[2..] == f.digipeaters;
    var n := |ChainBytes(chain)|;
    assert s[n..] == Tail(f);
    assert s[n] == f.control;
  }

  // ---- Sequence numbers ------------------------------------------------------------------------------------

  function AddressChain(destination: Callsign, source: Callsign, via: seq<Callsign>, isCommand: bool)
    : (c: (Address, Address, seq<Address>))
    ensures |c.2| == |via|
    ensures forall i :: 0 <= i < |via| ==> c.2[i] == Address(via[i], false, i == |via| - 1)
  {
    (Address(destination, isCommand, false), Address(source, !isCommand, via == []),
     seq(|via|, i requires 0 <= i < |via| => Address(via[i], false, i == |via| - 1)))
  }

  function Modulus(extended: bool): nat {
    if extended then 128 else 8
  }

  /** An I frame; its numbers are taken modulo the modulus. */
  function IFrame(destination: Callsign, source: Callsign, via: seq<Callsign>, ns: nat, nr: nat, poll: bool, pid: byte,
                  info: bytes, extended: bool): Frame
  {
    var c, p := AddressChain(destination, source, via, true), if poll then 1 else 0;
    if extended then Frame(c.0, c.1, c.2, ns % 128 * 2, Some(nr % 128 * 2 + p), Some(pid), info)
    else Frame(c.0, c.1, c.2, nr % 8 * 32 + p * 16 + ns % 8 * 2, None, Some(pid), info)
  }

  /** A supervisory frame of type RR, RNR, REJ or SREJ. */
  function SFrame(destination: Callsign, source: Callsign, via: seq<Callsign>, kind: nat, nr: nat, isCommand: bool,
                  pf: bool, extended: bool): Frame
    requires kind < 4
  {
    var c, p := AddressChain(destination, source, via, isCommand), if pf then 1 else 0;
    if extended then Frame(c.0, c.1, c.2, kind * 4 + 1, Some(nr % 128 * 2 + p), None, [])
    else Frame(c.0, c.1, c.2, nr % 8 * 32 + p * 16 + kind * 4 + 1, None, None, [])
  }

  predicate ValidChain(destination: Callsign, source: Callsign, via: seq<Callsign>) {
    && Valid(destination) && Valid(source) && |via| <= MAX_DIGIPEATERS
    && forall i :: 0 <= i < |via| ==> Valid(via[i])
  }

  lemma ChainIsGood(destination: Callsign, source: Callsign, via: seq<Callsign>, isCommand: bool)
    requires ValidChain(destination, source, via)
    ensures var c := AddressChain(destination, source, via, isCommand);
            AllValid([c.0, c.1] + c.2) && Ends([c.0, c.1] + c.2)
  {
    var c := AddressChain(destination, source, via, isCommand);
    var chain := [c.0, c.1] + c.2;
    forall i | 0 <= i < |chain| ensures Valid(chain[i].callsign) && (chain[i].last <==> i == |chain| - 1) {
      if i >= 2 {
        assert chain[i] == Address(via[i - 2], false, i - 2 == |via| - 1);
      }
    }
  }

  lemma IFrameIsGood(destination: Callsign, source: Callsign, via: seq<Callsign>, ns: nat, nr: nat, poll: bool,
                     pid: byte, info: bytes, extended: bool)
    requires ValidChain(destination, source, via)
    ensures WellFormed(IFrame(destination, source, via, ns, nr, poll, pid, info, extended), extended)
  {
    ChainIsGood(destination, source, via, true);
    IControl(ns % 8, nr % 8, if poll then 1 else 0);
  }

  lemma IFrameNumbers(destination: Callsign, source: Callsign, via: seq<Callsign>, ns: nat, nr: nat, poll: bool,
                      pid: byte, info: bytes, extended: bool)
    ensures var f := IFrame(destination, source, via, ns, nr, poll, pid, info, extended);
            GetNs(f) == ns % Modulus(extended) && GetNr(f) == nr % Modulus(extended) && PollFinal(f) == poll
  {
    IControl(ns % 8, nr % 8, if poll then 1 else 0);
    WideControl(nr % 128, if poll then 1 else 0);
  }

  /** An I frame comes off the wire with the numbers, poll bit, PID and information it was built with. */
  lemma IFrameRoundTrip(destination: Callsign, source: Callsign, via: seq<Callsign>, ns: nat, nr: nat, poll: bool,
                        pid: byte, info: bytes, extended: bool)
    requires ValidChain(destination, source, via)
    ensures var f := IFrame(destination, source, via, ns, nr, poll, pid, info, extended);
            && AllValid(Chain(f)) && Decoded(Encoded(f), extended, LENIENT) == Some(f)
            && GetNs(f) == ns % Modulus(extended) && GetNr(f) == nr % Modulus(extended) && PollFinal(f) == poll
  {
    var f := IFrame(destination, source, via, ns, nr, poll, pid, info, extended);
    IFrameIsGood(destination, source, via, ns, nr, poll, pid, info, extended);
    IFrameNumbers(destination, source, via, ns, nr, poll, pid, info, extended);
    FrameRoundTrip(f, extended, LENIENT);
  }

  lemma IControl(ns: nat, nr: nat, p: nat)
    requires ns < 8 && nr < 8 && p < 2
    ensures var control := nr * 32 + p * 16 + ns * 2;
            control % 2 == 0 && control / 2 % 8 == ns && control / 32 % 8 == nr && control / 16 % 2 == p
  {
    var control := nr * 32 + p * 16 + ns * 2;
    assert control / 2 == 8 * (nr * 2 + p) + ns;
    assert control / 16 == nr * 2 + p;
  }

  lemma WideControl(nr: nat, p: nat)
    requires nr < 128 && p < 2
    ensures (nr * 2 + p) / 2 % 128 == nr && (nr * 2 + p) % 2 == p
  {
  }

  lemma SFrameIsGood(destination: Callsign, source: Callsign, via: seq<Callsign>, kind: nat, nr: nat,
                     isCommand: bool, pf: bool, extended: bool)
    requires ValidChain(destination, source, via) && kind < 4
    ensures WellFormed(SFrame(destination, source, via, kind, nr, isCommand, pf, extended), extended)
  {
    ChainIsGood(destination, source, via, isCommand);
    SControl(kind, nr % 8, if pf then 1 else 0);
    SControl(kind, 0, 0);
  }

  lemma SFrameNumbers(destination: Callsign, source: Callsign, via: seq<Callsign>, kind: nat, nr: nat,
                      isCommand: bool, pf: bool, extended: bool)
    requires kind < 4
    ensures var f := SFrame(destination, source, via, kind, nr, isCommand, pf, extended);
            f.control % 16 == kind * 4 + 1 && GetNr(f) == nr % Modulus(extended) && PollFinal(f) == pf
  {
    SControl(kind, nr % 8, if pf then 1 else 0);
    SControl(kind, 0, 0);
    WideControl(nr % 128, if pf then 1 else 0);
  }

  /** A supervisory frame comes off the wire with the number, poll/final bit and type it was built with. */
  lemma SFrameRoundTrip(destination: Callsign, source: Callsign, via: seq<Callsign>, kind: nat, nr: nat,
                        isCommand: bool, pf: bool, extended: bool, o: Options)
    requires ValidChain(destination, source, via) && kind < 4
    requires o.allowEmptyBase
    ensures var f := SFrame(destination, source, via, kind, nr, isCommand, pf, extended);
            && AllValid(Chain(f)) && Decoded(Encoded(f), extended, o) == Some(f)
            && f.control % 16 == kind * 4 + 1 && GetNr(f) == nr % Modulus(extended) && PollFinal(f) == pf
  {
    var f := SFrame(destination, source, via, kind, nr, isCommand, pf, extended);
    SFrameIsGood(destination, source, via, kind, nr, isCommand, pf, extended);
    SFrameNumbers(destination, source, via, kind, nr, isCommand, pf, extended);
    SFrameIsPermitted(f, kind, o);
    FrameRoundTrip(f, extended, o);
  }

  lemma SFrameIsPermitted(f: Frame, kind: nat, o: Options)
    requires kind < 4 && f.control % 16 == kind * 4 + 1 && f.info == [] && o.allowEmptyBase
    ensures Permitted(f, o)
  {
  }

  lemma SControl(kind: nat, nr: nat, p: nat)
    requires kind < 4 && nr < 8 && p < 2
    ensures var control := nr * 32 + p * 16 + kind * 4 + 1;
            && control % 4 == 1 && control % 16 == kind * 4 + 1
            && control / 32 % 8 == nr && control / 16 % 2 == p
  {
    var control := nr * 32 + p * 16 + kind * 4 + 1;
    assert control / 16 == nr * 2 + p;
    assert control == 4 * (nr * 8 + p * 4 + kind) + 1;
  }

  // ---- Octets ----------------------------------------------------------------------------------------------

  /** A frame: destination, source, digipeaters, seven octets each, then control, its second octet, PID, information. */
  lemma FrameLayout(f: Frame, i: nat)
    requires AllValid(Chain(f)) && i < |Chain(f)|
    ensures var s, n := Encoded(f), 7 * |Chain(f)|;
            && |s| >= n && s[7 * i..7 * i + 7] == AddressBytes(Chain(f)[i])
            && s[n..] == [f.control] + OctetOf(f.controlExtension) + OctetOf(f.pid) + f.info
    ensures |Chain(f)| == 2 + |f.digipeaters| && Chain(f)[0] == f.destination && Chain(f)[1] == f.source
            && Chain(f)[2..] == f.digipeaters
  {
    var s, chain := Encoded(f), Chain(f);
    ChainAt(chain, i);
    SubSlice(s, ChainBytes(chain), 7 * i, 7 * i + 7);
  }

  /** An I frame's control field: N(S) above a zero bit, then the poll bit, then N(R); a command to its destination. */
  lemma IFrameLayout(destination: Callsign, source: Callsign, via: seq<Callsign>, ns: nat, nr: nat, poll: bool,
                     pid: byte, info: bytes)
    ensures var p, f := if poll then 1 else 0, IFrame(destination, source, via, ns, nr, poll, pid, info, false);
            && f.control == 32 * (nr % 8) + 16 * p + 2 * (ns % 8) && f.controlExtension == None && f.pid == Some(pid)
            && f.info == info && f.destination.crh && !f.source.crh
    ensures var p, f := if poll then 1 else 0, IFrame(destination, source, via, ns, nr, poll, pid, info, true);
            && f.control == 2 * (ns % 128) && f.controlExtension == Some(2 * (nr % 128) + p) && f.pid == Some(pid)
            && f.info == info && f.destination.crh && !f.source.crh
  {
  }

  /** A supervisory frame's: 01, the type in two bits, then the poll or final bit and N(R); no PID, no information. */
  lemma SFrameLayout(destination: Callsign, source: Callsign, via: seq<Callsign>, kind: nat, nr: nat, isCommand: bool,
                     pf: bool)
    requires kind < 4
    ensures var p, f := if pf then 1 else 0, SFrame(destination, source, via, kind, nr, isCommand, pf, false);
            && f.control == 32 * (nr % 8) + 16 * p + 4 * kind + 1 && f.controlExtension == None && f.pid == None
            && f.info == [] && f.destination.crh == isCommand && f.source.crh == !isCommand
    ensures var p, f := if pf then 1 else 0, SFrame(destination, source, via, kind, nr, isCommand, pf, true);
            && f.control == 4 * kind + 1 && f.controlExtension == Some(2 * (nr % 128) + p) && f.pid == None
            && f.info == [] && f.destination.crh == isCommand && f.source.crh == !isCommand
  {
  }

  /** Which frames carry a PID, may carry information, and are commands only, by their control octet. */
  lemma ControlIs(control: byte)
    ensures HasPid(control) <==> control % 2 == 0 || control == 0x03 || control == 0x13
    ensures InfoAllowed(control) <==>
              control % 2 == 0 || control in {0x03, 0x13, 0x87, 0x97, 0xaf, 0xbf, 0xe3, 0xf3}
    ensures CommandOnly(control) <==> control in {0x2f, 0x3f, 0x6f, 0x7f, 0x43, 0x53}
    ensures IsU(control) <==> control % 4 == 3
  {
  }

  /** A frame that ends before its control octet, the second one, or its PID does not decode. */
  lemma CutFrameFails(s: bytes, o: nat, destination: Address, source: Address, digis: seq<Address>, extended: bool)
    requires |s| >= o
    ensures ReadTail(s, o, destination, source, digis, extended).Some? <==>
              |s| > o && |s| >= o + 1 + (if extended && s[o] % 4 != 3 then 1 else 0)
                                + (if s[o] % 2 == 0 || s[o] == 0x03 || s[o] == 0x13 then 1 else 0)
  {
    if |s| > o {
      ControlIs(s[o]);
    }
  }

  /** What the options let through that is otherwise refused. */
  lemma PermittedIs(f: Frame, o: Options)
    ensures Permitted(f, LENIENT)
    ensures !o.allowInfoOnSupervisory && f.info != [] && !InfoAllowed(f.control) ==> !Permitted(f, o)
    ensures !o.allowEmptyBase && (f.destination.callsign.base == [] || f.source.callsign.base == []
                                  || exists i :: 0 <= i < |f.digipeaters| && f.digipeaters[i].callsign.base == []) ==>
              !Permitted(f, o)
    ensures !o.allowCommandAsResponse && CommandOnly(f.control) && !(f.destination.crh && !f.source.crh) ==>
              !Permitted(f, o)
  {
    assert Chain(f)[0] == f.destination && Chain(f)[1] == f.source;
    assert forall i :: 0 <= i < |f.digipeaters| ==> Chain(f)[2 + i] == f.digipeaters[i];
  }

  /** A chain of more than eight digipeaters does not read. */
  lemma {:induction false} LongRouteFails(s: bytes, chain: seq<Address>, i: nat)
    requires AllValid(chain) && Ends(chain) && |chain| > 10 && StartsWith(s, chain) && 2 <= i <= 10
    ensures ReadRoute(s, SHIFTED_LENGTH * i, chain[i - 1], chain[2..i]).None?
    decreases 10 - i
  {
    assert !chain[i - 1].last;
    if i < 10 {
      SlotRead(s, chain, i);
      assert chain[2..i + 1] == chain[2..i] + [chain[i]];
      assert SHIFTED_LENGTH * (i + 1) == SHIFTED_LENGTH * i + SHIFTED_LENGTH;
      LongRouteFails(s, chain, i + 1);
    }
  }

  /** Otherwise well-formed, a frame decodes exactly when it has at most eight digipeaters. */
  lemma EightDigipeaters(f: Frame, extended: bool)
    requires AllValid(Chain(f)) && Ends(Chain(f)) && (f.controlExtension.Some? <==> extended && !IsU(f.control))
    requires f.pid.Some? <==> HasPid(f.control)
    ensures Decoded(Encoded(f), extended, LENIENT).Some? <==> |f.digipeaters| <= 8
  {
    if |f.digipeaters| <= 8 {
      FrameRoundTrip(f, extended, LENIENT);
    } else {
      var s, chain := Encoded(f), Chain(f);
      SlotRead(s, chain, 0);
      SlotRead(s, chain, 1);
      LongRouteFails(s, chain, 2);
      assert chain[2..2] == [];
    }
  }
}
