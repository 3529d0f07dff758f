/**
 * The INP3 routing information frame: its wire form, its parser, and exactly when the two are inverse.
 *
 * An alias TLV has type 0x00, the same octet as the end marker of a routing entry (RIP). The parser takes a 0x00
 * as a TLV whenever the length octet after it still fits the body, so an end marker is recognised only because
 * the octet that follows it, the first of the next callsign, is too large to be a length.
 */
module Inp3Rif {
  import opened Common
  import opened Callsigns

  datatype Tlv = Tlv(kind: byte, value: bytes)

  datatype Rip = Rip(destination: Callsign, hopCount: nat, targetTimeMs: int, tlvs: seq<Tlv>)

  /** How lenient the frame parser is. */
  datatype Options = Options(allowEmptyRipList: bool, allowTrailingPartialRip: bool)

  const PREFIX_LENGTH := SHIFTED_LENGTH + 1 + 2
  const HORIZON_MS := 600000
  const SIGNATURE: byte := 0xff
  const END_OF_PACKET: byte := 0

  // ---- Wire form -------------------------------------------------------------------------------------------

  predicate TlvFits(t: Tlv) {
    |t.value| <= 255
  }

  predicate Encodable(r: Rip) {
    && Valid(r.destination)
    && 0 <= r.targetTimeMs && r.targetTimeMs / 10 <= 0xffff
    && forall i :: 0 <= i < |r.tlvs| ==> TlvFits(r.tlvs[i])
  }

  /** A RIP the wire can carry without loss: 10 ms granules and one octet of hops. */
  predicate WellFormed(r: Rip) {
    Encodable(r) && r.hopCount <= 255 && r.targetTimeMs % 10 == 0
  }

  function TlvBytes(t: Tlv): bytes
    requires TlvFits(t)
  {
    [t.kind, |t.value|] + t.value
  }

  function TlvsBytes(ts: seq<Tlv>): bytes
    requires forall i :: 0 <= i < |ts| ==> TlvFits(ts[i])
  {
    if ts == [] then [] else TlvBytes(ts[0]) + TlvsBytes(ts[1..])
  }

  function Prefix(r: Rip): (s: bytes)
    requires Encodable(r)
    ensures |s| == PREFIX_LENGTH
  {
    var units := r.targetTimeMs / 10;
    Shifted(r.destination) + [r.hopCount % 256, units / 256 % 256, units % 256]
  }

  function RipBytes(r: Rip): (s: bytes)
    requires Encodable(r)
    ensures |s| > PREFIX_LENGTH
  {
    Prefix(r) + TlvsBytes(r.tlvs) + [END_OF_PACKET]
  }

  predicate AllEncodable(rs: seq<Rip>) {
    forall i :: 0 <= i < |rs| ==> Encodable(rs[i])
  }

  predicate AllWellFormed(rs: seq<Rip>) {
    forall i :: 0 <= i < |rs| ==> WellFormed(rs[i])
  }

  function RipsBytes(rs: seq<Rip>): bytes
    requires AllEncodable(rs)
  {
    if rs == [] then [] else RipBytes(rs[0]) + RipsBytes(rs[1..])
  }

  function RifBytes(rs: seq<Rip>): bytes
    requires AllEncodable(rs)
  {
    [SIGNATURE] + RipsBytes(rs)
  }

  // ---- Parser ----------------------------------------------------------------------------------------------

  datatype Walk = Walk(tlvs: seq<Tlv>, end: nat)

  /** A 0x00 at `o` is the start of a TLV exactly when a length octet and that many value octets still fit. */
  predicate ReadsAsTlv(s: bytes, o: nat) {
    o + 1 < |s| && o + 2 + s[o + 1] <= |s|
  }

  /** The TLV region from `o` up to and including its end marker, or None when it is truncated. */
  function WalkTlvs(s: bytes, o: nat): (w: Option<Walk>)
    ensures w.Some? ==> o < w.value.end <= |s|
    decreases |s| - o
  {
    if o >= |s| then None
    else if s[o] == END_OF_PACKET && !ReadsAsTlv(s, o) then Some(Walk([], o + 1))
    else if o + 1 >= |s| || o + 2 + s[o + 1] > |s| then None
    else
      var next := o + 2 + s[o + 1];
      var rest := WalkTlvs(s, next);
      if rest.None? then None
      else Some(Walk([Tlv(s[o], s[o + 2..next])] + rest.value.tlvs, rest.value.end))
  }

  /** A 16-bit count, most significant octet first. */
  function Units(high: byte, low: byte): int {
    256 * high as int + low as int
  }

  datatype Parsed = Parsed(rip: Rip, end: nat)

  function ParseRip(s: bytes, o: nat): (p: Option<Parsed>)
    ensures p.Some? ==> o + PREFIX_LENGTH < p.value.end <= |s|
  {
    if |s| < o + PREFIX_LENGTH || ReadShifted(s[o..]).None? then None
    else
      var t := o + SHIFTED_LENGTH;
      var walk := WalkTlvs(s, o + PREFIX_LENGTH);
      if walk.None? then None
      else
        Some(Parsed(Rip(ReadShifted(s[o..]).value, s[t], 10 * Units(s[t + 1], s[t + 2]), walk.value.tlvs),
                    walk.value.end))
  }

  /** The RIPs parsed, and whether they account for the whole body. */
  datatype Body = Body(rips: seq<Rip>, whole: bool)

  function ParseRips(s: bytes, o: nat): Body
    decreases |s| - o
  {
    if o >= |s| then Body([], true)
    else
      var p := ParseRip(s, o);
      if p.None? then Body([], false)
      else
        var rest := ParseRips(s, p.value.end);
        Body([p.value.rip] + rest.rips, rest.whole)
  }

  function ParseRif(info: bytes, options: Options): Option<seq<Rip>> {
    if |info| < 1 || info[0] != SIGNATURE then None
    else
      var body := ParseRips(info, 1);
      if !body.whole && !options.allowTrailingPartialRip then None
      else if body.rips == [] && !options.allowEmptyRipList then None
      else Some(body.rips)
  }

  // ---- Round trip ------------------------------------------------------------------------------------------

  /** The first octet on the wire of a callsign. */
  function FirstOctet(c: Callsign): byte
    requires Valid(c)
  {
    PaddedAt(c, 0) * 2
  }

  /**
   * An end marker in front of `rest` is recognised: nothing follows, or the next callsign's first octet is at least
   * the number of bytes that follow.
   */
  predicate Marked(rest: seq<Rip>)
    requires AllEncodable(rest)
  {
    rest == [] || FirstOctet(rest[0].destination) >= |RipsBytes(rest)|
  }

  /** Every RIP's end marker is recognised. */
  predicate Framed(rs: seq<Rip>)
    requires AllEncodable(rs)
  {
    rs == [] || (Marked(rs[1..]) && Framed(rs[1..]))
  }

  /** What the walk finds at an end marker followed by `rest`. */
  predicate EndsAt(s: bytes, o: nat) {
    WalkTlvs(s, o) == Some(Walk([], o + 1))
  }

  lemma EndIsSeen(s: bytes, o: nat)
    requires o < |s| && s[o] == END_OF_PACKET
    ensures EndsAt(s, o) <==> (o + 1 == |s| || s[o + 1] >= |s| - (o + 1))
    ensures !EndsAt(s, o) && WalkTlvs(s, o).Some? ==> WalkTlvs(s, o).value.tlvs != []
  {
  }

  /** `s` holds `x` at `o`. */
  predicate Holds(s: bytes, o: nat, x: bytes) {
    o + |x| <= |s| && s[o..o + |x|] == x
  }

  lemma HoldsConcat(s: bytes, o: nat, x: bytes, y: bytes)
    requires Holds(s, o, x + y)
    ensures Holds(s, o, x) && Holds(s, o + |x|, y)
  {
    assert s[o..o + |x|] == s[o..o + |x + y|][..|x|];
    assert s[o + |x|..o + |x| + |y|] == s[o..o + |x + y|][|x|..];
  }

  lemma HoldsAt(s: bytes, o: nat, x: bytes, i: nat)
    requires Holds(s, o, x) && i < |x|
    ensures s[o + i] == x[i]
  {
    assert s[o..o + |x|][i] == x[i];
  }

  lemma HoldsTlv(s: bytes, o: nat, t: Tlv)
    requires TlvFits(t) && Holds(s, o, TlvBytes(t))
    ensures s[o] == t.kind && s[o + 1] == |t.value| && s[o + 2..o + 2 + |t.value|] == t.value
  {
    HoldsAt(s, o, TlvBytes(t), 0);
    HoldsAt(s, o, TlvBytes(t), 1);
    HoldsConcat(s, o, [t.kind, |t.value|], t.value);
  }

  /** `ts` in front of what a walk found. */
  function Prepend(ts: seq<Tlv>, w: Option<Walk>): Option<Walk> {
    if w.None? then None else Some(Walk(ts + w.value.tlvs, w.value.end))
  }

  lemma WalkOne(s: bytes, o: nat, t: Tlv)
    requires TlvFits(t) && Holds(s, o, TlvBytes(t)) && o + |TlvBytes(t)| < |s|
    ensures WalkTlvs(s, o) == Prepend([t], WalkTlvs(s, o + |TlvBytes(t)|))
  {
    HoldsTlv(s, o, t);
  }

  /** A walk from `o` passes the TLVs `ts` and goes on at `end`; sealed, so that joining walks does not look in. */
  ghost predicate Passes(s: bytes, o: nat, ts: seq<Tlv>, end: nat) {
    forall u: bool {:trigger Seal(u)} :: Seal(u) ==> WalkTlvs(s, o) == Prepend(ts, WalkTlvs(s, end))
  }

  predicate Seal(u: bool) {
    true
  }

  lemma PassesNone(s: bytes, o: nat)
    ensures Passes(s, o, [], o)
  {
    PrependNone(WalkTlvs(s, o));
  }

  lemma PassesThen(s: bytes, o: nat, t: Tlv, next: nat, ts: seq<Tlv>, end: nat)
    requires TlvFits(t) && Holds(s, o, TlvBytes(t)) && next == o + |TlvBytes(t)| < |s| && Passes(s, next, ts, end)
    ensures Passes(s, o, [t] + ts, end)
  {
    assert Seal(true);
    WalkOne(s, o, t);
    PrependTwice([t] + ts, WalkTlvs(s, end));
  }

  lemma {:induction false} PassesEncoded(s: bytes, o: nat, ts: seq<Tlv>)
    requires forall i :: 0 <= i < |ts| ==> TlvFits(ts[i])
    requires Holds(s, o, TlvsBytes(ts)) && o + |TlvsBytes(ts)| < |s|
    ensures Passes(s, o, ts, o + |TlvsBytes(ts)|)
    decreases |ts|
  {
    if ts == [] {
      PassesNone(s, o);
    } else {
      var t, rest := ts[0], ts[1..];
      assert ts == [t] + rest;
      assert TlvsBytes(ts) == TlvBytes(t) + TlvsBytes(rest);
      HoldsConcat(s, o, TlvBytes(t), TlvsBytes(rest));
      PassesEncoded(s, o + |TlvBytes(t)|, rest);
      PassesThen(s, o, t, o + |TlvBytes(t)|, rest, o + |TlvsBytes(ts)|);
    }
  }

  /** Walking an encoded TLV region yields its TLVs, then whatever the end marker reads as. */
  lemma WalkEncoded(s: bytes, o: nat, ts: seq<Tlv>)
    requires forall i :: 0 <= i < |ts| ==> TlvFits(ts[i])
    requires Holds(s, o, TlvsBytes(ts)) && o + |TlvsBytes(ts)| < |s|
    ensures WalkTlvs(s, o) == Prepend(ts, WalkTlvs(s, o + |TlvsBytes(ts)|))
  {
    PassesEncoded(s, o, ts);
    assert Seal(true);
  }

  lemma PrependNone(w: Option<Walk>)
    ensures Prepend([], w) == w
  {
    if w.Some? {
      assert [] + w.value.tlvs == w.value.tlvs;
    }
  }

  lemma PrependTwice(ts: seq<Tlv>, w: Option<Walk>)
    requires ts != []
    ensures Prepend([ts[0]], Prepend(ts[1..], w)) == Prepend(ts, w)
  {
    if w.Some? {
      assert [ts[0]] + (ts[1..] + w.value.tlvs) == ts + w.value.tlvs;
    }
  }

  lemma PrefixRead(s: bytes, o: nat, r: Rip)
    requires WellFormed(r) && Holds(s, o, Prefix(r))
    ensures ReadShifted(s[o..]) == Some(r.destination)
    ensures s[o + 7] == r.hopCount && 10 * Units(s[o + 8], s[o + 9]) == r.targetTimeMs
  {
    var units := r.targetTimeMs / 10;
    var rest := [r.hopCount % 256, units / 256 % 256, units % 256];
    HoldsConcat(s, o, Shifted(r.destination), rest);
    assert s[o..][..SHIFTED_LENGTH] == s[o..o + SHIFTED_LENGTH];
    ShiftedRoundTrip(r.destination, s[o..]);
    HoldsAt(s, o + 7, rest, 0);
    HoldsAt(s, o + 7, rest, 1);
    HoldsAt(s, o + 7, rest, 2);
  }

  /**
   * Parsing an encoded RIP inside a body returns it, and stops after it, exactly when its end marker is
   * recognised; otherwise what comes back, if anything, is a different RIP.
   */
  lemma RipRoundTrip(s: bytes, o: nat, r: Rip)
    requires WellFormed(r) && Holds(s, o, RipBytes(r))
    ensures var end := o + |RipBytes(r)|;
            if end == |s| || s[end] >= |s| - end then ParseRip(s, o) == Some(Parsed(r, end))
            else ParseRip(s, o).Some? ==> ParseRip(s, o).value.rip != r
  {
    var mark := o + PREFIX_LENGTH + |TlvsBytes(r.tlvs)|;
    RipWalked(s, o, r, mark);
    PrefixRead(s, o, r);
    EndIsSeen(s, mark);
    PrependEnd(r.tlvs, mark + 1);
  }

  lemma RipWalked(s: bytes, o: nat, r: Rip, mark: nat)
    requires Encodable(r) && Holds(s, o, RipBytes(r)) && mark == o + PREFIX_LENGTH + |TlvsBytes(r.tlvs)|
    ensures Holds(s, o, Prefix(r)) && mark < |s| && s[mark] == END_OF_PACKET
    ensures WalkTlvs(s, o + PREFIX_LENGTH) == Prepend(r.tlvs, WalkTlvs(s, mark))
  {
    HoldsConcat(s, o, Prefix(r) + TlvsBytes(r.tlvs), [END_OF_PACKET]);
    HoldsConcat(s, o, Prefix(r), TlvsBytes(r.tlvs));
    HoldsAt(s, mark, [END_OF_PACKET], 0);
    WalkEncoded(s, o + PREFIX_LENGTH, r.tlvs);
  }

  lemma PrependEnd(ts: seq<Tlv>, end: nat)
    ensures Prepend(ts, Some(Walk([], end))) == Some(Walk(ts, end))
  {
    assert ts + [] == ts;
  }

  /** The list came out right exactly when it is framed, and then nothing was left over. */
  predicate RightIff(body: Body, rs: seq<Rip>)
    requires AllEncodable(rs)
  {
    (body.rips == rs <==> Framed(rs)) && (Framed(rs) ==> body.whole)
  }

  /** `s` ends, from `o` on, with the encodings of `rs` one after the other. */
  predicate Laid(s: bytes, o: nat, rs: seq<Rip>)
    decreases |rs|
  {
    if rs == [] then o == |s|
    else WellFormed(rs[0]) && Holds(s, o, RipBytes(rs[0])) && Laid(s, o + |RipBytes(rs[0])|, rs[1..])
  }

  lemma {:induction false} LaidOut(s: bytes, o: nat, rs: seq<Rip>)
    requires AllWellFormed(rs) && Holds(s, o, RipsBytes(rs)) && o + |RipsBytes(rs)| == |s|
    ensures Laid(s, o, rs)
    decreases |rs|
  {
    if rs != [] {
      assert RipsBytes(rs) == RipBytes(rs[0]) + RipsBytes(rs[1..]);
      HoldsConcat(s, o, RipBytes(rs[0]), RipsBytes(rs[1..]));
      LaidOut(s, o + |RipBytes(rs[0])|, rs[1..]);
    }
  }

  lemma {:induction false} LaidLength(s: bytes, o: nat, rs: seq<Rip>)
    requires Laid(s, o, rs)
    ensures AllEncodable(rs) && o + |RipsBytes(rs)| == |s|
    decreases |rs|
  {
    if rs != [] {
      LaidLength(s, o + |RipBytes(rs[0])|, rs[1..]);
      assert rs == [rs[0]] + rs[1..];
    }
  }

  lemma {:induction false} RipsRoundTrip(s: bytes, o: nat, rs: seq<Rip>)
    requires AllEncodable(rs) && Laid(s, o, rs)
    ensures RightIff(ParseRips(s, o), rs)
    decreases |rs|
  {
    if rs == [] {
      NoRips(s, o);
    } else {
      var end, rest := o + |RipBytes(rs[0])|, rs[1..];
      assert Laid(s, end, rest);
      RipsRoundTrip(s, end, rest);
      RipsStep(s, o, end, rs, rest);
    }
  }

  lemma RipsStep(s: bytes, o: nat, end: nat, rs: seq<Rip>, rest: seq<Rip>)
    requires rs != [] && AllEncodable(rs) && rest == rs[1..] && end == o + |RipBytes(rs[0])|
    requires WellFormed(rs[0]) && Holds(s, o, RipBytes(rs[0])) && Laid(s, end, rest)
    requires RightIff(ParseRips(s, end), rest)
    ensures RightIff(ParseRips(s, o), rs)
  {
    RipInPlace(s, o, rs[0], rest);
    FirstRip(s, o, end, rs);
  }

  lemma NoRips(s: bytes, o: nat)
    requires Laid(s, o, [])
    ensures RightIff(ParseRips(s, o), [])
  {
  }

  /** `p` is `r` ending at `end` if the end marker in front of `rest` is recognised, and not `r` otherwise. */
  predicate Recognised(p: Option<Parsed>, r: Rip, end: nat, rest: seq<Rip>)
    requires AllEncodable(rest)
  {
    if Marked(rest) then p == Some(Parsed(r, end)) else p.Some? ==> p.value.rip != r
  }

  lemma RipInPlace(s: bytes, o: nat, r: Rip, rest: seq<Rip>)
    requires WellFormed(r) && AllEncodable(rest) && Holds(s, o, RipBytes(r))
    requires Laid(s, o + |RipBytes(r)|, rest)
    ensures Recognised(ParseRip(s, o), r, o + |RipBytes(r)|, rest)
  {
    RipRoundTrip(s, o, r);
    NextOctet(s, o + |RipBytes(r)|, rest);
  }

  /** What follows an end marker: nothing, or the first octet of the next callsign. */
  lemma NextOctet(s: bytes, end: nat, rest: seq<Rip>)
    requires AllEncodable(rest) && Laid(s, end, rest)
    ensures end + |RipsBytes(rest)| == |s|
    ensures rest == [] <==> end == |s|
    ensures rest != [] ==> s[end] == FirstOctet(rest[0].destination)
  {
    LaidLength(s, end, rest);
    if rest != [] {
      HoldsAt(s, end, RipBytes(rest[0]), 0);
      assert RipBytes(rest[0])[0] == Shifted(rest[0].destination)[0];
    }
  }

  /** The first RIP parsed decides whether the list can come out right. */
  lemma FirstRip(s: bytes, o: nat, end: nat, rs: seq<Rip>)
    requires o < |s| && rs != [] && AllEncodable(rs)
    requires Recognised(ParseRip(s, o), rs[0], end, rs[1..])
    requires RightIff(ParseRips(s, end), rs[1..])
    ensures RightIff(ParseRips(s, o), rs)
  {
    var p := ParseRip(s, o);
    if p.Some? {
      var more := ParseRips(s, p.value.end).rips;
      assert ParseRips(s, o).rips == [p.value.rip] + more;
      assert ([p.value.rip] + more)[0] == p.value.rip && ([p.value.rip] + more)[1..] == more;
      assert [rs[0]] + rs[1..] == rs;
    }
  }

  /**
   * Round trip: under any options that admit the list, parsing the encoding of well-formed RIPs returns them if
   * and only if every end marker is followed by a large enough octet.
   */
  lemma RifRoundTripIff(rs: seq<Rip>, options: Options)
    requires AllWellFormed(rs) && (rs != [] || options.allowEmptyRipList)
    ensures ParseRif(RifBytes(rs), options) == Some(rs) <==> Framed(rs)
  {
    var s := RifBytes(rs);
    assert s[1..|s|] == RipsBytes(rs);
    LaidOut(s, 1, rs);
    RipsRoundTrip(s, 1, rs);
  }

  // ---- How many RIPs a frame can carry ---------------------------------------------------------------------

  predicate TlvFree(rs: seq<Rip>) {
    forall i :: 0 <= i < |rs| ==> rs[i].tlvs == []
  }

  predicate NamedAll(rs: seq<Rip>) {
    forall i :: 0 <= i < |rs| ==> rs[i].destination.base != []
  }

  lemma {:induction false} TlvFreeLength(rs: seq<Rip>)
    requires AllEncodable(rs) && TlvFree(rs)
    ensures |RipsBytes(rs)| == 11 * |rs|
  {
    if rs != [] {
      assert TlvsBytes(rs[0].tlvs) == [];
      TlvFreeLength(rs[1..]);
    }
  }

  /** Nine entries without TLVs and with non-empty callsigns always survive the trip. */
  lemma {:induction false} NineAlwaysFit(rs: seq<Rip>)
    requires AllWellFormed(rs) && TlvFree(rs) && NamedAll(rs) && |rs| <= 9
    ensures Framed(rs)
  {
    if |rs| > 1 {
      TlvFreeLength(rs[1..]);
      assert IsBaseChar(rs[1].destination.base[0]);
      NineAlwaysFit(rs[1..]);
    }
  }

  /** The count is tight: ten entries fail as soon as the second callsign begins with a digit 0. */
  lemma TenMayFail(rs: seq<Rip>)
    requires AllWellFormed(rs) && TlvFree(rs) && |rs| == 10
    requires rs[1].destination.base != [] && rs[1].destination.base[0] == 0x30
    ensures !Framed(rs)
  {
    TlvFreeLength(rs[1..]);
  }

  /** No list of more than seventeen entries ever survives, whatever its callsigns. */
  lemma EighteenNeverFit(rs: seq<Rip>)
    requires AllWellFormed(rs) && TlvFree(rs) && |rs| >= 18
    ensures !Marked(rs[1..]) && !Framed(rs)
  {
    TlvFreeLength(rs[1..]);
    var c := rs[1].destination;
    assert c.base != [] ==> IsBaseChar(c.base[0]);
  }

  // ---- Octets ----------------------------------------------------------------------------------------------

  /** An entry: seven octets of callsign, the hops, the time in tens of milliseconds, high octet first, ..., zero. */
  lemma RipLayout(r: Rip)
    requires WellFormed(r)
    ensures var s := RipBytes(r);
            && s[..7] == Shifted(r.destination) && s[7] == r.hopCount
            && 10 * (256 * s[8] as int + s[9]) == r.targetTimeMs && s[|s| - 1] == 0
            && s[10..|s| - 1] == TlvsBytes(r.tlvs)
    ensures RifBytes([r]) == [0xff] + RipBytes(r)
  {
    var p := Prefix(r);
    assert RipBytes(r)[..10] == p;
    assert p[..7] == Shifted(r.destination);
    assert RipsBytes([r]) == RipBytes(r) + RipsBytes([]);
  }

  /** An entry can be put on the wire when its callsign, time and TLVs each fit their fields; the hops always do. */
  lemma EncodableIff(r: Rip)
    ensures Encodable(r) <==> Valid(r.destination) && 0 <= r.targetTimeMs <= 655359
                              && forall i :: 0 <= i < |r.tlvs| ==> |r.tlvs[i].value| <= 255
  {
  }

  lemma TlvLayout(t: Tlv)
    requires TlvFits(t)
    ensures TlvBytes(t)[0] == t.kind && TlvBytes(t)[1] == |t.value| && TlvBytes(t)[2..] == t.value
  {
  }

  /** A frame must begin with 0xff; one of no entries and one with something left over pass only if they may. */
  lemma ParseNeeds(info: bytes, options: Options)
    ensures info == [] || info[0] != 0xff ==> ParseRif(info, options).None?
    ensures ParseRif([0xff], options).Some? <==> options.allowEmptyRipList
    ensures info != [] && info[0] == 0xff && !ParseRips(info, 1).whole && !options.allowTrailingPartialRip ==>
              ParseRif(info, options).None?
    ensures info != [] && info[0] == 0xff && ParseRips(info, 1).rips != []
            && (ParseRips(info, 1).whole || options.allowTrailingPartialRip) ==>
              ParseRif(info, options) == Some(ParseRips(info, 1).rips)
    ensures |info| >= 2 && info[0] == 0xff && ParseRip(info, 1).None? ==>
              ParseRif(info, options) ==
              if options.allowTrailingPartialRip && options.allowEmptyRipList then Some([]) else None
  {
  }

  /** The entry of GB7RDG, two hops and 450 ms away, with its alias RDG. */
  lemma KnownEntry()
    ensures var r := Rip(Callsign([0x47, 0x42, 0x37, 0x52, 0x44, 0x47], 0), 2, 450, [Tlv(0, [0x52, 0x44, 0x47])]);
            && WellFormed(r)
            && RipBytes(r) == [0x8e, 0x84, 0x6e, 0xa4, 0x88, 0x8e, 0x60, 2, 0, 0x2d, 0, 3, 0x52, 0x44, 0x47, 0]
  {
    var c := Callsign([0x47, 0x42, 0x37, 0x52, 0x44, 0x47], 0);
    var t := Tlv(0, [0x52, 0x44, 0x47]);
    assert Shifted(c) == [0x8e, 0x84, 0x6e, 0xa4, 0x88, 0x8e, 0x60];
    assert [t][1..] == [];
    assert TlvsBytes([t]) == [0, 3, 0x52, 0x44, 0x47];
  }
}
