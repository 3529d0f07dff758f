/**
 * The information field of an exchange-identification frame: its octets, its parser, and the round trip between
 * them. Sections 4.3.3.7 and 6.3.2 of AX.25 v2.2.
 */
module Xid {
  import opened Common

  /** The negotiable selections of the HDLC optional functions field. */
  datatype Hdlc = Hdlc(selective: bool, modulo128: bool, srejMultiframe: bool, segmenter: bool)

  /** An absent parameter is None. The timer is a real because a running round-trip estimate need not be whole. */
  datatype Parameters = Parameters(
    halfDuplex: Option<bool>,
    hdlc: Option<Hdlc>,
    n1Bits: Option<nat>,
    k: Option<nat>,
    t1: Option<real>,
    n2: Option<nat>)

  const NOTHING := Parameters(None, None, None, None, None, None)

  datatype Options = Options(allowGroupLengthOverrun: bool, allowTruncatedParameter: bool)

  const STRICT := Options(false, false)

  const FORMAT_IDENTIFIER: byte := 0x82
  const GROUP_IDENTIFIER: byte := 0x80
  const HEADER_LENGTH := 4

  const PI_CLASSES: byte := 2
  const PI_HDLC: byte := 3
  const PI_N1: byte := 6
  const PI_K: byte := 8
  const PI_T1: byte := 9
  const PI_N2: byte := 10

  /** The largest integer the original's numbers hold exactly; decoding saturates there. */
  const MAX_SAFE := 0x1f_ffff_ffff_ffff

  // ---- Numbers ---------------------------------------------------------------------------------------------

  /** Big-endian octets of a number, at least one, with no leading zero otherwise. */
  function Digits(v: nat): (s: bytes)
    ensures |s| >= 1
  {
    if v < 256 then [v] else Digits(v / 256) + [v % 256]
  }

  function Undigits(pv: bytes): (v: nat)
    ensures v <= MAX_SAFE
  {
    if pv == [] then 0 else Min(Undigits(pv[..|pv| - 1]) * 256 + pv[|pv| - 1], MAX_SAFE)
  }

  lemma {:induction false} DigitsRoundTrip(v: nat)
    ensures Undigits(Digits(v)) == Min(v, 0x1f_ffff_ffff_ffff)
  {
    if v < 256 {
      assert Undigits([]) == 0;
      assert [v][..0] == [];
    } else {
      DigitsRoundTrip(v / 256);
      assert Digits(v)[..|Digits(v)| - 1] == Digits(v / 256);
    }
  }

  lemma {:induction false} DigitsShort(v: nat, n: nat, bound: nat)
    requires bound == Power256(n) && v < bound && n >= 1
    ensures |Digits(v)| <= n
  {
    if v >= 256 {
      assert v / 256 < Power256(n - 1);
      DigitsShort(v / 256, n - 1, Power256(n - 1));
    }
  }

  function Power256(n: nat): nat {
    if n == 0 then 1 else 256 * Power256(n - 1)
  }

  /** The least significant octet moves in front of those already taken. */
  lemma DigitsMove(v: nat, octets: bytes)
    requires v > 0
    ensures Digits(v) + octets == (if v / 256 > 0 then Digits(v / 256) else []) + ([v % 256] + octets)
  {
    if v >= 256 {
      assert Digits(v) == Digits(v / 256) + [v % 256];
    } else {
      assert Digits(v) == [v % 256];
    }
  }

  method EncodeUnsigned(value: nat) returns (octets: bytes)
    ensures octets == Digits(value)
  {
    if value == 0 {
      return [0];
    }
    octets := [];
    var v: nat := value;
    assert Digits(value) + [] == Digits(value);
    while v > 0
      invariant Digits(value) == (if v > 0 then Digits(v) else []) + octets
    {
      DigitsMove(v, octets);
      octets := [v % 256] + octets;
      v := v / 256;
    }
  }

  method DecodeUnsigned(pv: bytes) returns (acc: nat)
    ensures acc == Undigits(pv)
  {
    acc := 0;
    for i := 0 to |pv|
      invariant acc == Undigits(pv[..i])
    {
      acc := acc * 256 + pv[i];
      if acc > MAX_SAFE {
        acc := MAX_SAFE;
      }
      assert pv[..i + 1][..i] == pv[..i];
    }
    assert pv[..|pv|] == pv;
  }

  // ---- Bit fields ------------------------------------------------------------------------------------------

  predicate Bit(field: nat, weight: nat)
    requires weight > 0
  {
    field / weight % 2 == 1
  }

  function ClassesOctets(halfDuplex: bool): bytes {
    [0x01 + if halfDuplex then 0x20 else 0x40, 0]
  }

  /** Half-duplex unless only full-duplex is asserted. */
  function ClassesOf(pv: bytes): bool
    requires pv != []
  {
    !(Bit(pv[0], 0x40) && !Bit(pv[0], 0x20))
  }

  /** Most significant octet first, with the fixed bits (synchronous transmit, 16-bit FCS, TEST, extended address). */
  function HdlcOctets(h: Hdlc): bytes {
    [0x02 + (if h.srejMultiframe then 0x20 else 0) + (if h.segmenter then 0x40 else 0),
     0xa0 + (if h.modulo128 then 0x08 else 0x04),
     0x80 + (if h.selective then 0x04 else 0x02)]
  }

  function HdlcOf(pv: bytes): Hdlc {
    var n := |pv|;
    var field: nat := if n == 0 then 0 else if n == 1 then pv[0] else if n == 2 then pv[0] as int * 256 + pv[1]
                      else pv[0] as int * 65536 + pv[1] as int * 256 + pv[2];
    Hdlc(
      Bit(field, 0x4) || !Bit(field, 0x2),
      !(Bit(field, 0x400) && !Bit(field, 0x800)),
      Bit(field, 0x20_0000),
      Bit(field, 0x40_0000))
  }

  lemma BitFieldsRoundTrip(halfDuplex: bool, h: Hdlc)
    ensures ClassesOf(ClassesOctets(halfDuplex)) == halfDuplex
    ensures HdlcOf(HdlcOctets(h)) == h
  {
    BitsMean(HdlcOctets(h));
  }

  // ---- Wire form -------------------------------------------------------------------------------------------

  function Field(pi: byte, pv: bytes): bytes
    requires |pv| <= 255
  {
    [pi, |pv|] + pv
  }

  predicate Whole(t: real) {
    t >= 0.0 && t.Floor as real == t
  }

  predicate Fits(v: nat) {
    |Digits(v)| <= 255
  }

  /** The original throws on a timer that is not a whole number, and on a value of more than 255 octets. */
  predicate Encodable(p: Parameters) {
    && (p.n1Bits.Some? ==> Fits(p.n1Bits.value))
    && (p.t1.Some? ==> Whole(p.t1.value) && Fits(p.t1.value.Floor))
    && (p.n2.Some? ==> Fits(p.n2.value))
  }

  datatype Item = Item(pi: byte, pv: bytes)

  predicate ItemsFit(items: seq<Item>) {
    forall i :: 0 <= i < |items| ==> |items[i].pv| <= 255
  }

  function ItemsBytes(items: seq<Item>): bytes
    requires ItemsFit(items)
  {
    if items == [] then [] else ItemsBytes(items[..|items| - 1]) + Field(items[|items| - 1].pi, items[|items| - 1].pv)
  }

  function BitItems(p: Parameters): seq<Item> {
    (if p.halfDuplex.Some? then [Item(PI_CLASSES, ClassesOctets(p.halfDuplex.value))] else [])
    + (if p.hdlc.Some? then [Item(PI_HDLC, HdlcOctets(p.hdlc.value))] else [])
  }

  function NumberItem(pi: byte, v: Option<nat>): seq<Item> {
    if v.Some? then [Item(pi, Digits(v.value))] else []
  }

  function FloorOf(t: Option<real>): Option<nat>
    requires t.Some? ==> t.value >= 0.0
  {
    if t.Some? then Some(t.value.Floor) else None
  }

  function KItem(k: Option<nat>): seq<Item> {
    if k.Some? then [Item(PI_K, [k.value % 128])] else []
  }

  /** The defined parameters in ascending order of identifier: the first four, then the rest. */
  function FirstItems(p: Parameters): (items: seq<Item>)
    requires Encodable(p)
    ensures ItemsFit(items) && |items| <= 4
  {
    BitItems(p) + NumberItem(PI_N1, p.n1Bits) + KItem(p.k)
  }

  function Items(p: Parameters): (items: seq<Item>)
    requires Encodable(p)
    ensures ItemsFit(items) && |items| <= 6
  {
    FirstItems(p) + NumberItem(PI_T1, FloorOf(p.t1)) + NumberItem(PI_N2, p.n2)
  }

  lemma {:induction false} ItemsShort(items: seq<Item>)
    requires ItemsFit(items)
    ensures |ItemsBytes(items)| <= 257 * |items|
  {
    if items != [] {
      ItemsShort(items[..|items| - 1]);
    }
  }

  function Body(p: Parameters): (s: bytes)
    requires Encodable(p)
    ensures |s| <= 0xffff
  {
    ItemsShort(Items(p));
    ItemsBytes(Items(p))
  }

  function Framed(body: bytes): bytes
    requires |body| <= 0xffff
  {
    [FORMAT_IDENTIFIER, GROUP_IDENTIFIER, |body| / 256, |body| % 256] + body
  }

  function Encode(p: Parameters): Option<bytes> {
    if !Encodable(p) then None else Some(Framed(Body(p)))
  }

  // ---- Parser ----------------------------------------------------------------------------------------------

  /** An empty value leaves the parameter as it is; an unknown identifier is ignored. */
  function WithField(p: Parameters, pi: byte, pv: bytes): Parameters {
    if pv == [] then p
    else if pi == PI_CLASSES then p.(halfDuplex := Some(ClassesOf(pv)))
    else if pi == PI_HDLC then p.(hdlc := Some(HdlcOf(pv)))
    else if pi == PI_N1 then p.(n1Bits := Some(Undigits(pv)))
    else if pi == PI_K then p.(k := Some(pv[0] % 128))
    else if pi == PI_T1 then p.(t1 := Some(Undigits(pv) as real))
    else if pi == PI_N2 then p.(n2 := Some(Undigits(pv)))
    else p
  }

  /** The fields from `pos` on, added to `p`; None when one is cut short and that is not allowed. */
  function Fields(pf: bytes, pos: nat, p: Parameters, lenient: bool): Option<Parameters>
    decreases |pf| - pos
  {
    if pos >= |pf| then Some(p)
    else if pos + 1 >= |pf| then if lenient then Some(p) else None
    else
      var start, end := pos + 2, pos + 2 + pf[pos + 1];
      if end > |pf| then if lenient then Some(WithField(p, pf[pos], pf[start..])) else None
      else Fields(pf, end, WithField(p, pf[pos], pf[start..end]), lenient)
  }

  /** The parameter field under a well-formed header; None when the header is wrong or claims too much. */
  function ParameterField(info: bytes, o: Options): Option<bytes> {
    if |info| < HEADER_LENGTH || info[0] != FORMAT_IDENTIFIER || info[1] != GROUP_IDENTIFIER then None
    else
      var claimed, available := info[2] as int * 256 + info[3], |info| - HEADER_LENGTH;
      if claimed > available && !o.allowGroupLengthOverrun then None
      else Some(info[HEADER_LENGTH..HEADER_LENGTH + Min(claimed, available)])
  }

  function Decode(info: bytes, o: Options): Option<Parameters> {
    var pf := ParameterField(info, o);
    if pf.None? then None else Fields(pf.value, 0, NOTHING, o.allowTruncatedParameter)
  }

  // ---- Round trip ------------------------------------------------------------------------------------------

  predicate At(s: bytes, pos: nat, piece: bytes) {
    pos + |piece| <= |s| && s[pos..pos + |piece|] == piece
  }

  lemma FieldRead(pf: bytes, pos: nat, pi: byte, pv: bytes, p: Parameters, lenient: bool)
    requires |pv| <= 255 && At(pf, pos, Field(pi, pv))
    ensures Fields(pf, pos, p, lenient) == Fields(pf, pos + 2 + |pv|, WithField(p, pi, pv), lenient)
  {
    var piece := Field(pi, pv);
    assert pf[pos] == piece[0] && pf[pos + 1] == piece[1];
    assert pf[pos + 2..pos + 2 + |pv|] == pf[pos..pos + |piece|][2..];
  }

  /** What survives the wire: the window modulo 128, and numbers up to the saturation point. */
  function OnWire(p: Parameters): Parameters
    requires Encodable(p)
  {
    p.(n1Bits := if p.n1Bits.Some? then Some(Min(p.n1Bits.value, MAX_SAFE)) else None,
       k := if p.k.Some? then Some(p.k.value % 128) else None,
       t1 := if p.t1.Some? then Some(Min(p.t1.value.Floor, MAX_SAFE) as real) else None,
       n2 := if p.n2.Some? then Some(Min(p.n2.value, MAX_SAFE)) else None)
  }

  /** The parameters after a run of fields. */
  function Applied(p: Parameters, items: seq<Item>): Parameters {
    if items == [] then p
    else WithField(Applied(p, items[..|items| - 1]), items[|items| - 1].pi, items[|items| - 1].pv)
  }

  lemma {:induction false} AppliedConcat(p: Parameters, a: seq<Item>, b: seq<Item>)
    ensures Applied(p, a + b) == Applied(Applied(p, a), b)
  {
    if b == [] {
      assert a + b == a;
    } else {
      assert (a + b)[..|a + b| - 1] == a + b[..|b| - 1];
      AppliedConcat(p, a, b[..|b| - 1]);
    }
  }

  lemma {:induction false} ItemsRead(pf: bytes, items: seq<Item>, p: Parameters, lenient: bool)
    requires ItemsFit(items) && ItemsBytes(items) <= pf
    ensures Fields(pf, 0, p, lenient) == Fields(pf, |ItemsBytes(items)|, Applied(p, items), lenient)
  {
    if items != [] {
      var init, last := items[..|items| - 1], items[|items| - 1];
      assert ItemsBytes(items) == ItemsBytes(init) + Field(last.pi, last.pv);
      ItemsRead(pf, init, p, lenient);
      NextFieldRead(pf, ItemsBytes(init), last, Applied(p, init), lenient);
    }
  }

  lemma NextFieldRead(pf: bytes, before: bytes, item: Item, p: Parameters, lenient: bool)
    requires |item.pv| <= 255 && before + Field(item.pi, item.pv) <= pf
    ensures Fields(pf, |before|, p, lenient) ==
              Fields(pf, |before + Field(item.pi, item.pv)|, WithField(p, item.pi, item.pv), lenient)
  {
    var pos, all := |before|, before + Field(item.pi, item.pv);
    assert all[pos..] == Field(item.pi, item.pv);
    assert pf[pos..|all|] == pf[..|all|][pos..];
    FieldRead(pf, pos, item.pi, item.pv, p, lenient);
  }

  lemma NumberApplied(p: Parameters, pi: byte, v: Option<nat>)
    ensures Applied(p, NumberItem(pi, v)) == if v.None? then p else WithField(p, pi, Digits(v.value))
    ensures v.Some? ==> Undigits(Digits(v.value)) == Min(v.value, MAX_SAFE)
  {
    if v.Some? {
      DigitsRoundTrip(v.value);
      assert NumberItem(pi, v)[..0] == [];
    }
  }

  lemma BitsApplied(p: Parameters)
    ensures Applied(NOTHING, BitItems(p)) == NOTHING.(halfDuplex := p.halfDuplex, hdlc := p.hdlc)
  {
    var first := if p.halfDuplex.Some? then [Item(PI_CLASSES, ClassesOctets(p.halfDuplex.value))] else [];
    var second := if p.hdlc.Some? then [Item(PI_HDLC, HdlcOctets(p.hdlc.value))] else [];
    AppliedConcat(NOTHING, first, second);
    if p.halfDuplex.Some? {
      BitFieldsRoundTrip(p.halfDuplex.value, Hdlc(true, true, true, true));
      assert first[..0] == [];
    }
    if p.hdlc.Some? {
      BitFieldsRoundTrip(true, p.hdlc.value);
      assert second[..0] == [];
    }
  }

  lemma FirstApplied(p: Parameters)
    requires Encodable(p)
    ensures var w := OnWire(p);
            Applied(NOTHING, FirstItems(p))
            == NOTHING.(halfDuplex := w.halfDuplex, hdlc := w.hdlc, n1Bits := w.n1Bits, k := w.k)
  {
    var a, b, c := BitItems(p), NumberItem(PI_N1, p.n1Bits), KItem(p.k);
    BitsApplied(p);
    var p0 := NOTHING.(halfDuplex := p.halfDuplex, hdlc := p.hdlc);
    NumberApplied(p0, PI_N1, p.n1Bits);
    AppliedConcat(NOTHING, a, b);
    AppliedConcat(NOTHING, a + b, c);
    assert c == [] || c[..0] == [];
  }

  lemma ItemsApplied(p: Parameters)
    requires Encodable(p)
    ensures Applied(NOTHING, Items(p)) == OnWire(p)
  {
    var a, b, c := FirstItems(p), NumberItem(PI_T1, FloorOf(p.t1)), NumberItem(PI_N2, p.n2);
    FirstApplied(p);
    var p0 := Applied(NOTHING, a);
    NumberApplied(p0, PI_T1, FloorOf(p.t1));
    AppliedConcat(NOTHING, a, b);
    var p1 := Applied(p0, b);
    NumberApplied(p1, PI_N2, p.n2);
    AppliedConcat(NOTHING, a + b, c);
  }

  lemma HeaderRead(body: bytes, o: Options)
    requires |body| <= 0xffff
    ensures ParameterField(Framed(body), o) == Some(body)
  {
    var info := Framed(body);
    assert info[2] as int * 256 + info[3] == |body|;
    assert info[HEADER_LENGTH..HEADER_LENGTH + |body|] == body;
  }

  /** Parsing an encoding gives back every parameter as the wire can carry it. */
  lemma XidRoundTrip(p: Parameters, o: Options)
    requires Encodable(p)
    ensures Decode(Encode(p).value, o) == Some(OnWire(p))
  {
    var body := Body(p);
    HeaderRead(body, o);
    ItemsRead(body, Items(p), NOTHING, o.allowTruncatedParameter);
    ItemsApplied(p);
  }

  // ---- The loops -------------------------------------------------------------------------------------------

  method PushParameter(sink: bytes, pi: byte, pv: bytes, ghost items: seq<Item>) returns (longer: bytes)
    requires |pv| <= 255 && ItemsFit(items) && sink == ItemsBytes(items)
    ensures ItemsFit(items + [Item(pi, pv)]) && longer == ItemsBytes(items + [Item(pi, pv)])
  {
    assert (items + [Item(pi, pv)])[..|items|] == items;
    longer := sink + [pi, |pv|] + pv;
    assert longer == sink + Field(pi, pv);
  }

  method PushNumber(sink: bytes, pi: byte, value: Option<nat>, ghost items: seq<Item>) returns (longer: Option<bytes>)
    requires ItemsFit(items) && sink == ItemsBytes(items)
    ensures longer.None? <==> value.Some? && !Fits(value.value)
    ensures longer.Some? ==> ItemsFit(items + NumberItem(pi, value))
                             && longer.value == ItemsBytes(items + NumberItem(pi, value))
  {
    if value.None? {
      assert items + NumberItem(pi, value) == items;
      return Some(sink);
    }
    var octets := EncodeUnsigned(value.value);
    if |octets| > 255 {
      return None;
    }
    var pushed := PushParameter(sink, pi, octets, items);
    longer := Some(pushed);
  }

  method PushBits(p: Parameters) returns (pf: bytes)
    ensures ItemsFit(BitItems(p)) && pf == ItemsBytes(BitItems(p))
  {
    pf := [];
    ghost var items: seq<Item> := [];
    if p.halfDuplex.Some? {
      pf := PushParameter(pf, PI_CLASSES, ClassesOctets(p.halfDuplex.value), items);
      items := items + [Item(PI_CLASSES, ClassesOctets(p.halfDuplex.value))];
    }
    if p.hdlc.Some? {
      pf := PushParameter(pf, PI_HDLC, HdlcOctets(p.hdlc.value), items);
      items := items + [Item(PI_HDLC, HdlcOctets(p.hdlc.value))];
    }
    assert items == BitItems(p);
  }

  method PushFirst(p: Parameters) returns (pf: Option<bytes>)
    ensures pf.None? <==> p.n1Bits.Some? && !Fits(p.n1Bits.value)
    ensures pf.Some? ==> var items := BitItems(p) + NumberItem(PI_N1, p.n1Bits) + KItem(p.k);
                         ItemsFit(items) && pf.value == ItemsBytes(items)
  {
    var bits := PushBits(p);
    ghost var items := BitItems(p);
    pf := PushNumber(bits, PI_N1, p.n1Bits, items);
    items := items + NumberItem(PI_N1, p.n1Bits);
    if pf.Some? && p.k.Some? {
      var pushed := PushParameter(pf.value, PI_K, [p.k.value % 128], items);
      pf := Some(pushed);
    } else {
      assert items + KItem(None) == items;
    }
  }

  method PushAll(p: Parameters) returns (pf: Option<bytes>)
    ensures pf == if Encodable(p) then Some(Body(p)) else None
  {
    pf := PushFirst(p);
    if pf.None? || (p.t1.Some? && !Whole(p.t1.value)) {
      return None;
    }
    ghost var items := BitItems(p) + NumberItem(PI_N1, p.n1Bits) + KItem(p.k);
    pf := PushNumber(pf.value, PI_T1, FloorOf(p.t1), items);
    if pf.Some? {
      items := items + NumberItem(PI_T1, FloorOf(p.t1));
      pf := PushNumber(pf.value, PI_N2, p.n2, items);
    }
  }

  method EncodeXid(p: Parameters) returns (info: Option<bytes>)
    ensures info == Encode(p)
  {
    var pf := PushAll(p);
    if pf.None? {
      return None;
    }
    info := Some(Framed(pf.value));
  }

  method ReadParameter(p: Parameters, pi: byte, pv: bytes) returns (next: Parameters)
    ensures next == WithField(p, pi, pv)
  {
    if pv != [] && (pi == PI_N1 || pi == PI_T1 || pi == PI_N2) {
      var number := DecodeUnsigned(pv);
      next := if pi == PI_N1 then p.(n1Bits := Some(number))
              else if pi == PI_T1 then p.(t1 := Some(number as real))
              else p.(n2 := Some(number));
    } else {
      next := WithField(p, pi, pv);
    }
  }

  method ReadFields(pf: bytes, lenient: bool) returns (r: Option<Parameters>)
    ensures r == Fields(pf, 0, NOTHING, lenient)
  {
    var p, pos: nat := NOTHING, 0;
    while pos < |pf|
      invariant Fields(pf, pos, p, lenient) == Fields(pf, 0, NOTHING, lenient)
      decreases |pf| - pos
    {
      var pi := pf[pos];
      if pos + 1 >= |pf| {
        return if lenient then Some(p) else None;
      }
      var pl: nat := pf[pos + 1];
      var start := pos + 2;
      if start + pl > |pf| {
        if !lenient {
          return None;
        }
        pl := |pf| - start;
        assert pf[start..start + pl] == pf[start..];
      }
      p := ReadParameter(p, pi, pf[start..start + pl]);
      pos := start + pl;
    }
    r := Some(p);
  }

  method TryParseXid(info: bytes, o: Options) returns (r: Option<Parameters>)
    ensures r == Decode(info, o)
  {
    if |info| < HEADER_LENGTH || info[0] != FORMAT_IDENTIFIER || info[1] != GROUP_IDENTIFIER {
      return None;
    }
    var groupLength: nat := info[2] as int * 256 + info[3];
    var available := |info| - HEADER_LENGTH;
    if groupLength > available {
      if !o.allowGroupLengthOverrun {
        return None;
      }
      groupLength := available;
    }
    r := ReadFields(info[HEADER_LENGTH..HEADER_LENGTH + groupLength], o.allowTruncatedParameter);
  }

  // ---- Octets ----------------------------------------------------------------------------------------------

  lemma ItemsBytesGrow(items: seq<Item>, item: Item)
    requires ItemsFit(items) && |item.pv| <= 255
    ensures ItemsBytes(items + [item]) == ItemsBytes(items) + [item.pi, |item.pv|] + item.pv
  {
    assert (items + [item])[..|items|] == items;
  }

  const KNOWN_OFFER := Parameters(Some(true), Some(Hdlc(false, true, true, false)), Some(1024), Some(2), Some(4096.0),
                                  Some(3))

  lemma KnownItems()
    ensures Encodable(KNOWN_OFFER)
    ensures Items(KNOWN_OFFER) ==
              [Item(2, [0x21, 0])] + [Item(3, [0x22, 0xa8, 0x82])] + [Item(6, [4, 0])] + [Item(8, [2])]
              + [Item(9, [16, 0])] + [Item(10, [3])]
  {
    assert Digits(4) == [4] && Digits(1024) == [4, 0];
    assert Digits(16) == [16] && Digits(4096) == [16, 0];
    assert Digits(3) == [3];
  }

  lemma OneItem(item: Item)
    requires |item.pv| <= 255
    ensures ItemsBytes([item]) == [item.pi, |item.pv|] + item.pv
  {
    ItemsBytesGrow([], item);
    assert [] + [item] == [item];
  }

  lemma ThreeItems(a: Item, b: Item, c: Item)
    requires |a.pv| <= 255 && |b.pv| <= 255 && |c.pv| <= 255
    ensures ItemsBytes([a] + [b] + [c]) == Field(a.pi, a.pv) + Field(b.pi, b.pv) + Field(c.pi, c.pv)
  {
    OneItem(a);
    ItemsBytesGrow([a], b);
    ItemsBytesGrow([a] + [b], c);
  }

  lemma SixItems(a: Item, b: Item, c: Item, d: Item, e: Item, f: Item)
    requires |a.pv| <= 255 && |b.pv| <= 255 && |c.pv| <= 255 && |d.pv| <= 255 && |e.pv| <= 255 && |f.pv| <= 255
    ensures ItemsBytes([a] + [b] + [c] + [d] + [e] + [f]) == Field(a.pi, a.pv) + Field(b.pi, b.pv) + Field(c.pi, c.pv)
              + Field(d.pi, d.pv) + Field(e.pi, e.pv) + Field(f.pi, f.pv)
  {
    ThreeItems(a, b, c);
    ItemsBytesGrow([a] + [b] + [c], d);
    ItemsBytesGrow([a] + [b] + [c] + [d], e);
    ItemsBytesGrow([a] + [b] + [c] + [d] + [e], f);
  }

  /** Half duplex, REJ, modulo 128, SREJ multiframe, 1024 bits, window 2, 4096 ms, 3 retries. */
  lemma KnownFrame()
    ensures Encode(KNOWN_OFFER).Some? && |Encode(KNOWN_OFFER).value| == 27
    ensures Encode(KNOWN_OFFER).value[..4] == [0x82, 0x80, 0, 23]
    ensures Encode(KNOWN_OFFER).value[4..] == [2, 2, 0x21, 0] + [3, 3, 0x22, 0xa8, 0x82] + [6, 2, 4, 0] + [8, 1, 2]
                                              + [9, 2, 16, 0] + [10, 1, 3]
  {
    KnownItems();
    SixItems(Item(2, [0x21, 0]), Item(3, [0x22, 0xa8, 0x82]), Item(6, [4, 0]), Item(8, [2]), Item(9, [16, 0]),
             Item(10, [3]));
    KnownFields();
  }

  lemma KnownFields()
    ensures Field(2, [0x21, 0]) == [2, 2, 0x21, 0] && Field(3, [0x22, 0xa8, 0x82]) == [3, 3, 0x22, 0xa8, 0x82]
    ensures Field(6, [4, 0]) == [6, 2, 4, 0] && Field(8, [2]) == [8, 1, 2]
    ensures Field(9, [16, 0]) == [9, 2, 16, 0] && Field(10, [3]) == [10, 1, 3]
  {
  }

  /** A wrong or short header is refused; one that claims more than there is, unless it may. */
  lemma HeaderNeeds(info: bytes, o: Options)
    ensures |info| < 4 || info[0] != 0x82 || info[1] != 0x80 ==> Decode(info, o).None?
    ensures |info| >= 4 && 256 * info[2] as int + info[3] > |info| - 4 && !o.allowGroupLengthOverrun ==>
              Decode(info, o).None?
    ensures |info| >= 4 && info[0] == 0x82 && info[1] == 0x80
            && (256 * info[2] as int + info[3] <= |info| - 4 || o.allowGroupLengthOverrun) ==>
              Decode(info, o) == Fields(info[4..Min(4 + 256 * info[2] as int + info[3], |info|)], 0, NOTHING,
                                        o.allowTruncatedParameter)
  {
  }

  /** A field cut short is refused, unless it may be; then what there is of its value counts. */
  lemma CutFieldNeeds(pf: bytes, pos: nat, p: Parameters, lenient: bool)
    requires pos < |pf|
    ensures pos + 1 == |pf| ==> Fields(pf, pos, p, lenient) == if lenient then Some(p) else None
    ensures pos + 1 < |pf| && pos + 2 + pf[pos + 1] > |pf| ==>
              Fields(pf, pos, p, lenient) == if lenient then Some(WithField(p, pf[pos], pf[pos + 2..])) else None
  {
  }

  /** Fields without a value and of unknown identifiers are passed over, and a later value replaces an earlier one. */
  lemma OddFields(p: Parameters, pi: byte, pv: bytes, pw: bytes)
    ensures WithField(p, pi, []) == p
    ensures pi != 2 && pi != 3 && pi != 6 && pi != 8 && pi != 9 && pi != 10 ==> WithField(p, pi, pv) == p
    ensures pw != [] ==> WithField(WithField(p, pi, pv), pi, pw) == WithField(p, pi, pw)
  {
  }

  /** What the bits of the octets of a peer mean, whatever the others say. */
  lemma BitsMean(pv: bytes)
    requires |pv| >= 3
    ensures HdlcOf(pv).selective <==> pv[2] / 4 % 2 == 1 || pv[2] / 2 % 2 == 0
    ensures HdlcOf(pv).modulo128 <==> pv[1] / 4 % 2 == 0 || pv[1] / 8 % 2 == 1
    ensures HdlcOf(pv).srejMultiframe <==> pv[0] / 32 % 2 == 1
    ensures HdlcOf(pv).segmenter <==> pv[0] / 64 % 2 == 1
    ensures ClassesOf(pv) <==> pv[0] / 64 % 2 == 0 || pv[0] / 32 % 2 == 1
  {
    var field := pv[0] as int * 65536 + pv[1] as int * 256 + pv[2];
    LowBits(pv[0] as int * 256 + pv[1], pv[2]);
    assert field == 256 * (pv[0] as int * 256 + pv[1]) + pv[2];
    MidBits(pv[0], pv[1], pv[2]);
    HighBits(pv[0], pv[1] as int * 256 + pv[2]);
  }

  /** The value of a number is its octets, most significant first; of a window's, the low seven bits of the first. */
  lemma NumbersMean(p: Parameters, a: byte, b: byte)
    ensures WithField(p, 6, [a, b]) == p.(n1Bits := Some(256 * a + b))
    ensures WithField(p, 8, [a, b]) == p.(k := Some(if a < 128 then a else a - 128))
    ensures WithField(p, 9, [a, b]) == p.(t1 := Some((256 * a + b) as real))
    ensures WithField(p, 10, [a, b]) == p.(n2 := Some(256 * a + b))
  {
    var pv: bytes := [a, b];
    assert pv[..1] == [a] && pv[..1][..0] == [];
    assert Undigits([]) == 0;
    assert Undigits([a]) == a;
  }

  lemma ProductGrows(a: int, b: int, d: nat)
    ensures a <= b ==> a * d <= b * d
  {
  }

  lemma QuotientIs(n: nat, m: nat, q: nat, r: nat)
    requires m > 0 && r < m && n == q * m + r
    ensures n / m == q
  {
    var p := n / m;
    assert n == p * m + n % m;
    ProductGrows(q + 1, p, m);
    ProductGrows(p + 1, q, m);
    assert (q + 1) * m == q * m + m && (p + 1) * m == p * m + m;
  }

  lemma EvenAbove(k: nat, v: nat)
    ensures (2 * k + v) % 2 == v % 2
  {
  }

  lemma LowBits(k: nat, low: byte)
    ensures (256 * k + low) / 4 % 2 == low / 4 % 2 && (256 * k + low) / 2 % 2 == low / 2 % 2
  {
    QuotientIs(256 * k + low, 4, 64 * k + low / 4, low % 4);
    QuotientIs(256 * k + low, 2, 128 * k + low / 2, low % 2);
    EvenAbove(32 * k, low / 4);
    EvenAbove(64 * k, low / 2);
  }

  lemma MidBits(high: byte, mid: byte, low: byte)
    ensures var field := high as int * 65536 + mid as int * 256 + low;
            field / 0x400 % 2 == mid / 4 % 2 && field / 0x800 % 2 == mid / 8 % 2
  {
    var field := high as int * 65536 + mid as int * 256 + low;
    QuotientIs(field, 0x400, 64 * high + mid / 4, 256 * (mid % 4) + low);
    QuotientIs(field, 0x800, 32 * high + mid / 8, 256 * (mid % 8) + low);
    EvenAbove(32 * high, mid / 4);
    EvenAbove(16 * high, mid / 8);
  }

  lemma HighBits(high: byte, below: nat)
    requires below < 65536
    ensures var field := high as int * 65536 + below;
            field / 0x20_0000 % 2 == high / 32 % 2 && field / 0x40_0000 % 2 == high / 64 % 2
  {
  }
}
