/**
 * The buffer-writing encoder and the looping parser, each proved equal to the functions of Inp3Rif.
 */
module Inp3RifCodec {
  import opened Common
  import opened Callsigns
  import opened Addresses
  import opened Inp3Rif

  // ---- Buffers ---------------------------------------------------------------------------------------------

  /** `now` is `before` with `x` written over it at `offset`. */
  predicate Written(now: bytes, before: bytes, offset: nat, x: bytes) {
    offset + |x| <= |before| && now == before[..offset] + x + before[offset + |x|..]
  }

  lemma WrittenMore(now: bytes, mid: bytes, before: bytes, offset: nat, x: bytes, y: bytes)
    requires Written(mid, before, offset, x) && Written(now, mid, offset + |x|, y)
    ensures Written(now, before, offset, x + y)
  {
    assert mid[..offset + |x|] == before[..offset] + x;
    assert mid[offset + |x| + |y|..] == before[offset + |x| + |y|..];
    assert before[..offset] + x + y == before[..offset] + (x + y);
  }

  lemma WrittenAll(now: bytes, before: bytes, x: bytes)
    requires Written(now, before, 1, x) && |before| == 1 + |x|
    ensures now == [before[0]] + x
  {
    assert before[1 + |x|..] == [] && before[..1] == [before[0]];
  }

  function TlvsLength(ts: seq<Tlv>): nat {
    if ts == [] then 0 else TlvsLength(ts[..|ts| - 1]) + 2 + |ts[|ts| - 1].value|
  }

  function RipLength(r: Rip): nat {
    PREFIX_LENGTH + TlvsLength(r.tlvs) + 1
  }

  function RipsLength(rs: seq<Rip>): nat {
    if rs == [] then 0 else RipsLength(rs[..|rs| - 1]) + RipLength(rs[|rs| - 1])
  }

  lemma {:induction false} TlvsSnoc(ts: seq<Tlv>, t: Tlv)
    requires TlvFits(t) && forall i :: 0 <= i < |ts| ==> TlvFits(ts[i])
    ensures TlvsBytes(ts + [t]) == TlvsBytes(ts) + TlvBytes(t)
  {
    if ts == [] {
      assert [] + [t] == [t] && [t][1..] == [];
      assert TlvsBytes([t]) == TlvBytes(t) + TlvsBytes([t][1..]);
    } else {
      assert (ts + [t])[1..] == ts[1..] + [t];
      TlvsSnoc(ts[1..], t);
    }
  }

  lemma {:induction false} TlvsLengthIs(ts: seq<Tlv>)
    requires forall i :: 0 <= i < |ts| ==> TlvFits(ts[i])
    ensures |TlvsBytes(ts)| == TlvsLength(ts)
  {
    if ts != [] {
      var init, last := ts[..|ts| - 1], ts[|ts| - 1];
      TlvsLengthIs(init);
      TlvsSnoc(init, last);
      assert init + [last] == ts;
    }
  }

  lemma RipLengthIs(r: Rip)
    requires Encodable(r)
    ensures |RipBytes(r)| == RipLength(r)
  {
    TlvsLengthIs(r.tlvs);
  }

  lemma {:induction false} RipsSnoc(rs: seq<Rip>, r: Rip)
    requires AllEncodable(rs) && Encodable(r)
    ensures RipsBytes(rs + [r]) == RipsBytes(rs) + RipBytes(r)
  {
    if rs == [] {
      assert [] + [r] == [r] && [r][1..] == [];
      assert RipsBytes([r]) == RipBytes(r) + RipsBytes([r][1..]);
    } else {
      assert (rs + [r])[1..] == rs[1..] + [r];
      RipsSnoc(rs[1..], r);
    }
  }

  // ---- Encoder ---------------------------------------------------------------------------------------------

  method WriteTlv(t: Tlv, dest: array<byte>, offset: nat) returns (ok: bool)
    modifies dest
    ensures ok <==> TlvFits(t) && offset + 2 + |t.value| <= dest.Length
    ensures ok ==> Written(dest[..], old(dest[..]), offset, TlvBytes(t))
    ensures !ok ==> dest[..] == old(dest[..])
  {
    if |t.value| > 255 || dest.Length < offset + 2 + |t.value| {
      return false;
    }
    dest[offset] := t.kind;
    dest[offset + 1] := |t.value|;
    forall i | 0 <= i < |t.value| {
      dest[offset + 2 + i] := t.value[i];
    }
    assert dest[..] == old(dest[..])[..offset] + TlvBytes(t) + old(dest[..])[offset + 2 + |t.value|..];
    return true;
  }

  /** The fixed fields of a RIP: callsign, hop count, target time. */
  method WritePrefix(r: Rip, dest: array<byte>, offset: nat)
    requires Valid(r.destination) && 0 <= r.targetTimeMs && r.targetTimeMs / 10 <= 0xffff
    requires offset + PREFIX_LENGTH <= dest.Length
    modifies dest
    ensures Written(dest[..], old(dest[..]), offset, Prefix(r.(tlvs := [])))
  {
    var units := r.targetTimeMs / 10;
    ghost var before := dest[..];
    var wrote := WriteShifted(r.destination, dest, offset);
    ghost var mid := dest[..];
    WriteCounts(r.hopCount, units, dest, offset + SHIFTED_LENGTH);
    WrittenMore(dest[..], mid, before, offset, Shifted(r.destination), Counts(r.hopCount, units));
  }

  function Counts(hopCount: nat, units: nat): bytes {
    [hopCount % 256, units / 256 % 256, units % 256]
  }

  method WriteCounts(hopCount: nat, units: nat, dest: array<byte>, o: nat)
    requires o + 3 <= dest.Length
    modifies dest
    ensures Written(dest[..], old(dest[..]), o, Counts(hopCount, units))
  {
    dest[o] := hopCount % 256;
    dest[o + 1] := units / 256 % 256;
    dest[o + 2] := units % 256;
  }

  /** Write one RIP; false when the buffer is too small or a field is out of range. */
  method WriteRip(r: Rip, dest: array<byte>, offset: nat) returns (ok: bool)
    requires Valid(r.destination)
    modifies dest
    ensures ok <==> Encodable(r) && offset + RipLength(r) <= dest.Length
    ensures ok ==> Written(dest[..], old(dest[..]), offset, RipBytes(r))
  {
    if r.targetTimeMs < 0 || r.targetTimeMs / 10 > 0xffff || dest.Length < offset + RipLength(r) {
      return false;
    }
    ghost var before := dest[..];
    WritePrefix(r, dest, offset);
    ok := WriteTlvs(r, dest, offset, offset + PREFIX_LENGTH, before);
    if ok {
      WriteEnd(r, dest, offset, before);
    }
  }

  /** The end marker. */
  method WriteEnd(r: Rip, dest: array<byte>, offset: nat, ghost before: bytes)
    requires Encodable(r) && offset + RipLength(r) <= dest.Length == |before|
    requires Written(dest[..], before, offset, Prefix(r) + TlvsBytes(r.tlvs))
    modifies dest
    ensures Written(dest[..], before, offset, RipBytes(r))
  {
    var o := offset + RipLength(r) - 1;
    ghost var mid := dest[..];
    dest[o] := END_OF_PACKET;
    TlvsLengthIs(r.tlvs);
    assert Written(dest[..], mid, o, [END_OF_PACKET]);
    WrittenMore(dest[..], mid, before, offset, Prefix(r) + TlvsBytes(r.tlvs), [END_OF_PACKET]);
  }

  /** The body of the TLV loop: one more TLV after the first `i`. */
  method WriteNextTlv(ts: seq<Tlv>, i: nat, dest: array<byte>, o: nat, ghost offset: nat, ghost prefix: bytes,
                      ghost before: bytes)
    returns (ok: bool)
    requires i < |ts| && forall j :: 0 <= j < i ==> TlvFits(ts[j])
    requires o == offset + |prefix| + |TlvsBytes(ts[..i])| && o + 2 + |ts[i].value| <= dest.Length
    requires Written(dest[..], before, offset, prefix + TlvsBytes(ts[..i]))
    modifies dest
    ensures ok <==> TlvFits(ts[i])
    ensures ok ==> Written(dest[..], before, offset, prefix + TlvsBytes(ts[..i + 1]))
  {
    ghost var mid := dest[..];
    ok := WriteTlv(ts[i], dest, o);
    if ok {
      WrittenMore(dest[..], mid, before, offset, prefix + TlvsBytes(ts[..i]), TlvBytes(ts[i]));
      TlvsStep(prefix, ts, i);
    }
  }

  /** The TLV loop of the RIP writer. */
  method WriteTlvs(r: Rip, dest: array<byte>, offset: nat, start: nat, ghost before: bytes) returns (ok: bool)
    requires Valid(r.destination) && 0 <= r.targetTimeMs && r.targetTimeMs / 10 <= 0xffff
    requires start == offset + PREFIX_LENGTH && offset + RipLength(r) <= dest.Length == |before|
    requires Written(dest[..], before, offset, Prefix(r.(tlvs := [])))
    modifies dest
    ensures ok <==> Encodable(r)
    ensures ok ==> Written(dest[..], before, offset, Prefix(r) + TlvsBytes(r.tlvs))
  {
    var o := start;
    ghost var prefix := Prefix(r.(tlvs := []));
    assert prefix + [] == prefix;
    for i := 0 to |r.tlvs|
      invariant forall j :: 0 <= j < i ==> TlvFits(r.tlvs[j])
      invariant o == start + TlvsLength(r.tlvs[..i])
      invariant Written(dest[..], before, offset, prefix + TlvsBytes(r.tlvs[..i]))
    {
      LengthGrows(r.tlvs, i);
      TlvsLengthIs(r.tlvs[..i]);
      var fits := WriteNextTlv(r.tlvs, i, dest, o, offset, prefix, before);
      if !fits {
        return false;
      }
      TlvsStep(prefix, r.tlvs, i);
      o := o + 2 + |r.tlvs[i].value|;
    }
    assert r.tlvs[..|r.tlvs|] == r.tlvs;
    return true;
  }

  /** One more TLV after the first `i`. */
  lemma TlvsStep(prefix: bytes, ts: seq<Tlv>, i: nat)
    requires i < |ts| && forall j :: 0 <= j <= i ==> TlvFits(ts[j])
    ensures prefix + TlvsBytes(ts[..i]) + TlvBytes(ts[i]) == prefix + TlvsBytes(ts[..i + 1])
    ensures TlvsLength(ts[..i + 1]) == TlvsLength(ts[..i]) + 2 + |ts[i].value|
  {
    TlvsSnoc(ts[..i], ts[i]);
    assert ts[..i] + [ts[i]] == ts[..i + 1] && ts[..i + 1][..i] == ts[..i];
  }

  lemma RipsStep(rs: seq<Rip>, i: nat)
    requires i < |rs| && forall j :: 0 <= j <= i ==> Encodable(rs[j])
    ensures RipsBytes(rs[..i]) + RipBytes(rs[i]) == RipsBytes(rs[..i + 1])
    ensures RipsLength(rs[..i + 1]) == RipsLength(rs[..i]) + RipLength(rs[i])
  {
    RipsSnoc(rs[..i], rs[i]);
    assert rs[..i] + [rs[i]] == rs[..i + 1] && rs[..i + 1][..i] == rs[..i];
  }

  lemma {:induction false} LengthGrows(ts: seq<Tlv>, i: nat)
    requires i < |ts|
    ensures TlvsLength(ts[..i]) + 2 + |ts[i].value| <= TlvsLength(ts)
    decreases |ts|
  {
    if i == |ts| - 1 {
    } else {
      assert ts[..|ts| - 1][..i] == ts[..i];
      LengthGrows(ts[..|ts| - 1], i);
    }
  }

  lemma {:induction false} RipsLengthGrows(rs: seq<Rip>, i: nat)
    requires i < |rs|
    ensures RipsLength(rs[..i]) + RipLength(rs[i]) <= RipsLength(rs)
    decreases |rs|
  {
    if i == |rs| - 1 {
    } else {
      assert rs[..|rs| - 1][..i] == rs[..i];
      RipsLengthGrows(rs[..|rs| - 1], i);
    }
  }

  lemma {:induction false} RipsLengthIs(rs: seq<Rip>)
    requires AllEncodable(rs)
    ensures |RipsBytes(rs)| == RipsLength(rs)
  {
    if rs != [] {
      var init, last := rs[..|rs| - 1], rs[|rs| - 1];
      RipsLengthIs(init);
      RipsSnoc(init, last);
      RipLengthIs(last);
      assert init + [last] == rs;
    }
  }

  /** The body of that loop: one more RIP after the first `i`. */
  method WriteNext(rs: seq<Rip>, i: nat, buf: array<byte>, o: nat, ghost before: bytes) returns (ok: bool)
    requires i < |rs| && Valid(rs[i].destination) && AllEncodable(rs[..i])
    requires o == 1 + |RipsBytes(rs[..i])| && o + RipLength(rs[i]) <= buf.Length
    requires Written(buf[..], before, 1, RipsBytes(rs[..i]))
    modifies buf
    ensures ok <==> Encodable(rs[i])
    ensures ok ==> AllEncodable(rs[..i + 1]) && Written(buf[..], before, 1, RipsBytes(rs[..i + 1]))
  {
    ghost var mid := buf[..];
    ok := WriteRip(rs[i], buf, o);
    if ok {
      WrittenMore(buf[..], mid, before, 1, RipsBytes(rs[..i]), RipBytes(rs[i]));
      RipsStep(rs, i);
    }
  }

  /** Write the RIPs one after the other from offset 1; false when some field is out of range. */
  method WriteRips(rs: seq<Rip>, buf: array<byte>) returns (ok: bool)
    requires forall i :: 0 <= i < |rs| ==> Valid(rs[i].destination)
    requires buf.Length == 1 + RipsLength(rs)
    modifies buf
    ensures ok <==> AllEncodable(rs)
    ensures ok ==> Written(buf[..], old(buf[..]), 1, RipsBytes(rs))
  {
    ghost var before := buf[..];
    var o := 1;
    for i := 0 to |rs|
      invariant AllEncodable(rs[..i])
      invariant o == 1 + RipsLength(rs[..i])
      invariant Written(buf[..], before, 1, RipsBytes(rs[..i]))
    {
      RipsLengthGrows(rs, i);
      RipsLengthIs(rs[..i]);
      var wrote := WriteNext(rs, i, buf, o, before);
      if !wrote {
        return false;
      }
      RipsStep(rs, i);
      o := o + RipLength(rs[i]);
    }
    assert rs[..|rs|] == rs;
    return true;
  }

  /** The encoding of a frame in a buffer of exactly its length; None when some field is out of range. */
  method RifToBytes(rs: seq<Rip>) returns (r: Option<bytes>)
    requires forall i :: 0 <= i < |rs| ==> Valid(rs[i].destination)
    ensures r == if AllEncodable(rs) then Some(RifBytes(rs)) else None
  {
    var buf := new byte[1 + RipsLength(rs)](_ => 0);
    buf[0] := SIGNATURE;
    ghost var before := buf[..];
    var ok := WriteRips(rs, buf);
    if !ok {
      return None;
    }
    RipsLengthIs(rs);
    WrittenAll(buf[..], before, RipsBytes(rs));
    return Some(buf[..]);
  }

  // ---- Parser ----------------------------------------------------------------------------------------------

  method ParseRipAt(source: bytes, offset: nat) returns (p: Option<Parsed>)
    ensures p == ParseRip(source, offset)
  {
    var len := |source|;
    if len < offset + PREFIX_LENGTH {
      return None;
    }
    var dest := TryReadShifted(source, offset);
    if dest.None? {
      return None;
    }
    var o := offset + SHIFTED_LENGTH;
    var hop := source[o];
    var units := Units(source[o + 1], source[o + 2]);
    o := o + 3;
    var tlvs: seq<Tlv> := [];
    ghost var whole := WalkTlvs(source, o);
    PrependNone(whole);
    while true
      invariant o <= len && whole == Prepend(tlvs, WalkTlvs(source, o))
      decreases len - o
    {
      if o >= len {
        return None;
      }
      var kind := source[o];
      if kind == END_OF_PACKET {
        var isTlv := o + 1 < len && o + 2 + source[o + 1] <= len;
        if !isTlv {
          o := o + 1;
          assert tlvs + [] == tlvs;
          break;
        }
      } else {
        if o + 1 >= len {
          return None;
        }
      }
      var tlvLen := source[o + 1];
      var valueStart := o + 2;
      if valueStart + tlvLen > len {
        return None;
      }
      var t := Tlv(kind, source[valueStart..valueStart + tlvLen]);
      PrependSnoc(tlvs, t, WalkTlvs(source, valueStart + tlvLen));
      tlvs := tlvs + [t];
      o := valueStart + tlvLen;
    }
    return Some(Parsed(Rip(dest.value, hop, 10 * units, tlvs), o));
  }

  lemma PrependSnoc(ts: seq<Tlv>, t: Tlv, w: Option<Walk>)
    ensures Prepend(ts, Prepend([t], w)) == Prepend(ts + [t], w)
  {
    if w.Some? {
      assert ts + ([t] + w.value.tlvs) == ts + [t] + w.value.tlvs;
    }
  }

  method ParseRifBytes(info: bytes, options: Options) returns (r: Option<seq<Rip>>)
    ensures r == ParseRif(info, options)
  {
    if |info| < 1 || info[0] != SIGNATURE {
      return None;
    }
    var rips: seq<Rip> := [];
    var offset := 1;
    ghost var body := ParseRips(info, 1);
    while offset < |info|
      invariant 1 <= offset <= |info|
      invariant body == Body(rips + ParseRips(info, offset).rips, ParseRips(info, offset).whole)
      decreases |info| - offset
    {
      var p := ParseRipAt(info, offset);
      if p.None? {
        assert rips + [] == rips;
        if !options.allowTrailingPartialRip {
          return None;
        }
        break;
      }
      assert rips + ([p.value.rip] + ParseRips(info, p.value.end).rips)
          == rips + [p.value.rip] + ParseRips(info, p.value.end).rips;
      rips := rips + [p.value.rip];
      offset := p.value.end;
    }
    assert body.rips == rips;
    if |rips| == 0 && !options.allowEmptyRipList {
      return None;
    }
    return Some(rips);
  }
}
