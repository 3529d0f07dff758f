/** One address slot of an AX.25 frame, and the callsign fields of NET/ROM, which are slots with both bits clear. */
module Addresses {
  import opened Common
  import opened Callsigns

  /** A callsign, its command or has-been-repeated bit, and whether it ends the address field. */
  datatype Address = Address(callsign: Callsign, crh: bool, last: bool)

  function SsidByte(a: Address): byte
    requires Valid(a.callsign)
  {
    SsidOctet(a.callsign) + (if a.crh then 0x80 else 0) + if a.last then 1 else 0
  }

  function AddressBytes(a: Address): (s: bytes)
    requires Valid(a.callsign)
    ensures |s| == SHIFTED_LENGTH
  {
    Shifted(a.callsign)[..6] + [SsidByte(a)]
  }

  function ReadAddress(s: bytes, o: nat): Option<Address> {
    if |s| < o + SHIFTED_LENGTH then None
    else
      var c := ReadShifted(s[o..]);
      if c.None? then None else Some(Address(c.value, s[o + 6] >= 0x80, s[o + 6] % 2 == 1))
  }

  // ---- The code --------------------------------------------------------------------------------------------

  method WriteAddress(dest: array<byte>, offset: nat, a: Address)
    requires Valid(a.callsign) && offset + SHIFTED_LENGTH <= dest.Length
    modifies dest
    ensures dest[..offset + SHIFTED_LENGTH] == old(dest[..offset]) + AddressBytes(a)
    ensures dest[offset + SHIFTED_LENGTH..] == old(dest[offset + SHIFTED_LENGTH..])
  {
    for i := 0 to 6
      invariant dest[..offset] == old(dest[..offset])
      invariant dest[offset + SHIFTED_LENGTH..] == old(dest[offset + SHIFTED_LENGTH..])
      invariant forall j :: 0 <= j < i ==> dest[offset + j] == Shifted(a.callsign)[j]
    {
      var c := if i < |a.callsign.base| then a.callsign.base[i] else SPACE;
      dest[offset + i] := (c * 2) % 256;
    }
    var ssidByte := 0x60 + 2 * a.callsign.ssid;
    if a.crh {
      ssidByte := ssidByte + 0x80;
    }
    if a.last {
      ssidByte := ssidByte + 1;
    }
    dest[offset + 6] := ssidByte;
    ghost var slot := AddressBytes(a);
    assert slot[6] == ssidByte && forall j :: 0 <= j < 6 ==> slot[j] == Shifted(a.callsign)[j];
    assert forall j :: 0 <= j < SHIFTED_LENGTH ==> dest[offset + j] == slot[j];
    assert dest[offset..offset + SHIFTED_LENGTH] == slot;
    assert dest[..offset + SHIFTED_LENGTH] == dest[..offset] + dest[offset..offset + SHIFTED_LENGTH];
  }

  /** Decode the slot at `o`; None when it is too short or not a callsign. */
  method ReadAddressAt(s: bytes, o: nat) returns (a: Option<Address>)
    ensures a == ReadAddress(s, o)
  {
    if |s| < o + SHIFTED_LENGTH {
      return None;
    }
    ghost var field := s[o..];
    var base: bytes := [];
    var inPadding := false;
    for i := 0 to 6
      invariant ReadBase(field, i) == Some(base) && |base| <= i
      invariant inPadding <==> |base| != i
    {
      assert s[o + i] == field[i];
      var c := s[o + i] / 2;
      if c == SPACE {
        inPadding := true;
      } else if inPadding || !IsBaseChar(c) {
        ReadBaseNone(field, i + 1, 6);
        return None;
      } else {
        base := base + [c];
      }
    }
    var ssidByte := s[o + 6];
    assert ssidByte == field[6];
    return Some(Address(Callsign(base, ssidByte / 2 % 16), ssidByte >= 0x80, ssidByte % 2 == 1));
  }

  lemma {:induction false} ReadBaseNone(field: bytes, n: nat, m: nat)
    requires n <= m <= |field| && ReadBase(field, n).None?
    ensures ReadBase(field, m).None?
  {
    if n < m {
      ReadBaseNone(field, n, m - 1);
    }
  }

  /** Write the shifted form of `c` at `offset`; false when the buffer has no room for it. */
  method WriteShifted(c: Callsign, dest: array<byte>, offset: nat) returns (ok: bool)
    requires Valid(c)
    modifies dest
    ensures ok <==> offset + SHIFTED_LENGTH <= dest.Length
    ensures ok ==> dest[..] == old(dest[..offset]) + Shifted(c) + old(dest[offset + SHIFTED_LENGTH..])
    ensures !ok ==> dest[..] == old(dest[..])
  {
    if dest.Length < offset + SHIFTED_LENGTH {
      return false;
    }
    ShiftedIsSlot(c);
    WriteAddress(dest, offset, Address(c, false, false));
    assert dest[..] == dest[..offset + SHIFTED_LENGTH] + dest[offset + SHIFTED_LENGTH..];
    return true;
  }

  lemma ShiftedIsSlot(c: Callsign)
    requires Valid(c)
    ensures AddressBytes(Address(c, false, false)) == Shifted(c)
  {
  }

  /** Decode the callsign field at `offset`; None when it is too short or not a callsign. */
  method TryReadShifted(source: bytes, offset: nat) returns (r: Option<Callsign>)
    ensures r == if |source| < offset + SHIFTED_LENGTH then None else ReadShifted(source[offset..])
  {
    var a := ReadAddressAt(source, offset);
    return if a.None? then None else Some(a.value.callsign);
  }

  // ---- Round trip ------------------------------------------------------------------------------------------

  lemma AddressRead(s: bytes, o: nat, a: Address)
    requires Valid(a.callsign) && o + SHIFTED_LENGTH <= |s| && s[o..o + SHIFTED_LENGTH] == AddressBytes(a)
    ensures ReadAddress(s, o) == Some(a)
  {
    var field, slot := s[o..], s[o..o + SHIFTED_LENGTH];
    assert field[..6] == slot[..6] == Shifted(a.callsign)[..6];
    ReadBaseOfShifted(a.callsign, field, 6);
    assert a.callsign.base[..|a.callsign.base|] == a.callsign.base;
    assert field[6] == slot[6] == SsidByte(a);
    SsidRead(a);
  }

  lemma SsidRead(a: Address)
    requires Valid(a.callsign)
    ensures var b := SsidByte(a);
            b / 2 % 16 == a.callsign.ssid && (b >= 0x80 <==> a.crh) && (b % 2 == 1 <==> a.last)
  {
    var b, half := SsidByte(a), 48 + a.callsign.ssid + (if a.crh then 64 else 0);
    assert b == 2 * half + if a.last then 1 else 0;
    assert half == 16 * (3 + if a.crh then 4 else 0) + a.callsign.ssid;
  }

  /** Whatever reads is a well-formed callsign. */
  lemma AddressIsValid(s: bytes, o: nat)
    requires ReadAddress(s, o).Some?
    ensures Valid(ReadAddress(s, o).value.callsign)
  {
    ReadIsValid(s[o..]);
  }

  /** The octets of a slot: the characters doubled, padded with spaces, then the bits of the last one. */
  lemma AddressLayout(a: Address)
    requires Valid(a.callsign)
    ensures var s := AddressBytes(a);
            && |s| == 7
            && (forall i :: 0 <= i < 6 ==>
                  s[i] == 2 * if i < |a.callsign.base| then a.callsign.base[i] as int else ' ' as int)
            && s[6] == (if a.crh then 0x80 else 0) + 0x60 + 2 * a.callsign.ssid + if a.last then 1 else 0
  {
    var s := AddressBytes(a);
    forall i | 0 <= i < 6
      ensures s[i] == 2 * if i < |a.callsign.base| then a.callsign.base[i] as int else ' ' as int
    {
      assert s[i] == Shifted(a.callsign)[i] == ShiftedAt(a.callsign, i);
      assert i < |a.callsign.base| ==> IsBaseChar(a.callsign.base[i]);
    }
  }
}
