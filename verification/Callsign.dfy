/** Callsigns and their 7-octet shifted form. */
module Callsigns {
  import opened Common

  /** A base of 0 to 6 characters A-Z / 0-9, as ASCII codes, and a secondary station identifier. */
  datatype Callsign = Callsign(base: bytes, ssid: nat)

  predicate IsBaseChar(c: byte) {
    0x41 <= c <= 0x5a || 0x30 <= c <= 0x39
  }

  predicate Valid(c: Callsign) {
    |c.base| <= 6 && c.ssid <= 15 && forall i :: 0 <= i < |c.base| ==> IsBaseChar(c.base[i])
  }

  const SHIFTED_LENGTH := 7

  const SPACE: byte := 0x20

  /** The character written at position `i`: the base, then spaces. */
  function PaddedAt(c: Callsign, i: nat): byte {
    if i < |c.base| then c.base[i] else SPACE
  }

  /** The SSID octet: reserved bits set, command and end-of-address bits clear. */
  function SsidOctet(c: Callsign): byte
    requires Valid(c)
  {
    0x60 + 2 * c.ssid
  }

  function ShiftedAt(c: Callsign, i: nat): byte
    requires Valid(c)
  {
    if i < 6 then (PaddedAt(c, i) * 2) % 256 else SsidOctet(c)
  }

  function Shifted(c: Callsign): (s: bytes)
    requires Valid(c)
    ensures |s| == SHIFTED_LENGTH
  {
    seq<byte>(SHIFTED_LENGTH, i requires 0 <= i < SHIFTED_LENGTH => ShiftedAt(c, i))
  }

  /** The base held in the first `n` octets of a field, or None on a bad character or one after padding. */
  function ReadBase(field: bytes, n: nat): Option<bytes>
    requires n <= |field|
  {
    if n == 0 then Some([])
    else
      var before := ReadBase(field, n - 1);
      var c := field[n - 1] / 2;
      if before.None? then None
      else if c == SPACE then before
      else if |before.value| != n - 1 || !IsBaseChar(c) then None
      else Some(before.value + [c])
  }

  function ReadShifted(field: bytes): Option<Callsign>
    requires |field| >= SHIFTED_LENGTH
  {
    var base := ReadBase(field, 6);
    if base.None? then None else Some(Callsign(base.value, field[6] / 2 % 16))
  }

  lemma {:induction false} ReadBaseOfShifted(c: Callsign, field: bytes, n: nat)
    requires Valid(c) && |field| >= SHIFTED_LENGTH && field[..6] == Shifted(c)[..6] && n <= 6
    ensures ReadBase(field, n) == Some(if n <= |c.base| then c.base[..n] else c.base)
  {
    if n > 0 {
      ReadBaseOfShifted(c, field, n - 1);
      assert field[n - 1] == field[..6][n - 1] == Shifted(c)[n - 1] == PaddedAt(c, n - 1) * 2;
      if n <= |c.base| {
        assert c.base[..n - 1] + [c.base[n - 1]] == c.base[..n];
      } else {
        assert c.base[..|c.base|] == c.base;
      }
    }
  }

  /** Decoding the shifted form of a callsign, whatever follows it, gives the callsign back. */
  lemma ShiftedRoundTrip(c: Callsign, field: bytes)
    requires Valid(c) && |field| >= SHIFTED_LENGTH && field[..SHIFTED_LENGTH] == Shifted(c)
    ensures ReadShifted(field) == Some(c)
  {
    assert field[..6] == field[..SHIFTED_LENGTH][..6];
    ReadBaseOfShifted(c, field, 6);
    assert field[6] == field[..SHIFTED_LENGTH][6] == SsidOctet(c);
    assert SsidOctet(c) / 2 == 48 + c.ssid && (48 + c.ssid) % 16 == c.ssid;
    assert c.base[..|c.base|] == c.base;
  }

  /** Whatever decodes is a well-formed callsign. */
  lemma ReadIsValid(field: bytes)
    requires |field| >= SHIFTED_LENGTH && ReadShifted(field).Some?
    ensures Valid(ReadShifted(field).value)
  {
    ReadBaseValid(field, 6);
  }

  lemma {:induction false} ReadBaseValid(field: bytes, n: nat)
    requires n <= |field| && ReadBase(field, n).Some?
    ensures |ReadBase(field, n).value| <= n
    ensures forall i :: 0 <= i < |ReadBase(field, n).value| ==> IsBaseChar(ReadBase(field, n).value[i])
  {
    if n > 0 {
      ReadBaseValid(field, n - 1);
    }
  }

  // ---- What is read ----------------------------------------------------------------------------------------

  lemma ValidIff(c: Callsign)
    ensures Valid(c) <==> |c.base| <= 6 && c.ssid < 16 && forall i :: 0 <= i < |c.base| ==>
              'A' as int <= c.base[i] <= 'Z' as int || '0' as int <= c.base[i] <= '9' as int
  {
  }

  /** The first `n` octets of a field read as `base` exactly when, halved, they are its characters and then spaces. */
  lemma {:induction false} ReadBaseIff(field: bytes, n: nat, base: bytes)
    requires n <= |field|
    ensures ReadBase(field, n) == Some(base) <==>
              |base| <= n && (forall i :: 0 <= i < |base| ==> IsBaseChar(base[i]) && field[i] / 2 == base[i])
              && (forall i :: |base| <= i < n ==> field[i] / 2 == ' ' as int)
  {
    if ReadBase(field, n).Some? {
      ReadBaseValid(field, n);
    }
    if n > 0 && |base| <= n {
      ReadLonger(field, n, base);
      if |base| == n {
        ReadBaseIff(field, n - 1, base[..n - 1]);
        if ReadBase(field, n - 1).Some? {
          ReadBaseValid(field, n - 1);
        }
        assert forall i :: 0 <= i < n - 1 ==> base[..n - 1][i] == base[i];
      } else {
        ReadBaseIff(field, n - 1, base);
      }
    }
  }

  /** What the last octet adds. */
  lemma ReadLonger(field: bytes, n: nat, base: bytes)
    requires 0 < n <= |field|
    ensures ReadBase(field, n) == Some(base) <==>
              var c := field[n - 1] / 2;
              if c == SPACE then ReadBase(field, n - 1) == Some(base)
              else |base| == n && IsBaseChar(c) && base[n - 1] == c && ReadBase(field, n - 1) == Some(base[..n - 1])
  {
    var before, c := ReadBase(field, n - 1), field[n - 1] / 2;
    if before.Some? && c != SPACE {
      assert (before.value + [c])[..|before.value|] == before.value;
      assert |base| == n ==> base == base[..n - 1] + [base[n - 1]];
    }
  }

  /** A field reads as a callsign exactly when its octets, halved, are the padded base and the SSID in four bits. */
  lemma ReadIff(field: bytes, c: Callsign)
    requires |field| >= 7
    ensures ReadShifted(field) == Some(c) <==>
              Valid(c) && (forall i :: 0 <= i < 6 ==> field[i] / 2 == if i < |c.base| then c.base[i] else ' ' as int)
              && field[6] / 2 % 16 == c.ssid
  {
    ReadBaseIff(field, 6, c.base);
  }
}
