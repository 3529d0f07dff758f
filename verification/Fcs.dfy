/**
 * The 16-bit frame check sequence of AX.25 over UDP: reflected CRC-CCITT, low octet first.
 *
 * Octets and the register are modelled as their bits, least significant first: `crc & 1` is bit 0, `crc >>> 1`
 * drops it, and exclusive or is taken bit by bit.
 */
module Fcs {
  import opened Common

  type Octet = o: seq<bool> | |o| == 8 witness seq(8, i => false)

  type Word = w: seq<bool> | |w| == 16 witness seq(16, i => false)

  type Octets = seq<Octet>

  const FCS_LENGTH := 2
  const MIN_FRAME := 15

  /** Bits 3, 10 and 15: 0x8408. */
  predicate Polynomial(i: nat) {
    i == 3 || i == 10 || i == 15
  }

  function PolynomialWord(): Word {
    seq<bool>(16, i requires 0 <= i < 16 => Polynomial(i))
  }

  function Ones(): Word {
    seq(16, i => true)
  }

  /** 0xf0b8. */
  function GoodResidue(): Word {
    seq(16, i => i == 3 || i == 4 || i == 5 || i == 7 || i >= 12)
  }

  function Xor(a: Word, b: Word): (w: Word)
    ensures forall i :: 0 <= i < 16 ==> w[i] == (a[i] != b[i])
  {
    seq<bool>(16, i requires 0 <= i < 16 => a[i] != b[i])
  }

  function Feedback(crc: Word): Word {
    seq<bool>(16, i requires 0 <= i < 16 => crc[0] && Polynomial(i))
  }

  /** One shift of the register, adding the polynomial in when a one is shifted out. */
  function Bit(crc: Word): Word {
    Xor(crc[1..] + [false], Feedback(crc))
  }

  function Bits(crc: Word, n: nat): Word {
    if n == 0 then crc else Bit(Bits(crc, n - 1))
  }

  function Widened(b: Octet): Word {
    b + seq(8, i => false)
  }

  function Step(crc: Word, b: Octet): Word {
    Bits(Xor(crc, Widened(b)), 8)
  }

  /** The raw register after `data`, starting from `crc`. */
  function Register(crc: Word, data: Octets): Word {
    if data == [] then crc else Step(Register(crc, data[..|data| - 1]), data[|data| - 1])
  }

  function Fcs(data: Octets): Word {
    Xor(Register(Ones(), data), Ones())
  }

  /** The word of two octets, low one first. */
  function Joined(low: Octet, high: Octet): Word {
    var l: seq<bool> := low;
    l + high
  }

  function Appended(body: Octets): Octets {
    body + [Fcs(body)[..8], Fcs(body)[8..]]
  }

  /** The body of a datagram whose check sequence matches. */
  function Stripped(datagram: Octets): Option<Octets> {
    if |datagram| < MIN_FRAME + FCS_LENGTH then None
    else
      var n := |datagram| - FCS_LENGTH;
      if Fcs(datagram[..n]) == Joined(datagram[n], datagram[n + 1]) then Some(datagram[..n]) else None
  }

  // ---- The code --------------------------------------------------------------------------------------------

  method ComputeFcs(data: Octets) returns (fcs: Word)
    ensures fcs == Fcs(data)
  {
    var crc := Ones();
    for i := 0 to |data|
      invariant crc == Register(Ones(), data[..i])
    {
      crc := AddOctet(crc, data[i]);
      assert data[..i + 1][..i] == data[..i];
    }
    assert data[..|data|] == data;
    fcs := Xor(crc, Ones());
  }

  /** The inner loop: one octet into the register. */
  method AddOctet(before: Word, octet: Octet) returns (crc: Word)
    ensures crc == Step(before, octet)
  {
    crc := Xor(before, Widened(octet));
    for bit := 0 to 8
      invariant crc == Bits(Xor(before, Widened(octet)), bit)
    {
      BitByCases(crc);
      if crc[0] {
        crc := Xor(crc[1..] + [false], PolynomialWord());
      } else {
        crc := crc[1..] + [false];
      }
    }
  }

  lemma BitByCases(crc: Word)
    ensures Bit(crc) == if crc[0] then Xor(crc[1..] + [false], PolynomialWord()) else crc[1..] + [false]
  {
  }

  method AppendFcs(body: Octets) returns (out: array<Octet>)
    ensures fresh(out) && out[..] == Appended(body)
  {
    out := new Octet[|body| + FCS_LENGTH];
    for i := 0 to |body|
      invariant out[..i] == body[..i]
    {
      out[i] := body[i];
    }
    var fcs := ComputeFcs(body);
    out[|body|] := fcs[..8];
    out[|body| + 1] := fcs[8..];
    assert out[..|body|] == body;
  }

  method StripFcs(datagram: Octets) returns (body: Option<Octets>)
    ensures body == Stripped(datagram)
  {
    if |datagram| < MIN_FRAME + FCS_LENGTH {
      return None;
    }
    var n := |datagram| - FCS_LENGTH;
    var expected := ComputeFcs(datagram[..n]);
    if expected != Joined(datagram[n], datagram[n + 1]) {
      return None;
    }
    body := Some(datagram[..n]);
  }

  // ---- The register is linear and loses nothing ------------------------------------------------------------

  lemma BitAt(w: Word)
    ensures Bit(w)[15] == w[0] && forall i :: 0 <= i < 15 ==> Bit(w)[i] == (w[i + 1] != (w[0] && Polynomial(i)))
  {
  }

  lemma BitLinear(a: Word, b: Word)
    ensures Bit(Xor(a, b)) == Xor(Bit(a), Bit(b))
  {
  }

  /** The feedback sets the top bit that the shift clears, so what was shifted out can be told. */
  lemma BitInjective(a: Word, b: Word)
    requires Bit(a) == Bit(b)
    ensures a == b
  {
    assert Bit(a)[15] == a[0] && Bit(b)[15] == b[0];
    forall i | 1 <= i < 16 ensures a[i] == b[i] {
      assert Bit(a)[i - 1] == (a[i] != (a[0] && Polynomial(i - 1)));
      assert Bit(b)[i - 1] == (b[i] != (b[0] && Polynomial(i - 1)));
    }
  }

  lemma {:induction false} BitsLinear(a: Word, b: Word, n: nat)
    ensures Bits(Xor(a, b), n) == Xor(Bits(a, n), Bits(b, n))
  {
    if n > 0 {
      BitsLinear(a, b, n - 1);
      BitLinear(Bits(a, n - 1), Bits(b, n - 1));
    }
  }

  lemma {:induction false} BitsInjective(a: Word, b: Word, n: nat)
    requires Bits(a, n) == Bits(b, n)
    ensures a == b
  {
    if n > 0 {
      BitInjective(Bits(a, n - 1), Bits(b, n - 1));
      BitsInjective(a, b, n - 1);
    }
  }

  lemma {:induction false} BitsChain(a: Word, m: nat, n: nat)
    ensures Bits(Bits(a, m), n) == Bits(a, m + n)
  {
    if n > 0 {
      BitsChain(a, m, n - 1);
    }
  }

  // ---- The register bit by bit -----------------------------------------------------------------------------

  /** The word with only bit `k` set, if `b`. */
  function Unit(k: nat, b: bool): Word {
    seq<bool>(16, i requires 0 <= i < 16 => i == k && b)
  }

  /** One bit into the register. */
  function Fed(crc: Word, b: bool): Word {
    Bit(Xor(crc, Unit(0, b)))
  }

  function Serial(crc: Word, bits: seq<bool>): Word {
    if bits == [] then crc else Fed(Serial(crc, bits[..|bits| - 1]), bits[|bits| - 1])
  }

  function Flat(data: Octets): (bits: seq<bool>)
    ensures |bits| == 8 * |data|
  {
    if data == [] then [] else Flat(data[..|data| - 1]) + data[|data| - 1]
  }

  function Padded(bits: seq<bool>): Word
    requires |bits| <= 16
  {
    bits + seq(16 - |bits|, i => false)
  }

  lemma UnitBit(k: nat, b: bool)
    requires 0 < k < 16
    ensures Bit(Unit(k, b)) == Unit(k - 1, b)
  {
    BitAt(Unit(k, b));
  }

  lemma {:induction false} UnitShifts(k: nat, n: nat, b: bool)
    requires n <= k < 16
    ensures Bits(Unit(k, b), n) == Unit(k - n, b)
  {
    if n > 0 {
      UnitShifts(k, n - 1, b);
      UnitBit(k - n + 1, b);
    }
  }

  lemma PaddedGrows(crc: Word, bits: seq<bool>, b: bool)
    requires |bits| < 16
    ensures Xor(crc, Padded(bits + [b])) == Xor(Xor(crc, Padded(bits)), Unit(|bits|, b))
  {
  }

  /** Up to sixteen bits fed one by one are as many shifts of the register with all of them added in. */
  lemma {:induction false} SerialIs(crc: Word, bits: seq<bool>)
    requires |bits| <= 16
    ensures Serial(crc, bits) == Bits(Xor(crc, Padded(bits)), |bits|)
  {
    if bits == [] {
      assert Xor(crc, Padded(bits)) == crc;
    } else {
      var k := |bits| - 1;
      var init, b := bits[..k], bits[k];
      assert bits == init + [b];
      SerialIs(crc, init);
      PaddedGrows(crc, init, b);
      BitsLinear(Xor(crc, Padded(init)), Unit(k, b), k);
      UnitShifts(k, k, b);
    }
  }

  lemma {:induction false} SerialChain(crc: Word, a: seq<bool>, b: seq<bool>)
    ensures Serial(crc, a + b) == Serial(Serial(crc, a), b)
  {
    if b == [] {
      assert a + b == a;
    } else {
      SerialChain(crc, a, b[..|b| - 1]);
      assert (a + b)[..|a + b| - 1] == a + b[..|b| - 1];
    }
  }

  lemma {:induction false} RegisterIsSerial(crc: Word, data: Octets)
    ensures Register(crc, data) == Serial(crc, Flat(data))
  {
    if data != [] {
      var init, last := data[..|data| - 1], data[|data| - 1];
      RegisterIsSerial(crc, init);
      SerialChain(crc, Flat(init), last);
      SerialIs(Register(crc, init), last);
      assert Padded(last) == Widened(last);
    }
  }

  lemma FlatOfOneMore(data: Octets, o: Octet)
    ensures Flat(data + [o]) == Flat(data) + o
  {
    assert (data + [o])[..|data|] == data;
  }

  lemma {:induction false} FlatInjective(a: Octets, b: Octets)
    requires |a| == |b| && Flat(a) == Flat(b)
    ensures a == b
  {
    if a != [] {
      var n := |a| - 1;
      assert Flat(a)[..8 * n] == Flat(a[..n]) && Flat(b)[..8 * n] == Flat(b[..n]);
      assert Flat(a)[8 * n..] == a[n] && Flat(b)[8 * n..] == b[n];
      FlatInjective(a[..n], b[..n]);
      assert a == a[..n] + [a[n]] && b == b[..n] + [b[n]];
    }
  }

  // ---- Main results ----------------------------------------------------------------------------------------

  /** A datagram is accepted exactly when its own raw register ends at the good residue. */
  lemma AcceptedIffResidue(datagram: Octets)
    requires |datagram| >= MIN_FRAME + FCS_LENGTH
    ensures Stripped(datagram).Some? <==> Register(Ones(), datagram) == GoodResidue()
  {
    var n := |datagram| - FCS_LENGTH;
    RegisterEnds(datagram, n);
    ResidueIff(Register(Ones(), datagram[..n]), Joined(datagram[n], datagram[n + 1]));
  }

  /** The last two octets are sixteen shifts with both of them added in. */
  lemma RegisterEnds(datagram: Octets, n: nat)
    requires |datagram| == n + 2
    ensures Register(Ones(), datagram)
         == Bits(Xor(Register(Ones(), datagram[..n]), Joined(datagram[n], datagram[n + 1])), 16)
  {
    var body, w := datagram[..n], Joined(datagram[n], datagram[n + 1]);
    FlatEnd(datagram, n);
    RegisterIsSerial(Ones(), datagram);
    RegisterIsSerial(Ones(), body);
    SerialChain(Ones(), Flat(body), w);
    SerialIs(Register(Ones(), body), w);
    assert Padded(w) == w;
  }

  lemma FlatEnd(datagram: Octets, n: nat)
    requires |datagram| == n + 2
    ensures Flat(datagram) == Flat(datagram[..n]) + Joined(datagram[n], datagram[n + 1])
  {
    assert datagram == datagram[..n] + [datagram[n]] + [datagram[n + 1]];
    FlatOfOneMore(datagram[..n], datagram[n]);
    FlatOfOneMore(datagram[..n] + [datagram[n]], datagram[n + 1]);
  }

  lemma ResidueIff(crc: Word, w: Word)
    ensures Bits(Xor(crc, w), 16) == GoodResidue() <==> Xor(crc, Ones()) == w
  {
    ResidueOfOnes();
    if Bits(Xor(crc, w), 16) == GoodResidue() {
      BitsInjective(Xor(crc, w), Ones(), 16);
    }
    XorMoves(crc, w, Ones());
  }

  lemma XorMoves(a: Word, b: Word, c: Word)
    ensures Xor(a, b) == c <==> Xor(a, c) == b
  {
    if Xor(a, b) == c {
      assert Xor(a, c) == b;
    }
    if Xor(a, c) == b {
      assert Xor(a, b) == c;
    }
  }

  // The register on its way from all ones to the residue: 0xf870, 0x0f87 and 0x737f after 4, 8 and 12 shifts.

  function After4(): Word {
    seq(16, i => 4 <= i <= 6 || 11 <= i)
  }

  function After8(): Word {
    seq(16, i => i <= 2 || 7 <= i <= 11)
  }

  function After12(): Word {
    seq(16, i => i <= 6 || i == 8 || i == 9 || 12 <= i <= 14)
  }

  lemma FourShifts(w: Word, a: Word, b: Word, c: Word, d: Word)
    requires Bit(w) == a && Bit(a) == b && Bit(b) == c && Bit(c) == d
    ensures Bits(w, 4) == d
  {
    assert Bits(w, 1) == a;
    assert Bits(w, 2) == b;
    assert Bits(w, 3) == c;
  }

  lemma FirstShifts()
    ensures Bits(Ones(), 4) == After4()
  {
    var a := Bit(Ones());
    var b := Bit(a);
    var c := Bit(b);
    BitAt(Ones());
    BitAt(a);
    BitAt(b);
    BitAt(c);
    assert Bit(c) == After4();
    FourShifts(Ones(), a, b, c, After4());
  }

  lemma SecondShifts()
    ensures Bits(After4(), 4) == After8()
  {
    var a := Bit(After4());
    var b := Bit(a);
    var c := Bit(b);
    BitAt(After4());
    BitAt(a);
    BitAt(b);
    BitAt(c);
    assert Bit(c) == After8();
    FourShifts(After4(), a, b, c, After8());
  }

  lemma ThirdShifts()
    ensures Bits(After8(), 4) == After12()
  {
    var a := Bit(After8());
    var b := Bit(a);
    var c := Bit(b);
    BitAt(After8());
    BitAt(a);
    BitAt(b);
    BitAt(c);
    assert Bit(c) == After12();
    FourShifts(After8(), a, b, c, After12());
  }

  lemma LastShifts()
    ensures Bits(After12(), 4) == GoodResidue()
  {
    var a := Bit(After12());
    var b := Bit(a);
    var c := Bit(b);
    BitAt(After12());
    BitAt(a);
    BitAt(b);
    BitAt(c);
    assert Bit(c) == GoodResidue();
    FourShifts(After12(), a, b, c, GoodResidue());
  }

  lemma ResidueOfOnes()
    ensures Bits(Ones(), 16) == GoodResidue()
  {
    FirstShifts();
    SecondShifts();
    ThirdShifts();
    LastShifts();
    BitsChain(Ones(), 4, 4);
    BitsChain(Ones(), 8, 4);
    BitsChain(Ones(), 12, 4);
  }

  lemma StripUndoesAppend(body: Octets)
    requires |body| >= MIN_FRAME
    ensures Stripped(Appended(body)) == Some(body)
  {
    assert Fcs(body)[..8] + Fcs(body)[8..] == Fcs(body);
    assert Appended(body)[..|body|] == body;
  }

  /** Registers that differ still differ after the same bits. */
  lemma {:induction false} DifferenceStays(a: Word, b: Word, bits: seq<bool>)
    requires a != b
    ensures Serial(a, bits) != Serial(b, bits)
  {
    if bits != [] {
      var init, u := bits[..|bits| - 1], Unit(0, bits[|bits| - 1]);
      DifferenceStays(a, b, init);
      var x, y := Serial(a, init), Serial(b, init);
      if Bit(Xor(x, u)) == Bit(Xor(y, u)) {
        BitInjective(Xor(x, u), Xor(y, u));
        XorCancels(x, y, u);
      }
    }
  }

  lemma XorCancels(x: Word, y: Word, z: Word)
    requires Xor(x, z) == Xor(y, z)
    ensures x == y
  {
    forall i | 0 <= i < 16 ensures x[i] == y[i] {
      assert Xor(x, z)[i] == Xor(y, z)[i];
    }
  }

  lemma XorCommutes(x: Word, y: Word)
    ensures Xor(x, y) == Xor(y, x)
  {
  }

  /** Two different words of sixteen bits take a register to different places. */
  lemma BurstsDiffer(crc: Word, w: Word, w': Word)
    requires w != w'
    ensures Serial(crc, w) != Serial(crc, w')
  {
    SerialIs(crc, w);
    SerialIs(crc, w');
    assert Padded(w) == w && Padded(w') == w';
    if Bits(Xor(crc, w), 16) == Bits(Xor(crc, w'), 16) {
      BitsInjective(Xor(crc, w), Xor(crc, w'), 16);
      XorCommutes(crc, w);
      XorCommutes(crc, w');
      XorCancels(w, w', crc);
    }
  }

  /**
   * A datagram that checks, damaged within any sixteen consecutive bits, is rejected: at any bit position, so across
   * octet boundaries too, and at any length.
   */
  lemma BurstIsRejected(body: Octets, damaged: Octets, p: nat)
    requires |body| >= MIN_FRAME && |damaged| == |Appended(body)| && damaged != Appended(body)
    requires p + 16 <= |Flat(damaged)|
    requires Flat(damaged)[..p] == Flat(Appended(body))[..p]
    requires Flat(damaged)[p + 16..] == Flat(Appended(body))[p + 16..]
    ensures Stripped(damaged) == None
  {
    var sent := Appended(body);
    FlatDiffers(damaged, sent);
    Cut(Flat(sent), p);
    Cut(Flat(damaged), p);
    BurstMoves(Flat(sent)[..p], Flat(sent)[p..p + 16], Flat(damaged)[p..p + 16], Flat(sent)[p + 16..]);
    RegisterIsSerial(Ones(), sent);
    RegisterIsSerial(Ones(), damaged);
    StripUndoesAppend(body);
    AcceptedIffResidue(sent);
    AcceptedIffResidue(damaged);
  }

  lemma FlatDiffers(a: Octets, b: Octets)
    requires |a| == |b| && a != b
    ensures Flat(a) != Flat(b)
  {
    if Flat(a) == Flat(b) {
      FlatInjective(a, b);
    }
  }

  lemma BurstMoves(head: seq<bool>, w: Word, w': Word, tail: seq<bool>)
    requires w != w'
    ensures Serial(Ones(), head + w + tail) != Serial(Ones(), head + w' + tail)
  {
    var crc := Serial(Ones(), head);
    SerialAround(head, w, tail);
    SerialAround(head, w', tail);
    BurstsDiffer(crc, w, w');
    DifferenceStays(Serial(crc, w), Serial(crc, w'), tail);
  }

  lemma Cut(x: seq<bool>, p: nat)
    requires p + 16 <= |x|
    ensures x == x[..p] + x[p..p + 16] + x[p + 16..]
  {
  }

  lemma SerialAround(head: seq<bool>, w: seq<bool>, tail: seq<bool>)
    ensures Serial(Ones(), head + w + tail) == Serial(Serial(Serial(Ones(), head), w), tail)
  {
    SerialChain(Ones(), head + w, tail);
    SerialChain(Ones(), head, w);
  }

  // ---- Known values ----------------------------------------------------------------------------------------

  /** The check sequence of the one octet 0x00 is 0xf078, and of none 0x0000. */
  lemma KnownSequences(zero: Octet, i: nat)
    requires i < 16 && forall k :: 0 <= k < 8 ==> !zero[k]
    ensures Fcs([zero])[i] == (3 <= i <= 6 || i >= 12)
    ensures !Fcs([])[i]
  {
    var one: Octets := [zero];
    assert one[..0] == [];
    assert Xor(Ones(), Widened(zero)) == Ones();
    FirstShifts();
    SecondShifts();
    BitsChain(Ones(), 4, 4);
    assert Register(Ones(), one) == After8();
  }

  /** A datagram is its body and then the check sequence of that, low octet first; shorter than 17 octets it is none. */
  lemma DatagramIs(datagram: Octets)
    ensures Stripped(datagram).Some? <==>
              |datagram| >= 17
              && var n := |datagram| - 2;
                 Fcs(datagram[..n])[..8] == datagram[n] && Fcs(datagram[..n])[8..] == datagram[n + 1]
    ensures Stripped(datagram).Some? ==> Stripped(datagram).value == datagram[..|datagram| - 2]
  {
    if |datagram| >= 17 {
      var n := |datagram| - 2;
      var w := Joined(datagram[n], datagram[n + 1]);
      assert w[..8] == datagram[n] && w[8..] == datagram[n + 1];
      assert Fcs(datagram[..n]) == Fcs(datagram[..n])[..8] + Fcs(datagram[..n])[8..];
    }
  }
}
