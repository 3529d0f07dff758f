/**
 * What a parser makes of an INP3 frame whose end markers it does not all recognise: some of the entries that were
 * sent, in order, and never one that was not.
 */
module RifDamage {
  import opened Common
  import opened Callsigns
  import opened Inp3Rif

  /** The octets of an entry without TLVs. */
  const ENTRY := PREFIX_LENGTH + 1

  /** The same entry but for its TLVs. */
  predicate SameRoute(p: Rip, r: Rip) {
    p.destination == r.destination && p.hopCount == r.hopCount && p.targetTimeMs == r.targetTimeMs
  }

  predicate Plain(rs: seq<Rip>) {
    AllWellFormed(rs) && TlvFree(rs)
  }

  /** Where entry `i` starts in the frame. */
  function Start(i: nat): nat {
    1 + ENTRY * i
  }

  lemma PlainEntry(r: Rip)
    requires Encodable(r) && r.tlvs == []
    ensures |RipBytes(r)| == ENTRY && RipBytes(r) == Prefix(r) + [END_OF_PACKET]
  {
    assert Prefix(r) + TlvsBytes(r.tlvs) == Prefix(r);
  }

  lemma {:induction false} EntryHeld(rs: seq<Rip>, i: nat)
    requires Plain(rs) && i < |rs|
    ensures Holds(RipsBytes(rs), ENTRY * i, RipBytes(rs[i]))
  {
    var first, rest := RipBytes(rs[0]), RipsBytes(rs[1..]);
    PlainEntry(rs[0]);
    assert RipsBytes(rs) == first + rest;
    if i > 0 {
      EntryHeld(rs[1..], i - 1);
      HoldsAfter(first, rest, ENTRY * (i - 1), RipBytes(rs[i]));
    }
  }

  lemma HoldsAfter(x: bytes, s: bytes, o: nat, y: bytes)
    requires Holds(s, o, y)
    ensures Holds(x + s, |x| + o, y)
  {
    assert (x + s)[|x| + o..|x| + o + |y|] == s[o..o + |y|];
  }

  /** Octet `j` of entry `i`. */
  lemma EntryOctet(rs: seq<Rip>, i: nat, j: nat)
    requires Plain(rs) && i < |rs| && j < ENTRY
    ensures Start(i) + ENTRY <= |RifBytes(rs)|
    ensures Holds(RifBytes(rs), Start(i), Prefix(rs[i]))
    ensures RifBytes(rs)[Start(i) + j] == RipBytes(rs[i])[j]
  {
    EntryHeld(rs, i);
    HoldsAfter([SIGNATURE], RipsBytes(rs), ENTRY * i, RipBytes(rs[i]));
    PlainEntry(rs[i]);
    HoldsAt(RifBytes(rs), Start(i), RipBytes(rs[i]), j);
    HoldsConcat(RifBytes(rs), Start(i), Prefix(rs[i]), [END_OF_PACKET]);
  }

  /** A callsign has no zero octet on the wire; an entry ends in one. */
  lemma ZeroOctets(r: Rip, j: nat)
    requires WellFormed(r) && r.tlvs == [] && j < ENTRY
    ensures |RipBytes(r)| == ENTRY
    ensures RipBytes(r)[j] == 0 ==> j >= SHIFTED_LENGTH
    ensures RipBytes(r)[PREFIX_LENGTH] == 0
  {
    PlainEntry(r);
    if j < SHIFTED_LENGTH {
      assert RipBytes(r)[j] == Shifted(r.destination)[j] == ShiftedAt(r.destination, j);
      assert j < |r.destination.base| ==> IsBaseChar(r.destination.base[j]);
    }
  }

  /** A callsign field with a zero octet in its base does not read. */
  lemma {:induction false} ZeroSpoils(field: bytes, n: nat, m: nat)
    requires m < n <= |field| && field[m] == 0
    ensures ReadBase(field, n).None?
  {
    if m < n - 1 {
      ZeroSpoils(field, n - 1, m);
    }
  }

  /** A walk stops behind a zero octet. */
  lemma {:induction false} WalkStops(s: bytes, o: nat)
    ensures var w := WalkTlvs(s, o); w.Some? ==> s[w.value.end - 1] == END_OF_PACKET
    decreases |s| - o
  {
    if o + 1 < |s| && o + 2 + s[o + 1] <= |s| {
      WalkStops(s, o + 2 + s[o + 1]);
    }
  }

  /** Off an entry's start, behind a zero octet, nothing reads as an entry. */
  lemma OnlyStartsParse(rs: seq<Rip>, i: nat, j: nat)
    requires Plain(rs) && i < |rs| && 1 <= j < ENTRY && Start(i) + ENTRY <= |RifBytes(rs)|
    requires RifBytes(rs)[Start(i) + j - 1] == 0
    ensures ParseRip(RifBytes(rs), Start(i) + j).None?
  {
    var s, o := RifBytes(rs), Start(i) + j;
    EntryOctet(rs, i, j - 1);
    ZeroOctets(rs[i], j - 1);
    EntryOctet(rs, i, PREFIX_LENGTH);
    if |s| >= o + PREFIX_LENGTH {
      ZeroSpoils(s[o..], 6, PREFIX_LENGTH - j);
    }
  }

  /** `ps` is some of the entries `rs`, in order, each as it was but for its TLVs. */
  predicate Thinned(ps: seq<Rip>, rs: seq<Rip>) {
    ps == [] || (rs != [] && ((SameRoute(ps[0], rs[0]) && Thinned(ps[1..], rs[1..])) || Thinned(ps, rs[1..])))
  }

  lemma {:induction false} ThinnedFrom(ps: seq<Rip>, rs: seq<Rip>, i: nat, k: nat)
    requires i <= k <= |rs| && Thinned(ps, rs[k..])
    ensures Thinned(ps, rs[i..])
    decreases k - i
  {
    if i < k && ps != [] {
      ThinnedFrom(ps, rs, i + 1, k);
      assert rs[i..][1..] == rs[i + 1..];
    }
  }

  lemma {:induction false} PlainLength(rs: seq<Rip>)
    requires Plain(rs)
    ensures |RifBytes(rs)| == Start(|rs|)
  {
    TlvFreeLength(rs);
  }

  /** An entry read at its start is the one sent there, but for its TLVs, and stops behind a zero octet. */
  lemma StartParses(rs: seq<Rip>, i: nat)
    requires Plain(rs) && i < |rs|
    ensures var p := ParseRip(RifBytes(rs), Start(i));
            p.Some? ==> SameRoute(p.value.rip, rs[i]) && RifBytes(rs)[p.value.end - 1] == 0
  {
    EntryOctet(rs, i, 0);
    PrefixRead(RifBytes(rs), Start(i), rs[i]);
    WalkStops(RifBytes(rs), Start(i) + PREFIX_LENGTH);
  }

  lemma {:induction false} ThinnedRips(rs: seq<Rip>, i: nat)
    requires Plain(rs) && i <= |rs|
    ensures Thinned(ParseRips(RifBytes(rs), Start(i)).rips, rs[i..])
    decreases |rs| - i
  {
    var s := RifBytes(rs);
    PlainLength(rs);
    if i < |rs| && ParseRip(s, Start(i)).Some? {
      var p := ParseRip(s, Start(i)).value;
      StartParses(rs, i);
      ThinnedRest(rs, i, p.end);
      RipsFrom(s, Start(i));
      assert rs[i..][1..] == rs[i + 1..];
    }
  }

  /** What parses from an entry that parses on: it, and what parses from its end on. */
  lemma RipsFrom(s: bytes, o: nat)
    requires ParseRip(s, o).Some?
    ensures var p, rips := ParseRip(s, o).value, ParseRips(s, o).rips;
            rips != [] && rips[0] == p.rip && rips[1..] == ParseRips(s, p.end).rips
  {
    var p := ParseRip(s, o).value;
    var more := ParseRips(s, p.end).rips;
    assert ParseRips(s, o).rips == [p.rip] + more;
    assert ([p.rip] + more)[1..] == more;
  }

  /** Which entry an octet of the frame is in, and where there. */
  lemma Placed(end: nat, n: nat, i: nat) returns (k: nat, j: nat)
    requires Start(i) + PREFIX_LENGTH < end <= Start(n)
    ensures end == Start(k) + j && j < ENTRY && i <= k <= n
    ensures j == 0 ==> i + 1 <= k
    ensures j > 0 ==> k < n && Start(k) + ENTRY <= Start(n)
  {
    k, j := (end - 1) / ENTRY, (end - 1) % ENTRY;
  }

  /** What parses from an end behind a zero octet on. */
  lemma {:induction false} ThinnedRest(rs: seq<Rip>, i: nat, end: nat)
    requires Plain(rs) && i < |rs| && Start(i) + PREFIX_LENGTH < end <= Start(|rs|) == |RifBytes(rs)|
    requires RifBytes(rs)[end - 1] == 0
    ensures Thinned(ParseRips(RifBytes(rs), end).rips, rs[i + 1..])
    decreases |rs| - i, 0
  {
    var k, j := Placed(end, |rs|, i);
    if j == 0 {
      ThinnedRips(rs, k);
      LaterStart(rs, i, k);
    } else {
      NothingOffStart(rs, i, k, j);
    }
  }

  lemma LaterStart(rs: seq<Rip>, i: nat, k: nat)
    requires Plain(rs) && i < k <= |rs| && Thinned(ParseRips(RifBytes(rs), Start(k)).rips, rs[k..])
    ensures Thinned(ParseRips(RifBytes(rs), Start(k)).rips, rs[i + 1..])
  {
    ThinnedFrom(ParseRips(RifBytes(rs), Start(k)).rips, rs, i + 1, k);
  }

  lemma NothingOffStart(rs: seq<Rip>, i: nat, k: nat, j: nat)
    requires Plain(rs) && i < |rs| && k < |rs| && 1 <= j < ENTRY && Start(k) + ENTRY <= |RifBytes(rs)|
    requires RifBytes(rs)[Start(k) + j - 1] == 0
    ensures Thinned(ParseRips(RifBytes(rs), Start(k) + j).rips, rs[i + 1..])
  {
    OffStart(rs, k, j, Start(k) + j);
  }

  lemma OffStart(rs: seq<Rip>, k: nat, j: nat, end: nat)
    requires Plain(rs) && k < |rs| && 1 <= j < ENTRY && end == Start(k) + j && Start(k) + ENTRY <= |RifBytes(rs)|
    requires RifBytes(rs)[end - 1] == 0
    ensures ParseRips(RifBytes(rs), end).rips == []
  {
    OnlyStartsParse(rs, k, j);
  }

  /**
   * Whatever a parser of any leniency makes of a frame of TLV-free entries is some of those entries, in order, with
   * destination, hops and time as sent. Missing an end marker can lose entries and garble TLVs; it invents nothing.
   */
  lemma DamageInventsNothing(rs: seq<Rip>, options: Options)
    requires Plain(rs) && ParseRif(RifBytes(rs), options).Some?
    ensures Thinned(ParseRif(RifBytes(rs), options).value, rs)
  {
    ThinnedRips(rs, 0);
    assert rs[0..] == rs;
  }

  /** Each of them is one that was sent. */
  lemma {:induction false} ThinnedIn(ps: seq<Rip>, rs: seq<Rip>, n: nat)
    requires Thinned(ps, rs) && n < |ps|
    ensures exists k :: 0 <= k < |rs| && SameRoute(ps[n], rs[k])
    decreases |rs|
  {
    if SameRoute(ps[0], rs[0]) && Thinned(ps[1..], rs[1..]) {
      if n > 0 {
        ThinnedIn(ps[1..], rs[1..], n - 1);
        var k :| 0 <= k < |rs[1..]| && SameRoute(ps[1..][n - 1], rs[1..][k]);
        assert SameRoute(ps[n], rs[k + 1]);
      }
    } else {
      ThinnedIn(ps, rs[1..], n);
      var k :| 0 <= k < |rs[1..]| && SameRoute(ps[n], rs[1..][k]);
      assert SameRoute(ps[n], rs[k + 1]);
    }
  }

  // ---- What a misread marker costs -------------------------------------------------------------------------

  /** Entries of `rs` other than the second, and only as `Thinned` allows. */
  predicate WithoutSecond(ps: seq<Rip>, rs: seq<Rip>)
    requires |rs| >= 2
  {
    ps == [] || (SameRoute(ps[0], rs[0]) && Thinned(ps[1..], rs[2..]))
  }

  /** A misread marker is taken for a TLV longer than an entry. */
  lemma MisreadSkips(rs: seq<Rip>)
    requires Plain(rs) && |rs| >= 2 && !Marked(rs[1..])
    ensures var p := ParseRip(RifBytes(rs), Start(0)); p.Some? ==> p.value.end > Start(1) + PREFIX_LENGTH
  {
    var s, mark := RifBytes(rs), Start(0) + PREFIX_LENGTH;
    EntryOctet(rs, 0, PREFIX_LENGTH);
    EntryOctet(rs, 1, 0);
    ZeroOctets(rs[0], PREFIX_LENGTH);
    FirstOctetIs(rs[1]);
    PlainLength(rs);
    TlvFreeLength(rs[1..]);
    assert s[mark] == END_OF_PACKET && s[mark + 1] == FirstOctet(rs[1].destination);
    assert ReadsAsTlv(s, mark);
  }

  lemma FirstOctetIs(r: Rip)
    requires WellFormed(r) && r.tlvs == []
    ensures RipBytes(r)[0] == FirstOctet(r.destination) && FirstOctet(r.destination) >= 0x40
  {
    PlainEntry(r);
    assert RipBytes(r)[0] == Shifted(r.destination)[0] == ShiftedAt(r.destination, 0);
    assert r.destination.base != [] ==> IsBaseChar(r.destination.base[0]);
  }

  /** When the first marker is misread, the second entry is lost. */
  lemma FirstMisreadLosesNext(rs: seq<Rip>, options: Options)
    requires Plain(rs) && |rs| >= 2 && !Marked(rs[1..]) && ParseRif(RifBytes(rs), options).Some?
    ensures WithoutSecond(ParseRif(RifBytes(rs), options).value, rs)
  {
    var s, p := RifBytes(rs), ParseRip(RifBytes(rs), Start(0));
    PlainLength(rs);
    assert Start(0) == 1;
    if p.Some? {
      StartParses(rs, 0);
      MisreadSkips(rs);
      ThinnedRest(rs, 1, p.value.end);
      RipsFrom(s, 1);
    } else {
      assert ParseRips(s, 1).rips == [];
    }
  }

  lemma SkipsSecond(ps: seq<Rip>, rs: seq<Rip>, i: nat)
    requires |rs| >= 2 && WithoutSecond(ps, rs) && i < |ps|
    ensures exists k :: 0 <= k < |rs| && k != 1 && SameRoute(ps[i], rs[k])
  {
    if i > 0 {
      ThinnedIn(ps[1..], rs[2..], i - 1);
      var k :| 0 <= k < |rs[2..]| && SameRoute(ps[1..][i - 1], rs[2..][k]);
      assert SameRoute(ps[i], rs[k + 2]);
    }
  }
}
