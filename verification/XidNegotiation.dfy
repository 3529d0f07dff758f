/**
 * Parameter negotiation between two stations over the exchange-identification codec: the per-field merge, the
 * responder and the initiator, and when the two end up with the same parameters.
 */
module XidNegotiation {
  import opened Common
  import opened Xid

  /** The link parameters a negotiation sets. */
  datatype Link = Link(
    srejEnabled: bool,
    implicitReject: bool,
    isExtended: bool,
    segmenter: bool,
    halfDuplex: bool,
    k: nat,
    n1: nat,
    t1vMs: real,
    srtMs: real,
    n2: nat)

  const DEFAULT_HDLC := Hdlc(true, true, false, false)

  function MinPresent(a: Option<nat>, b: Option<nat>): Option<nat> {
    if a.None? then b else if b.None? then a else Some(Min(a.value, b.value))
  }

  function MaxPresent(a: Option<nat>, b: Option<nat>): Option<nat> {
    if a.None? then b else if b.None? then a else Some(Max(a.value, b.value))
  }

  function MaxTimer(a: Option<real>, b: Option<real>): Option<real> {
    if a.None? then b else if b.None? then a else if a.value < b.value then b else a
  }

  function Octets(bits: Option<nat>): Option<nat> {
    if bits.None? then None else Some(bits.value / 8)
  }

  /** The link after merging our offer with the other station's. */
  function Merged(l: Link, ours: Parameters, theirs: Parameters): Link {
    var a, b := OrElse(ours.hdlc, DEFAULT_HDLC), OrElse(theirs.hdlc, DEFAULT_HDLC);
    var t1 := MaxTimer(ours.t1, theirs.t1);
    Link(
      a.selective && b.selective,
      !(a.selective && b.selective),
      a.modulo128 && b.modulo128,
      a.segmenter && b.segmenter,
      OrElse(ours.halfDuplex, true) || OrElse(theirs.halfDuplex, true),
      OrElse(MinPresent(ours.k, theirs.k), l.k),
      OrElse(MinPresent(Octets(ours.n1Bits), Octets(theirs.n1Bits)), l.n1),
      OrElse(t1, l.t1vMs),
      if t1.Some? then t1.value / 2.0 else l.srtMs,
      OrElse(MaxPresent(ours.n2, theirs.n2), l.n2))
  }

  /** The offer a station derives from its own link: everything present. */
  function DefaultOffer(l: Link): Parameters {
    Parameters(Some(l.halfDuplex), Some(Hdlc(l.srejEnabled, l.isExtended, l.srejEnabled, l.segmenter)), Some(l.n1 * 8),
               Some(l.k), Some(l.t1vMs), Some(l.n2))
  }

  /** What a station takes from a received information field: nothing when it does not parse. */
  function Received(info: bytes): Parameters {
    OrElse(Decode(info, STRICT), NOTHING)
  }

  // ---- The two stations ------------------------------------------------------------------------------------

  /** One end's management data-link: the link it configures and its offer, derived from that link if not explicit. */
  class ManagementDataLink {
    var link: Link
    const explicitOffer: Option<Parameters>

    constructor (link: Link, explicitOffer: Option<Parameters>)
      ensures this.link == link && this.explicitOffer == explicitOffer
    {
      this.link := link;
      this.explicitOffer := explicitOffer;
    }

    function Offered(): Parameters
      reads this
    {
      OrElse(explicitOffer, DefaultOffer(link))
    }

    method ApplyNegotiated(offered: Parameters, response: Parameters)
      modifies this
      ensures link == Merged(old(link), offered, response)
    {
      ApplySelections(offered, response);
      ApplyCounts(offered, response);
      var agreedT1 := MaxTimer(offered.t1, response.t1);
      if agreedT1.Some? {
        link := link.(t1vMs := agreedT1.value, srtMs := agreedT1.value / 2.0);
      }
    }

    /** Reject scheme, modulo, segmenter and duplex. */
    method ApplySelections(offered: Parameters, response: Parameters)
      modifies this
      ensures var m := Merged(old(link), offered, response);
              link == old(link).(srejEnabled := m.srejEnabled, implicitReject := m.implicitReject,
                                 isExtended := m.isExtended, segmenter := m.segmenter, halfDuplex := m.halfDuplex)
    {
      var ourHdlc := OrElse(offered.hdlc, DEFAULT_HDLC);
      var theirHdlc := OrElse(response.hdlc, DEFAULT_HDLC);
      var agreedSelectiveReject := ourHdlc.selective && theirHdlc.selective;
      var agreedFullDuplex := !OrElse(offered.halfDuplex, true) && !OrElse(response.halfDuplex, true);
      link := link.(srejEnabled := agreedSelectiveReject, implicitReject := !agreedSelectiveReject,
                    isExtended := ourHdlc.modulo128 && theirHdlc.modulo128,
                    segmenter := ourHdlc.segmenter && theirHdlc.segmenter,
                    halfDuplex := !agreedFullDuplex);
    }

    /** Window, information field length and retries. */
    method ApplyCounts(offered: Parameters, response: Parameters)
      modifies this
      ensures var m := Merged(old(link), offered, response);
              link == old(link).(k := m.k, n1 := m.n1, n2 := m.n2)
    {
      var agreedK := MinPresent(offered.k, response.k);
      if agreedK.Some? {
        link := link.(k := agreedK.value);
      }
      var agreedN1 := MinPresent(Octets(offered.n1Bits), Octets(response.n1Bits));
      if agreedN1.Some? {
        link := link.(n1 := agreedN1.value);
      }
      var agreedN2 := MaxPresent(offered.n2, response.n2);
      if agreedN2.Some? {
        link := link.(n2 := agreedN2.value);
      }
    }

    /** The information field of our command; None where the original throws. */
    method BuildXidCommand() returns (info: Option<bytes>)
      ensures info == Encode(Offered())
    {
      info := EncodeXid(Offered());
    }

    method RespondToXidCommand(command: bytes) returns (response: Option<bytes>)
      modifies this
      ensures link == Answered(old(link), explicitOffer, command)
      ensures response == Encode(DefaultOffer(link))
    {
      var parsed := TryParseXid(command, STRICT);
      ApplyNegotiated(Offered(), OrElse(parsed, NOTHING));
      response := EncodeXid(DefaultOffer(link));
    }

    method OnXidResponse(response: bytes)
      modifies this
      ensures link == Answered(old(link), explicitOffer, response)
    {
      var parsed := TryParseXid(response, STRICT);
      ApplyNegotiated(Offered(), OrElse(parsed, NOTHING));
    }
  }

  function OfferOf(l: Link, explicitOffer: Option<Parameters>): Parameters {
    OrElse(explicitOffer, DefaultOffer(l))
  }

  /** A station's link after taking in the other's information field. */
  function Answered(l: Link, explicitOffer: Option<Parameters>, info: bytes): Link {
    Merged(l, OfferOf(l, explicitOffer), Received(info))
  }

  // ---- Convergence -----------------------------------------------------------------------------------------

  /** Numbers the original holds exactly. */
  predicate Exact(p: Parameters) {
    && (p.n1Bits.Some? ==> p.n1Bits.value <= MAX_SAFE)
    && (p.t1.Some? ==> 0.0 <= p.t1.value <= MAX_SAFE as real)
    && (p.n2.Some? ==> p.n2.value <= MAX_SAFE)
  }

  lemma ExactFits(v: nat)
    requires v <= MAX_SAFE
    ensures Fits(v)
  {
    assert Power256(7) == 0x100_0000_0000_0000 by {
      assert Power256(1) == 256;
      assert Power256(2) == 65536;
      assert Power256(3) == 0x100_0000;
      assert Power256(4) == 0x1_0000_0000;
      assert Power256(5) == 0x100_0000_0000;
      assert Power256(6) == 0x1_0000_0000_0000;
    }
    DigitsShort(v, 7, Power256(7));
  }

  /** An offer can be put on the wire exactly when its timer is a whole number. */
  lemma SendableIff(p: Parameters)
    requires Exact(p)
    ensures Encode(p).Some? <==> (p.t1.Some? ==> Whole(p.t1.value))
  {
    if p.n1Bits.Some? {
      ExactFits(p.n1Bits.value);
    }
    if p.t1.Some? {
      assert p.t1.value.Floor as real <= p.t1.value;
      ExactFits(p.t1.value.Floor);
    }
    if p.n2.Some? {
      ExactFits(p.n2.value);
    }
  }

  /** A sendable offer arrives as it was, but for the window, of which seven bits do. */
  lemma OfferArrives(p: Parameters)
    requires Exact(p) && Encode(p).Some?
    ensures Received(Encode(p).value) == p.(k := if p.k.Some? then Some(p.k.value % 128) else None)
  {
    XidRoundTrip(p, STRICT);
    if p.t1.Some? {
      assert p.t1.value.Floor <= MAX_SAFE;
    }
  }

  /** The links of both ends after a command and its response, when neither end throws. */
  datatype Outcome = Outcome(initiator: Link, responder: Link)

  /**
   * One exchange. `offered` is the initiator's offer, the same when it sends the command and when it takes in the
   * response; the responder's offer is `theirs`.
   */
  function Exchange(i: Link, offered: Parameters, r: Link, theirs: Parameters): Option<Outcome> {
    var command := Encode(offered);
    if command.None? then None
    else
      var r' := Merged(r, theirs, Received(command.value));
      var response := Encode(DefaultOffer(r'));
      if response.None? then None else Some(Outcome(Merged(i, offered, Received(response.value)), r'))
  }

  /**
   * The command of one station carried to the other and the response carried back, with nothing lost: both links end
   * as `Exchange` says, and where it says nothing one of the stations had nothing it could send.
   */
  method Negotiate(initiator: ManagementDataLink, responder: ManagementDataLink) returns (completed: bool)
    requires initiator != responder
    modifies initiator, responder
    ensures var outcome := old(Exchange(initiator.link, initiator.Offered(), responder.link, responder.Offered()));
            completed == outcome.Some?
            && (completed ==> outcome.value == Outcome(initiator.link, responder.link))
            && (!completed ==> initiator.link == old(initiator.link))
    ensures var command := old(Encode(initiator.Offered()));
            responder.link == if command.None? then old(responder.link)
                              else old(Answered(responder.link, responder.explicitOffer, command.value))
  {
    var command := initiator.BuildXidCommand();
    if command.None? {
      return false;
    }
    var response := responder.RespondToXidCommand(command.value);
    if response.None? {
      return false;
    }
    initiator.OnXidResponse(response.value);
    return true;
  }

  predicate ExactLink(l: Link) {
    Exact(DefaultOffer(l))
  }

  lemma MergedExact(l: Link, ours: Parameters, theirs: Parameters)
    requires ExactLink(l) && Exact(ours) && Exact(theirs)
    ensures ExactLink(Merged(l, ours, theirs))
  {
  }

  /** What the responder hears of an offer. */
  function Heard(p: Parameters): Parameters {
    p.(k := if p.k.Some? then Some(p.k.value % 128) else None)
  }

  /** The exchange completes exactly when the initiator's timer and the greater of the two are whole numbers. */
  lemma CompletesIff(i: Link, offered: Parameters, r: Link, theirs: Parameters)
    requires ExactLink(r) && Exact(offered) && Exact(theirs)
    ensures Exchange(i, offered, r, theirs).Some? <==>
              (offered.t1.Some? ==> Whole(offered.t1.value)) && Whole(Merged(r, theirs, offered).t1vMs)
  {
    SendableIff(offered);
    if Encode(offered).Some? {
      OfferArrives(offered);
      MergedExact(r, theirs, Heard(offered));
      SendableIff(DefaultOffer(Merged(r, theirs, Heard(offered))));
    }
  }

  /** A link as a session context is created with. */
  const INITIAL := Link(false, true, false, false, true, 4, 256, 6000.0, 3000.0, 10)

  /** The link after T1 was stopped by an acknowledgement that took `roundTripMs`, and re-selected from the new SRT. */
  function Smoothed(l: Link, roundTripMs: nat): Link {
    var srt := 0.875 * l.srtMs + 0.125 * roundTripMs as real;
    l.(srtMs := srt, t1vMs := srt * 2.0)
  }

  lemma QuarterIsWhole(n: nat)
    ensures Whole(5250.0 + 0.25 * n as real) <==> n % 4 == 0
  {
    var q, r := n / 4, n % 4;
    assert n as real == 4.0 * q as real + r as real;
    var t := 5250.0 + 0.25 * n as real;
    assert t == (5250 + q) as real + 0.25 * r as real;
    assert t.Floor == 5250 + q;
  }

  /**
   * A single round trip of a length that is not a multiple of four milliseconds makes a fresh link's timer
   * fractional, and from then on its negotiation fails.
   */
  lemma OneRoundTripStopsNegotiation(roundTripMs: nat)
    requires roundTripMs < 6000
    ensures var i := Smoothed(INITIAL, roundTripMs);
            Exchange(i, DefaultOffer(i), INITIAL, DefaultOffer(INITIAL)).None? <==> roundTripMs % 4 != 0
  {
    var i := Smoothed(INITIAL, roundTripMs);
    assert i.t1vMs == 5250.0 + 0.25 * roundTripMs as real;
    QuarterIsWhole(roundTripMs);
    CompletesIff(i, DefaultOffer(i), INITIAL, DefaultOffer(INITIAL));
  }

  /**
   * Both ends finish with the same link parameters exactly when the responder's window reaches the initiator whole
   * (certain once the initiator offers one) and its smoothed round trip is half its timer (certain once either end
   * offers a timer).
   */
  lemma ConvergesIff(i: Link, offered: Parameters, r: Link, theirs: Parameters)
    requires ExactLink(i) && ExactLink(r) && Exact(offered) && Exact(theirs)
    requires Exchange(i, offered, r, theirs).Some?
    ensures var o := Exchange(i, offered, r, theirs).value;
            o.initiator == o.responder <==>
              (offered.k.Some? || OrElse(theirs.k, r.k) <= 127)
              && (offered.t1.Some? || theirs.t1.Some? || r.srtMs == r.t1vMs / 2.0)
  {
    OfferArrives(offered);
    var r' := Merged(r, theirs, Heard(offered));
    MergedExact(r, theirs, Heard(offered));
    OfferArrives(DefaultOffer(r'));
    var i' := Merged(i, offered, Heard(DefaultOffer(r')));
    BitsConverge(i, offered, r, theirs);
    CountsConverge(i, offered, r, theirs);
    TimersConverge(i, offered, r, theirs);
  }

  lemma BitsConverge(i: Link, offered: Parameters, r: Link, theirs: Parameters)
    ensures var r' := Merged(r, theirs, Heard(offered));
            var i' := Merged(i, offered, Heard(DefaultOffer(r')));
            i'.srejEnabled == r'.srejEnabled && i'.implicitReject == r'.implicitReject
            && i'.isExtended == r'.isExtended && i'.segmenter == r'.segmenter && i'.halfDuplex == r'.halfDuplex
  {
  }

  lemma CountsConverge(i: Link, offered: Parameters, r: Link, theirs: Parameters)
    ensures var r' := Merged(r, theirs, Heard(offered));
            var i' := Merged(i, offered, Heard(DefaultOffer(r')));
            i'.n1 == r'.n1 && i'.n2 == r'.n2
            && (i'.k == r'.k <==> offered.k.Some? || OrElse(theirs.k, r.k) <= 127)
  {
  }

  lemma TimersConverge(i: Link, offered: Parameters, r: Link, theirs: Parameters)
    ensures var r' := Merged(r, theirs, Heard(offered));
            var i' := Merged(i, offered, Heard(DefaultOffer(r')));
            i'.t1vMs == r'.t1vMs
            && (i'.srtMs == r'.srtMs <==> offered.t1.Some? || theirs.t1.Some? || r.srtMs == r.t1vMs / 2.0)
  {
  }

  /** Two stations without explicit offers agree on the lesser or greater of their two values, field by field. */
  lemma DefaultsConverge(i: Link, r: Link)
    requires ExactLink(i) && ExactLink(r) && Exchange(i, DefaultOffer(i), r, DefaultOffer(r)).Some?
    ensures var o := Exchange(i, DefaultOffer(i), r, DefaultOffer(r)).value;
            && o.initiator == o.responder
            && o.responder.srejEnabled == (i.srejEnabled && r.srejEnabled)
            && o.responder.implicitReject == !(i.srejEnabled && r.srejEnabled)
            && o.responder.isExtended == (i.isExtended && r.isExtended)
            && o.responder.segmenter == (i.segmenter && r.segmenter)
            && o.responder.halfDuplex == (i.halfDuplex || r.halfDuplex)
            && o.responder.n1 == Min(i.n1, r.n1)
            && o.responder.t1vMs == (if i.t1vMs < r.t1vMs then r.t1vMs else i.t1vMs)
            && o.responder.n2 == Max(i.n2, r.n2)
    ensures Exchange(i, DefaultOffer(i), r, DefaultOffer(r)).value.responder.k == Min(i.k, r.k) <==>
              i.k <= 127 || r.k <= i.k % 128
  {
    ConvergesIff(i, DefaultOffer(i), r, DefaultOffer(r));
    OfferArrives(DefaultOffer(i));
  }

  /** An offered window of 130 arrives as 2, and both ends take that. */
  lemma WideWindowShrinks()
    ensures var i := INITIAL.(k := 130);
            var o := Exchange(i, DefaultOffer(i), INITIAL, DefaultOffer(INITIAL));
            o.Some? && o.value.initiator.k == o.value.responder.k == 2
  {
    var i := INITIAL.(k := 130);
    CompletesIff(i, DefaultOffer(i), INITIAL, DefaultOffer(INITIAL));
    ConvergesIff(i, DefaultOffer(i), INITIAL, DefaultOffer(INITIAL));
    OfferArrives(DefaultOffer(i));
  }

  // ---- Repeats ---------------------------------------------------------------------------------------------

  /** Answering the same command again changes nothing, with an explicit offer or a derived one. */
  lemma RepeatedCommandChangesNothing(r: Link, explicitOffer: Option<Parameters>, command: bytes)
    ensures var once := Answered(r, explicitOffer, command); Answered(once, explicitOffer, command) == once
  {
  }

  /** A second exchange between two stations that have agreed leaves both as they are. */
  lemma RenegotiationChangesNothing(l: Link)
    requires ExactLink(l) && l.implicitReject == !l.srejEnabled && l.srtMs == l.t1vMs / 2.0 && l.k <= 127
    requires Whole(l.t1vMs)
    ensures Exchange(l, DefaultOffer(l), l, DefaultOffer(l)) == Some(Outcome(l, l))
  {
    CompletesIff(l, DefaultOffer(l), l, DefaultOffer(l));
    DefaultsConverge(l, l);
  }

  // ---- The merge, field by field ---------------------------------------------------------------------------

  /** What is agreed of a field both offer, one offers, or neither: for windows and lengths the lesser. */
  predicate Lesser(agreed: nat, held: nat, a: Option<nat>, b: Option<nat>) {
    match (a, b)
    case (Some(x), Some(y)) => agreed <= x && agreed <= y && (agreed == x || agreed == y)
    case (Some(x), None) => agreed == x
    case (None, Some(y)) => agreed == y
    case (None, None) => agreed == held
  }

  /** For retries the greater. */
  predicate Greater(agreed: nat, held: nat, a: Option<nat>, b: Option<nat>) {
    match (a, b)
    case (Some(x), Some(y)) => agreed >= x && agreed >= y && (agreed == x || agreed == y)
    case (Some(x), None) => agreed == x
    case (None, Some(y)) => agreed == y
    case (None, None) => agreed == held
  }

  /**
   * A capability is agreed only if both ends have it, one that does not say being taken to do selective reject and
   * modulo 128 but no segmentation, in half duplex; a field neither offers stays as it is.
   */
  lemma MergeIs(l: Link, ours: Parameters, theirs: Parameters)
    ensures var m := Merged(l, ours, theirs);
            && (m.srejEnabled <==> (ours.hdlc.Some? ==> ours.hdlc.value.selective)
                                   && (theirs.hdlc.Some? ==> theirs.hdlc.value.selective))
            && m.implicitReject == !m.srejEnabled
            && (m.isExtended <==> (ours.hdlc.Some? ==> ours.hdlc.value.modulo128)
                                  && (theirs.hdlc.Some? ==> theirs.hdlc.value.modulo128))
            && (m.segmenter <==> ours.hdlc.Some? && ours.hdlc.value.segmenter
                                 && theirs.hdlc.Some? && theirs.hdlc.value.segmenter)
            && (!m.halfDuplex <==> ours.halfDuplex == Some(false) && theirs.halfDuplex == Some(false))
            && Lesser(m.k, l.k, ours.k, theirs.k) && Greater(m.n2, l.n2, ours.n2, theirs.n2)
            && Lesser(m.n1, l.n1, Octets(ours.n1Bits), Octets(theirs.n1Bits))
            && (ours.t1.None? && theirs.t1.None? ==> m.t1vMs == l.t1vMs && m.srtMs == l.srtMs)
            && (ours.t1.Some? || theirs.t1.Some? ==>
                  m.srtMs == m.t1vMs / 2.0 && (ours.t1 == Some(m.t1vMs) || theirs.t1 == Some(m.t1vMs))
                  && (ours.t1.Some? ==> ours.t1.value <= m.t1vMs) && (theirs.t1.Some? ==> theirs.t1.value <= m.t1vMs))
  {
  }

  /** An offer derived from a link says all of it, lengths in bits, and SREJ multiframe along with selective reject. */
  lemma OfferIs(l: Link)
    ensures DefaultOffer(l) == Parameters(Some(l.halfDuplex), Some(Hdlc(l.srejEnabled, l.isExtended, l.srejEnabled,
                                          l.segmenter)), Some(8 * l.n1), Some(l.k), Some(l.t1vMs), Some(l.n2))
  {
  }
}
