/**
 * Splitting a payload over several information fields and putting it together again, section 6.6 of AX.25 v2.2, in
 * the figure's own format and in the one that carries the Layer 3 PID on the first segment.
 */
module Segmentation {
  import opened Common

  const FIRST_BIT := 0x80
  const MAX_SEGMENTS := 128
  const PID_SEGMENTED: byte := 0x08
  const PID_NO_LAYER_3: byte := 0xf0

  // ---- Segments --------------------------------------------------------------------------------------------

  /** Where segment `i` starts: `i * per`. */
  function Offset(i: nat, per: nat): nat {
    if i == 0 then 0 else Offset(i - 1, per) + per
  }

  lemma {:induction false} OffsetIs(i: nat, per: nat)
    ensures Offset(i, per) == i * per
  {
    if i > 0 {
      OffsetIs(i - 1, per);
      assert i * per == (i - 1) * per + per;
    }
  }

  lemma {:induction false} OffsetGrows(i: nat, j: nat, per: nat)
    requires i <= j
    ensures Offset(i, per) <= Offset(j, per)
    decreases j - i
  {
    if i < j {
      OffsetGrows(i, j - 1, per);
    }
  }

  function CeilDiv(a: nat, b: nat): nat
    requires a > 0 && b > 0
  {
    (a - 1) / b + 1
  }

  /** Segments needed for `n` octets, `per` to a segment; one even for none. */
  function SegmentCount(n: nat, per: nat): (c: nat)
    requires per > 0
    ensures c >= 1
  {
    if n == 0 then 1 else CeilDiv(n, per)
  }

  /** They hold all the octets, and one fewer would not. */
  lemma CountIsExact(n: nat, per: nat)
    requires per > 0
    ensures var c := SegmentCount(n, per); Offset(c, per) >= n && (n > 0 ==> Offset(c - 1, per) < n)
  {
    if n > 0 {
      var q, r := (n - 1) / per, (n - 1) % per;
      assert n - 1 == q * per + r;
      OffsetIs(q, per);
    }
  }

  /** The octets of segment `i`. */
  function Piece(stream: bytes, per: nat, i: nat): bytes {
    stream[Min(Offset(i, per), |stream|)..Min(Offset(i, per) + per, |stream|)]
  }

  function Header(i: nat, count: nat): byte
    requires i < count <= MAX_SEGMENTS
  {
    (if i == 0 then FIRST_BIT else 0) + (count - 1 - i)
  }

  function SegmentAt(stream: bytes, per: nat, count: nat, i: nat): bytes
    requires i < count <= MAX_SEGMENTS
  {
    [Header(i, count)] + Piece(stream, per, i)
  }

  /** The first `n` of `count` segments. */
  function FirstSegments(stream: bytes, per: nat, count: nat, n: nat): (segments: seq<bytes>)
    requires n <= count <= MAX_SEGMENTS
    ensures |segments| == n
  {
    if n == 0 then [] else FirstSegments(stream, per, count, n - 1) + [SegmentAt(stream, per, count, n - 1)]
  }

  /** What is split: the payload, after its PID in the format that carries it. */
  function Stream(payload: bytes, innerPid: Option<byte>): bytes {
    (if innerPid.Some? then [innerPid.value] else []) + payload
  }

  function LeastN1(innerPid: Option<byte>): nat {
    if innerPid.Some? then 3 else 2
  }

  /** The segments of a payload; None where the original throws. */
  function Segments(payload: bytes, n1: nat, innerPid: Option<byte>): Option<seq<bytes>> {
    if n1 < LeastN1(innerPid) then None
    else
      var stream, per := Stream(payload, innerPid), n1 - 1;
      var count := SegmentCount(|stream|, per);
      if count > MAX_SEGMENTS then None
      else Some(FirstSegments(stream, per, count, count))
  }

  lemma {:induction false} FirstSegmentsAt(stream: bytes, per: nat, count: nat, n: nat, i: nat)
    requires i < n <= count <= MAX_SEGMENTS
    ensures FirstSegments(stream, per, count, n)[i] == SegmentAt(stream, per, count, i)
  {
    if i < n - 1 {
      FirstSegmentsAt(stream, per, count, n - 1, i);
    }
  }

  /** Splitting succeeds exactly when a segment has room for an octet and 128 of them have room for the stream. */
  lemma SegmentsIff(payload: bytes, n1: nat, innerPid: Option<byte>)
    ensures Segments(payload, n1, innerPid).Some? <==>
              n1 >= (if innerPid.Some? then 3 else 2) && |Stream(payload, innerPid)| <= 128 * (n1 - 1)
  {
    if n1 >= LeastN1(innerPid) {
      CountWithinIff(|Stream(payload, innerPid)|, n1 - 1);
    }
  }

  lemma CountWithinIff(n: nat, per: nat)
    requires per > 0
    ensures SegmentCount(n, per) <= MAX_SEGMENTS <==> n <= MAX_SEGMENTS * per
  {
    var count := SegmentCount(n, per);
    CountIsExact(n, per);
    OffsetIs(MAX_SEGMENTS, per);
    if count > MAX_SEGMENTS {
      OffsetGrows(MAX_SEGMENTS, count - 1, per);
    } else {
      OffsetGrows(count, MAX_SEGMENTS, per);
    }
  }

  /** No segment's information field is longer than N1. */
  lemma SegmentsFit(payload: bytes, n1: nat, innerPid: Option<byte>, i: nat)
    requires Segments(payload, n1, innerPid).Some? && i < |Segments(payload, n1, innerPid).value|
    ensures 1 <= |Segments(payload, n1, innerPid).value[i]| <= n1
  {
    SegmentsShape(payload, n1, innerPid, i);
  }

  /** What each of the segments is. */
  lemma SegmentsShape(payload: bytes, n1: nat, innerPid: Option<byte>, k: nat)
    requires Segments(payload, n1, innerPid).Some? && k < |Segments(payload, n1, innerPid).value|
    ensures var stream, count := Stream(payload, innerPid), |Segments(payload, n1, innerPid).value|;
            && n1 >= 2 && count <= MAX_SEGMENTS && Offset(count, n1 - 1) >= |stream|
            && Segments(payload, n1, innerPid).value[k] == SegmentAt(stream, n1 - 1, count, k)
  {
    var stream, per := Stream(payload, innerPid), n1 - 1;
    CountIsExact(|stream|, per);
    var count := SegmentCount(|stream|, per);
    FirstSegmentsAt(stream, per, count, count, k);
  }

  /** The figure's format: a control octet and up to N1 - 1 octets of payload. */
  method SegmentFigureLiteral(payload: bytes, n1: nat) returns (result: Option<seq<bytes>>)
    ensures result == Segments(payload, n1, None)
  {
    if n1 < 2 {
      return None;
    }
    var perSegment := n1 - 1;
    var segmentCount := if |payload| == 0 then 1 else CeilDiv(|payload|, perSegment);
    if segmentCount > MAX_SEGMENTS {
      return None;
    }
    assert Stream(payload, None) == payload;
    CountIsExact(|payload|, perSegment);
    var segments: seq<bytes> := [];
    for i := 0 to segmentCount
      invariant segments == FirstSegments(payload, perSegment, segmentCount, i)
    {
      var offset := i * perSegment;
      var thisLen := Min(perSegment, |payload| - offset);
      OffsetIs(i, perSegment);
      OffsetGrows(i, segmentCount - 1, perSegment);
      var out := [Header(i, segmentCount)] + if thisLen > 0 then payload[offset..offset + thisLen] else [];
      assert out[1..] == Piece(payload, perSegment, i);
      segments := segments + [out];
    }
    result := Some(segments);
  }

  /** After the first segment the PID octet only shifts the payload by one. */
  lemma InnerPiece(payload: bytes, pid: byte, per: nat, i: nat, offset: int)
    requires i >= 1 && per >= 2 && offset == Min(Offset(i, per), |payload| + 1) - 1
    ensures 0 <= offset <= |payload|
    ensures Piece(Stream(payload, Some(pid)), per, i) == payload[offset..offset + Min(per, |payload| - offset)]
    ensures offset + Min(per, |payload| - offset) == Min(Offset(i + 1, per), |payload| + 1) - 1
  {
    OffsetGrows(1, i, per);
    var stream := Stream(payload, Some(pid));
    assert stream[1..] == payload;
    assert forall j :: 0 <= j < |payload| ==> stream[1 + j] == payload[j];
  }

  /** The format with the PID as an extra octet on the first segment. */
  method SegmentWithInnerPid(payload: bytes, n1: nat, innerPid: byte) returns (result: Option<seq<bytes>>)
    ensures result == Segments(payload, n1, Some(innerPid))
  {
    if n1 < 3 {
      return None;
    }
    var perSegment := n1 - 1;
    ghost var stream := Stream(payload, Some(innerPid));
    var segmentCount := CeilDiv(|payload| + 1, perSegment);
    if segmentCount > MAX_SEGMENTS {
      return None;
    }
    var firstLen := Min(n1 - 2, |payload|);
    assert [innerPid] + payload[..firstLen] == Piece(stream, perSegment, 0);
    var segments: seq<bytes> := [[Header(0, segmentCount), innerPid] + payload[..firstLen]];
    assert segments[0] == SegmentAt(stream, perSegment, segmentCount, 0);
    var offset := firstLen;
    assert Offset(1, perSegment) == perSegment;
    for i := 1 to segmentCount
      invariant offset == Min(Offset(i, perSegment), |payload| + 1) - 1
      invariant segments == FirstSegments(stream, perSegment, segmentCount, i)
    {
      InnerPiece(payload, innerPid, perSegment, i, offset);
      var thisLen := Min(perSegment, |payload| - offset);
      segments := segments + [[Header(i, segmentCount)] + payload[offset..offset + thisLen]];
      offset := offset + thisLen;
    }
    result := Some(segments);
  }

  // ---- Reassembly ------------------------------------------------------------------------------------------

  /** A series under way; -1 expected means waiting for a first segment. */
  datatype Series = Series(accumulated: seq<bytes>, expectedRemaining: int, pendingPid: Option<byte>,
                           lastRecoveredPid: Option<byte>)

  const FRESH := Series([], -1, None, None)

  datatype Push = Bad | More | Done(payload: bytes)

  function Flat(chunks: seq<bytes>): bytes {
    if chunks == [] then [] else Flat(chunks[..|chunks| - 1]) + chunks[|chunks| - 1]
  }

  /** What one segment does to a series. */
  function Pushed(s: Series, inner: bool, info: bytes): (Series, Push) {
    if |info| < 1 then (s, Bad)
    else
      var first, remaining := info[0] >= FIRST_BIT, (info[0] % FIRST_BIT) as int;
      if first && inner && |info| < 2 then (s, Bad)
      else if !first && (s.expectedRemaining < 0 || remaining != s.expectedRemaining - 1) then (s, Bad)
      else
        var data := if first && inner then info[2..] else info[1..];
        var pid := if !first then s.pendingPid else if inner then Some(info[1]) else None;
        var chunks := (if first then [] else s.accumulated) + [data];
        if remaining != 0 then (Series(chunks, remaining, pid, s.lastRecoveredPid), More)
        else (Series([], -1, None, pid), Done(Flat(chunks)))
  }

  class Reassembler {
    var accumulated: seq<bytes>
    var expectedRemaining: int
    const expectInnerPid: bool
    var pendingPid: Option<byte>
    var lastRecoveredPid: Option<byte>

    constructor (expectInnerPid: bool)
      ensures this.expectInnerPid == expectInnerPid && Value() == FRESH
    {
      this.expectInnerPid := expectInnerPid;
      accumulated, expectedRemaining, pendingPid, lastRecoveredPid := [], -1, None, None;
    }

    function Value(): Series
      reads this
    {
      Series(accumulated, expectedRemaining, pendingPid, lastRecoveredPid)
    }

    /** Take in one segment. A bad one leaves the series alone; the original throws. */
    method PushSegment(info: bytes) returns (r: Push)
      modifies this
      ensures (Value(), r) == Pushed(old(Value()), expectInnerPid, info)
    {
      if |info| < 1 {
        return Bad;
      }
      var isFirst, remaining := info[0] >= FIRST_BIT, (info[0] % FIRST_BIT) as int;
      if isFirst && expectInnerPid && |info| < 2 {
        return Bad;
      }
      var data := if isFirst && expectInnerPid then info[2..] else info[1..];
      if isFirst {
        pendingPid := if expectInnerPid then Some(info[1]) else None;
        accumulated := [];
      } else if expectedRemaining < 0 || remaining != expectedRemaining - 1 {
        return Bad;
      }
      expectedRemaining := remaining;
      accumulated := accumulated + [data];
      if remaining != 0 {
        return More;
      }
      var out: bytes := [];
      for i := 0 to |accumulated|
        invariant out == Flat(accumulated[..i])
      {
        assert accumulated[..i + 1][..i] == accumulated[..i];
        out := out + accumulated[i];
      }
      assert accumulated[..|accumulated|] == accumulated;
      accumulated, expectedRemaining := [], -1;
      lastRecoveredPid := pendingPid;
      pendingPid := None;
      r := Done(out);
    }
  }

  // ---- The layer -------------------------------------------------------------------------------------------

  datatype Indication = Indication(data: bytes, pid: byte)

  /** What one indication makes of the layer's series (None before the first segment and after a bad one). */
  function Indicated(s: Option<Series>, inner: bool, x: Indication): (Option<Series>, Option<Indication>) {
    if x.pid != PID_SEGMENTED then (s, Some(x))
    else
      var (s', r) := Pushed(OrElse(s, FRESH), inner, x.data);
      match r
      case Bad => (None, None)
      case More => (Some(s'), None)
      case Done(payload) => (Some(s'), Some(Indication(payload, OrElse(s'.lastRecoveredPid, PID_NO_LAYER_3))))
  }

  class SegmentationLayer {
    const n1: nat
    const segmenterEnabled: bool
    const innerPidFormat: bool
    var reassembler: Reassembler?

    constructor (n1: nat, segmenterEnabled: bool, innerPidFormat: bool)
      ensures this.n1 == n1 && this.segmenterEnabled == segmenterEnabled && this.innerPidFormat == innerPidFormat
      ensures reassembler == null
    {
      this.n1, this.segmenterEnabled, this.innerPidFormat := n1, segmenterEnabled, innerPidFormat;
      reassembler := null;
    }

    predicate Valid()
      reads this
    {
      reassembler != null ==> reassembler.expectInnerPid == innerPidFormat
    }

    function Value(): Option<Series>
      reads this, reassembler
    {
      if reassembler == null then None else Some(reassembler.Value())
    }

    method BuildSendRequests(data: bytes, pid: byte) returns (requests: Option<seq<Indication>>)
      ensures requests.None? <==> |data| > n1 && !Splits(data, pid, n1, segmenterEnabled, innerPidFormat)
      ensures |data| <= n1 ==> requests == Some([Indication(data, pid)])
      ensures |data| > n1 && requests.Some? ==> Carries(requests.value, data, n1, InnerPid(pid, innerPidFormat))
    {
      SegmentsIff(data, n1, InnerPid(pid, innerPidFormat));
      if |data| <= n1 {
        return Some([Indication(data, pid)]);
      }
      if !segmenterEnabled {
        return None;
      }
      var segments;
      if innerPidFormat {
        segments := SegmentWithInnerPid(data, n1, pid);
      } else {
        segments := SegmentFigureLiteral(data, n1);
      }
      if segments.None? {
        return None;
      }
      RequestsCarry(data, n1, InnerPid(pid, innerPidFormat));
      requests := Some(AsRequests(segments.value));
    }

    method OnDataIndication(x: Indication) returns (delivered: Option<Indication>)
      requires Valid()
      modifies this, reassembler
      ensures Valid() && (reassembler == null || reassembler == old(reassembler) || fresh(reassembler))
      ensures (Value(), delivered) == Indicated(old(Value()), innerPidFormat, x)
    {
      if x.pid != PID_SEGMENTED {
        return Some(x);
      }
      if reassembler == null {
        reassembler := new Reassembler(innerPidFormat);
      }
      var completed := reassembler.PushSegment(x.data);
      match completed {
        case Bad =>
          reassembler := null;
          return None;
        case More =>
          return None;
        case Done(payload) =>
          delivered := Some(Indication(payload, OrElse(reassembler.lastRecoveredPid, PID_NO_LAYER_3)));
      }
    }
  }

  function AsRequests(segments: seq<bytes>): (r: seq<Indication>)
    ensures |r| == |segments| && forall i :: 0 <= i < |r| ==> r[i] == Indication(segments[i], PID_SEGMENTED)
  {
    seq(|segments|, i requires 0 <= i < |segments| => Indication(segments[i], PID_SEGMENTED))
  }

  /** The PID a first segment carries, in the format that carries one. */
  function InnerPid(pid: byte, inner: bool): Option<byte> {
    if inner then Some(pid) else None
  }

  /** Segmentation is on, and a segment has room for an octet and 128 of them for the whole payload. */
  predicate Splits(data: bytes, pid: byte, n1: nat, enabled: bool, inner: bool) {
    && enabled && n1 >= LeastN1(InnerPid(pid, inner))
    && |Stream(data, InnerPid(pid, inner))| <= MAX_SEGMENTS * (n1 - 1)
  }

  /** Exactly the segments of the payload in order, every one within N1 and under the segment PID. */
  predicate Carries(requests: seq<Indication>, data: bytes, n1: nat, innerPid: Option<byte>) {
    && Segments(data, n1, innerPid) == Some(SegmentsIn(requests))
    && forall i :: 0 <= i < |requests| ==> requests[i].pid == PID_SEGMENTED && 1 <= |requests[i].data| <= n1
  }

  lemma RequestsCarry(data: bytes, n1: nat, innerPid: Option<byte>)
    requires Segments(data, n1, innerPid).Some?
    ensures Carries(AsRequests(Segments(data, n1, innerPid).value), data, n1, innerPid)
  {
    var segments := Segments(data, n1, innerPid).value;
    SegmentsOfRequests(segments);
    forall i | 0 <= i < |segments| ensures 1 <= |segments[i]| <= n1 {
      SegmentsFit(data, n1, innerPid, i);
    }
  }

  lemma {:induction false} SegmentsOfRequests(segments: seq<bytes>)
    ensures SegmentsIn(AsRequests(segments)) == segments
  {
    if segments != [] {
      var init := segments[..|segments| - 1];
      SegmentsOfRequests(init);
      assert AsRequests(segments)[..|segments| - 1] == AsRequests(init);
    }
  }

  // ---- Round trip ------------------------------------------------------------------------------------------

  /** The layer's series after a run of indications. */
  function Fed(s: Option<Series>, inner: bool, xs: seq<Indication>): Option<Series> {
    if xs == [] then s else Indicated(Fed(s, inner, xs[..|xs| - 1]), inner, xs[|xs| - 1]).0
  }

  /** What the indication at `n` of a run delivers. */
  function Delivered(s: Option<Series>, inner: bool, xs: seq<Indication>, n: nat): Option<Indication>
    requires n < |xs|
  {
    Indicated(Fed(s, inner, xs[..n]), inner, xs[n]).1
  }

  /** The segments among a run of indications, in order. */
  function SegmentsIn(xs: seq<Indication>): seq<bytes> {
    if xs == [] then []
    else
      var last := xs[|xs| - 1];
      SegmentsIn(xs[..|xs| - 1]) + if last.pid == PID_SEGMENTED then [last.data] else []
  }

  /** The series has taken in the first `k` of `count` segments of a payload. */
  predicate MidSeries(s: Series, payload: bytes, per: nat, innerPid: Option<byte>, count: nat, k: nat) {
    && s.expectedRemaining == count - k
    && s.pendingPid == innerPid
    && Stream(Flat(s.accumulated), innerPid)
       == Stream(payload, innerPid)[..Min(Offset(k, per), |Stream(payload, innerPid)|)]
  }

  lemma FlatAppend(chunks: seq<bytes>, x: bytes)
    ensures Flat(chunks + [x]) == Flat(chunks) + x
  {
    assert (chunks + [x])[..|chunks|] == chunks;
  }

  lemma StreamAppend(a: bytes, d: bytes, innerPid: Option<byte>)
    ensures Stream(a + d, innerPid) == Stream(a, innerPid) + d
  {
  }

  lemma StreamInjective(a: bytes, b: bytes, innerPid: Option<byte>)
    requires Stream(a, innerPid) == Stream(b, innerPid)
    ensures a == b
  {
    var skip := if innerPid.Some? then 1 else 0;
    assert a == Stream(a, innerPid)[skip..] && b == Stream(b, innerPid)[skip..];
  }

  lemma PieceExtends(stream: bytes, per: nat, k: nat)
    ensures stream[..Min(Offset(k, per), |stream|)] + Piece(stream, per, k)
         == stream[..Min(Offset(k + 1, per), |stream|)]
  {
  }

  /** The data the reassembler takes from a first segment. */
  function FirstData(info: bytes, inner: bool): bytes
    requires |info| >= 2
  {
    if inner then info[2..] else info[1..]
  }

  lemma FirstPiece(payload: bytes, per: nat, innerPid: Option<byte>, count: nat)
    requires per >= 1 && 1 <= count <= MAX_SEGMENTS && (innerPid.Some? || payload != [])
    ensures var stream, info := Stream(payload, innerPid), SegmentAt(Stream(payload, innerPid), per, count, 0);
            && |info| >= 2 && (innerPid.Some? ==> info[1] == innerPid.value)
            && Stream(FirstData(info, innerPid.Some?), innerPid) == stream[..Min(per, |stream|)]
            && (|stream| <= per ==> FirstData(info, innerPid.Some?) == payload)
  {
    var stream := Stream(payload, innerPid);
    var piece := Piece(stream, per, 0);
    assert piece == stream[..Min(per, |stream|)];
    var info := SegmentAt(stream, per, count, 0);
    assert info[1..] == piece;
    assert Stream(FirstData(info, innerPid.Some?), innerPid) == piece;
    if |stream| <= per {
      assert piece == stream;
      StreamInjective(FirstData(info, innerPid.Some?), payload, innerPid);
    }
  }

  lemma FirstPushed(s: Series, payload: bytes, n1: nat, innerPid: Option<byte>)
    requires Segments(payload, n1, innerPid).Some?
    ensures var segments := Segments(payload, n1, innerPid).value;
            var (s', r) := Pushed(s, innerPid.Some?, segments[0]);
            if |segments| == 1 then r == Done(payload) && s'.lastRecoveredPid == innerPid
            else r == More && MidSeries(s', payload, n1 - 1, innerPid, |segments|, 1)
  {
    var segments, per := Segments(payload, n1, innerPid).value, n1 - 1;
    SegmentsShape(payload, n1, innerPid, 0);
    if innerPid.None? && payload == [] {
      EmptyPushed(s, segments[0]);
    } else {
      FirstFrom(s, payload, per, innerPid, |segments|);
    }
  }

  lemma EmptyPushed(s: Series, info: bytes)
    requires info == [FIRST_BIT]
    ensures var (s', r) := Pushed(s, false, info); r == Done([]) && s'.lastRecoveredPid == None
  {
    FlatAppend([], info[1..]);
  }

  lemma FirstFrom(s: Series, payload: bytes, per: nat, innerPid: Option<byte>, count: nat)
    requires per >= 1 && 1 <= count <= MAX_SEGMENTS && (innerPid.Some? || payload != [])
    requires count == 1 ==> |Stream(payload, innerPid)| <= per
    ensures var (s', r) := Pushed(s, innerPid.Some?, SegmentAt(Stream(payload, innerPid), per, count, 0));
            if count == 1 then r == Done(payload) && s'.lastRecoveredPid == innerPid
            else r == More && MidSeries(s', payload, per, innerPid, count, 1)
  {
    assert Offset(1, per) == per;
    FirstPiece(payload, per, innerPid, count);
    FlatAppend([], FirstData(SegmentAt(Stream(payload, innerPid), per, count, 0), innerPid.Some?));
  }

  lemma NextPushed(s: Series, payload: bytes, n1: nat, innerPid: Option<byte>, k: nat)
    requires Segments(payload, n1, innerPid).Some? && 1 <= k < |Segments(payload, n1, innerPid).value|
    requires MidSeries(s, payload, n1 - 1, innerPid, |Segments(payload, n1, innerPid).value|, k)
    ensures var segments := Segments(payload, n1, innerPid).value;
            var (s', r) := Pushed(s, innerPid.Some?, segments[k]);
            if k == |segments| - 1 then r == Done(payload) && s'.lastRecoveredPid == innerPid
            else r == More && MidSeries(s', payload, n1 - 1, innerPid, |segments|, k + 1)
  {
    var segments, stream, per := Segments(payload, n1, innerPid).value, Stream(payload, innerPid), n1 - 1;
    SegmentsShape(payload, n1, innerPid, k);
    var data := segments[k][1..];
    assert data == Piece(stream, per, k);
    PieceExtends(stream, per, k);
    FlatAppend(s.accumulated, data);
    StreamAppend(Flat(s.accumulated), data, innerPid);
    if k == |segments| - 1 {
      assert stream[..|stream|] == stream;
      StreamInjective(Flat(s.accumulated) + data, payload, innerPid);
    }
  }

  /** After the first `k` segments, others interleaved, from any state at all. */
  lemma {:induction false} FedSeries(s: Option<Series>, payload: bytes, n1: nat, innerPid: Option<byte>,
                                     xs: seq<Indication>)
    requires Segments(payload, n1, innerPid).Some?
    requires SegmentsIn(xs) <= Segments(payload, n1, innerPid).value && SegmentsIn(xs) != []
    requires |SegmentsIn(xs)| < |Segments(payload, n1, innerPid).value|
    ensures var s' := Fed(s, innerPid.Some?, xs);
            s'.Some? && MidSeries(s'.value, payload, n1 - 1, innerPid, |Segments(payload, n1, innerPid).value|,
                                  |SegmentsIn(xs)|)
  {
    var segments := Segments(payload, n1, innerPid).value;
    var init, last := xs[..|xs| - 1], xs[|xs| - 1];
    var k := |SegmentsIn(init)|;
    assert SegmentsIn(init) == SegmentsIn(xs)[..k];
    if k > 0 {
      FedSeries(s, payload, n1, innerPid, init);
    }
    if last.pid == PID_SEGMENTED {
      assert last.data == SegmentsIn(xs)[k] == segments[k];
      FedOne(Fed(s, innerPid.Some?, init), payload, n1, innerPid, k, last);
    }
  }

  /** One more segment that is not the last. */
  lemma FedOne(s: Option<Series>, payload: bytes, n1: nat, innerPid: Option<byte>, k: nat, x: Indication)
    requires Segments(payload, n1, innerPid).Some? && k + 1 < |Segments(payload, n1, innerPid).value|
    requires x == Indication(Segments(payload, n1, innerPid).value[k], PID_SEGMENTED)
    requires k > 0 ==>
               s.Some? && MidSeries(s.value, payload, n1 - 1, innerPid, |Segments(payload, n1, innerPid).value|, k)
    ensures var s' := Indicated(s, innerPid.Some?, x).0;
            s'.Some? && MidSeries(s'.value, payload, n1 - 1, innerPid, |Segments(payload, n1, innerPid).value|, k + 1)
  {
    if k == 0 {
      FirstPushed(OrElse(s, FRESH), payload, n1, innerPid);
    } else {
      NextPushed(s.value, payload, n1, innerPid, k);
    }
  }

  /**
   * Every payload that splits is delivered whole, with its PID, by its last segment and only by that: the layer may
   * start in any state and other indications may come in between, which pass through unchanged.
   */
  lemma SegmentationRoundTrip(s: Option<Series>, payload: bytes, n1: nat, innerPid: Option<byte>, xs: seq<Indication>,
                              n: nat)
    requires Segments(payload, n1, innerPid).Some? && SegmentsIn(xs) == Segments(payload, n1, innerPid).value
    requires n < |xs|
    ensures Delivered(s, innerPid.Some?, xs, n) ==
              if xs[n].pid != PID_SEGMENTED then Some(xs[n])
              else if SegmentsIn(xs[..n + 1]) == SegmentsIn(xs) then
                Some(Indication(payload, OrElse(innerPid, PID_NO_LAYER_3)))
              else None
  {
    if xs[n].pid == PID_SEGMENTED {
      SegmentPlace(xs, n);
      NextDelivered(s, payload, n1, innerPid, xs[..n], xs[n]);
    }
  }

  /** Which of a run's segments the one at `n` is. */
  lemma SegmentPlace(xs: seq<Indication>, n: nat)
    requires n < |xs| && xs[n].pid == PID_SEGMENTED
    ensures var before, all := SegmentsIn(xs[..n]), SegmentsIn(xs);
            && before <= all && |before| < |all| && xs[n].data == all[|before|]
            && (SegmentsIn(xs[..n + 1]) == all <==> |before| == |all| - 1)
  {
    SegmentsInPrefix(xs, n + 1);
    assert xs[..n + 1][..n] == xs[..n];
    assert SegmentsIn(xs[..n + 1]) == SegmentsIn(xs[..n]) + [xs[n].data];
  }

  lemma NextDelivered(s: Option<Series>, payload: bytes, n1: nat, innerPid: Option<byte>, init: seq<Indication>,
                      x: Indication)
    requires Segments(payload, n1, innerPid).Some? && x.pid == PID_SEGMENTED
    requires var segments := Segments(payload, n1, innerPid).value;
             SegmentsIn(init) <= segments && |SegmentsIn(init)| < |segments|
             && x.data == segments[|SegmentsIn(init)|]
    ensures Indicated(Fed(s, innerPid.Some?, init), innerPid.Some?, x).1 ==
              if |SegmentsIn(init)| == |Segments(payload, n1, innerPid).value| - 1 then
                Some(Indication(payload, OrElse(innerPid, PID_NO_LAYER_3)))
              else None
  {
    if SegmentsIn(init) == [] {
      FirstPushed(OrElse(Fed(s, innerPid.Some?, init), FRESH), payload, n1, innerPid);
    } else {
      FedSeries(s, payload, n1, innerPid, init);
      NextPushed(Fed(s, innerPid.Some?, init).value, payload, n1, innerPid, |SegmentsIn(init)|);
    }
  }

  lemma {:induction false} SegmentsInPrefix(xs: seq<Indication>, n: nat)
    requires n <= |xs|
    ensures SegmentsIn(xs[..n]) <= SegmentsIn(xs)
    decreases |xs|
  {
    if n < |xs| {
      var init := xs[..|xs| - 1];
      SegmentsInPrefix(init, n);
      assert init[..n] == xs[..n];
    } else {
      assert xs[..n] == xs;
    }
  }

  /**
   * From one layer to another: the requests a payload is split into, with other indications in between and the peer
   * in any state, deliver nothing before the last of them; that one delivers the payload, with its PID if and only if
   * the format carries it or it is the one the receiver assumes.
   */
  lemma LayerToLayer(s: Option<Series>, data: bytes, pid: byte, n1: nat, inner: bool, xs: seq<Indication>, n: nat)
    requires Segments(data, n1, InnerPid(pid, inner)) == Some(SegmentsIn(xs))
    requires n < |xs| && xs[n].pid == 0x08
    ensures SegmentsIn(xs[..n + 1]) != SegmentsIn(xs) ==> Delivered(s, inner, xs, n).None?
    ensures SegmentsIn(xs[..n + 1]) == SegmentsIn(xs) ==>
              && Delivered(s, inner, xs, n).Some? && Delivered(s, inner, xs, n).value.data == data
              && (Delivered(s, inner, xs, n) == Some(Indication(data, pid)) <==> inner || pid == 0xf0)
  {
    SegmentationRoundTrip(s, data, n1, InnerPid(pid, inner), xs, n);
  }

  /** The figure's own format loses a PID other than the assumed one. */
  lemma FigureLiteralLosesPid(s: Option<Series>)
    ensures var segments := Segments([1, 2, 3], 2, None);
            segments.Some? && |segments.value| == 3
            && Delivered(s, false, AsRequests(segments.value), 2) == Some(Indication([1, 2, 3], 0xf0))
  {
    var data: bytes := [1, 2, 3];
    SegmentsIff(data, 2, None);
    var xs := AsRequests(Segments(data, 2, None).value);
    SegmentsOfRequests(Segments(data, 2, None).value);
    assert xs[..2 + 1] == xs;
    SegmentationRoundTrip(s, data, 2, None, xs, 2);
  }

  /** The last segment of a series under way that carried the segment PID itself, and whose payload is `data`. */
  predicate EndsAsSent(s: Option<Series>, data: bytes) {
    && s.Some? && s.value.expectedRemaining == 1 && s.value.pendingPid == Some(PID_SEGMENTED)
    && data != [] && data[0] == 0 && Flat(s.value.accumulated) == [0]
  }

  /**
   * A payload sent unsegmented is delivered as it is exactly when its PID is not the segment PID, or it happens to be
   * the last segment of a series whose payload is that very segment.
   */
  lemma UnsegmentedIff(s: Option<Series>, inner: bool, data: bytes, pid: byte)
    ensures Indicated(s, inner, Indication(data, pid)).1 == Some(Indication(data, pid)) <==>
              pid != 0x08 || EndsAsSent(s, data)
  {
    if pid == PID_SEGMENTED && |data| >= 1 {
      if data[0] >= FIRST_BIT {
        FirstIsShorter(OrElse(s, FRESH), inner, data);
      } else if data[0] == 0 {
        LastIs(OrElse(s, FRESH), inner, data);
      }
    }
  }

  /** What a first segment delivers is shorter than itself. */
  lemma FirstIsShorter(s: Series, inner: bool, data: bytes)
    requires data != [] && data[0] >= FIRST_BIT
    ensures var r := Pushed(s, inner, data).1; r.Done? ==> |r.payload| < |data|
  {
    if |data| >= 2 {
      FlatAppend([], FirstData(data, inner));
    } else {
      FlatAppend([], data[1..]);
    }
  }

  /** What a last segment delivers is the segment itself exactly when the series held one octet 0. */
  lemma LastIs(s: Series, inner: bool, data: bytes)
    requires data != [] && data[0] == 0
    ensures var (s', r) := Pushed(s, inner, data);
            if s.expectedRemaining != 1 then r == Bad
            else r.Done? && s'.lastRecoveredPid == s.pendingPid && (r.payload == data <==> Flat(s.accumulated) == [0])
  {
    var before := Flat(s.accumulated);
    FlatAppend(s.accumulated, data[1..]);
    assert data == [data[0]] + data[1..];
    if before + data[1..] == data {
      assert |before| == 1;
      assert before[0] == (before + data[1..])[0] == 0;
      assert before == [0];
    }
  }

  /** Such a series exists: a first segment for PID 8 with the octet 0, and the segment that ends it with itself. */
  lemma SelfEndingSeries()
    ensures var first: bytes := [0x81, 0x08, 0];
            var s := Indicated(None, true, Indication(first, 0x08));
            s.1.None? && Indicated(s.0, true, Indication([0, 0x41], 0x08)).1 == Some(Indication([0, 0x41], 0x08))
  {
    var first: bytes := [0x81, PID_SEGMENTED, 0];
    var s := Indicated(None, true, Indication(first, PID_SEGMENTED)).0;
    assert first[2..] == [0];
    FlatAppend([], first[2..]);
    UnsegmentedIff(s, true, [0, 0x41], PID_SEGMENTED);
  }

  /** A segment that does not fit ends the series it came in: none but a first segment starts another. */
  lemma BadEndsSeries(s: Option<Series>, inner: bool, info: bytes)
    requires Pushed(OrElse(s, FRESH), inner, info).1.Bad?
    ensures Indicated(s, inner, Indication(info, 0x08)) == (None, None)
    ensures forall next: bytes :: next == [] || next[0] < 0x80 ==>
              Indicated(None, inner, Indication(next, 0x08)) == (None, None)
  {
  }

  // ---- Octets ----------------------------------------------------------------------------------------------

  /**
   * A segment begins with the number of segments still to come, and 0x80 on the first; the first then has the PID if
   * the format carries it. 128 segments are the most.
   */
  lemma SegmentHeaders(payload: bytes, n1: nat, innerPid: Option<byte>, i: nat)
    requires Segments(payload, n1, innerPid).Some? && i < |Segments(payload, n1, innerPid).value|
    ensures var segments := Segments(payload, n1, innerPid).value;
            && |segments| <= 128 && segments[i] != []
            && segments[i][0] as int == (if i == 0 then 0x80 else 0) + |segments| - 1 - i
            && (i < |segments| - 1 ==> |segments[i]| == n1)
            && (i > 0 ==> |segments[i]| >= 2)
            && (innerPid.Some? ==> |segments[0]| >= 2 && segments[0][1] == innerPid.value)
  {
    var stream, count := Stream(payload, innerPid), |Segments(payload, n1, innerPid).value|;
    SegmentsShape(payload, n1, innerPid, i);
    SegmentsShape(payload, n1, innerPid, 0);
    CountIsExact(|stream|, n1 - 1);
    if i < count - 1 {
      OffsetGrows(i + 1, count - 1, n1 - 1);
    }
    if innerPid.Some? {
      FirstPiece(payload, n1 - 1, innerPid, count);
    }
  }
}
