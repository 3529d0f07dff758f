/** KISS framing of a serial stream: the encoder, the streaming decoder, and what the decoder makes of any stream. */
module Kiss {
  import opened Common

  const FEND: byte := 0xc0
  const FESC: byte := 0xdb
  const TFEND: byte := 0xdc
  const TFESC: byte := 0xdd

  const FLAG: bytes := [FEND]

  datatype Frame = Frame(port: nat, command: nat, payload: bytes)

  // ---- Encoder ---------------------------------------------------------------------------------------------

  function Escaped(b: byte): (r: bytes)
    ensures 1 <= |r| <= 2
  {
    if b == FEND then [FESC, TFEND] else if b == FESC then [FESC, TFESC] else [b]
  }

  function EscapedAll(s: bytes): (r: bytes)
    ensures |r| <= 2 * |s|
  {
    if s == [] then [] else EscapedAll(s[..|s| - 1]) + Escaped(s[|s| - 1])
  }

  function CommandByte(port: nat, command: int): byte
    requires port <= 15
  {
    port * 16 + command % 16
  }

  function Opening(content: bytes): bytes {
    FLAG + EscapedAll(content)
  }

  lemma EscapedAllGrows(content: bytes, b: byte)
    ensures EscapedAll(content + [b]) == EscapedAll(content) + Escaped(b)
  {
    assert (content + [b])[..|content|] == content;
  }

  lemma OpeningGrows(content: bytes, b: byte)
    ensures Opening(content + [b]) == Opening(content) + Escaped(b)
  {
    EscapedAllGrows(content, b);
  }

  /** The wire form of a frame, by its unescaped content. */
  function Wrapped(content: bytes): bytes {
    Opening(content) + FLAG
  }

  /** None where the original throws. */
  function Encoded(port: int, command: int, payload: bytes): Option<bytes> {
    if port < 0 || port > 15 then None else Some(Wrapped([CommandByte(port, command)] + payload))
  }

  /** Write one octet escaped at `offset`; the number of octets written. */
  method WriteEscaped(dst: array<byte>, offset: nat, b: byte) returns (n: nat)
    requires offset + 2 <= dst.Length
    modifies dst
    ensures n <= 2 && dst[..offset + n] == old(dst[..offset]) + Escaped(b)
  {
    if b == FEND {
      dst[offset] := FESC;
      dst[offset + 1] := TFEND;
      return 2;
    }
    if b == FESC {
      dst[offset] := FESC;
      dst[offset + 1] := TFESC;
      return 2;
    }
    dst[offset] := b;
    return 1;
  }

  method EncodeKiss(port: int, command: int, payload: bytes) returns (r: Option<bytes>)
    ensures r == Encoded(port, command, payload)
  {
    if port < 0 || port > 15 {
      return None;
    }
    var content := [CommandByte(port, command)] + payload;
    var wire := Wrap(content);
    r := Some(wire);
  }

  /** Fill a buffer with the delimited, escaped content. */
  method Wrap(content: bytes) returns (wire: bytes)
    ensures wire == Wrapped(content)
  {
    var buf := new byte[2 + 2 * |content|];
    buf[0] := FEND;
    var i: nat := 1;
    assert buf[..1] == Opening([]);
    for j := 0 to |content|
      invariant 1 <= i <= 1 + 2 * j && buf[..i] == Opening(content[..j])
    {
      var n := WriteEscaped(buf, i, content[j]);
      i := i + n;
      assert content[..j + 1] == content[..j] + [content[j]];
      OpeningGrows(content[..j], content[j]);
    }
    assert content[..|content|] == content;
    buf[i] := FEND;
    assert buf[..i + 1] == buf[..i] + FLAG;
    wire := buf[..i + 1];
  }

  // ---- Decoder ---------------------------------------------------------------------------------------------

  datatype State = State(current: bytes, inEscape: bool)

  const FRESH := State([], false)

  function Finished(current: bytes): Frame
    requires current != []
  {
    Frame(current[0] / 16, current[0] % 16, current[1..])
  }

  /** The state after one octet; a malformed escape is dropped. */
  function Taken(s: State, b: byte): State {
    if s.inEscape then
      State(s.current + (if b == TFEND then [FEND] else if b == TFESC then [FESC] else []), false)
    else if b == FEND then State([], false)
    else if b == FESC then s.(inEscape := true)
    else s.(current := s.current + [b])
  }

  /** The frame one octet completes, if any. */
  function Completed(s: State, b: byte): seq<Frame> {
    if !s.inEscape && b == FEND && s.current != [] then [Finished(s.current)] else []
  }

  function After(s: State, stream: bytes): State {
    if stream == [] then s else Taken(After(s, stream[..|stream| - 1]), stream[|stream| - 1])
  }

  function Frames(s: State, stream: bytes): seq<Frame> {
    if stream == [] then []
    else
      var init := stream[..|stream| - 1];
      Frames(s, init) + Completed(After(s, init), stream[|stream| - 1])
  }

  class KissDecoder {
    var current: bytes
    var inEscape: bool

    constructor ()
      ensures Value() == FRESH
    {
      current, inEscape := [], false;
    }

    function Value(): State
      reads this
    {
      State(current, inEscape)
    }

    method PushChunk(chunk: bytes) returns (out: seq<Frame>)
      modifies this
      ensures out == Frames(old(Value()), chunk) && Value() == After(old(Value()), chunk)
    {
      out := [];
      for i := 0 to |chunk|
        invariant out == Frames(old(Value()), chunk[..i]) && Value() == After(old(Value()), chunk[..i])
      {
        var done := Take(chunk[i]);
        out := out + done;
        assert chunk[..i + 1][..i] == chunk[..i];
      }
      assert chunk[..|chunk|] == chunk;
    }

    /** The body of that loop. */
    method Take(b: byte) returns (done: seq<Frame>)
      modifies this
      ensures done == Completed(old(Value()), b) && Value() == Taken(old(Value()), b)
    {
      done := [];
      if inEscape {
        inEscape := false;
        if b == TFEND {
          current := current + [FEND];
        } else if b == TFESC {
          current := current + [FESC];
        }
        return;
      }
      if b == FEND {
        if |current| > 0 {
          done := [Finished(current)];
          current := [];
        }
      } else if b == FESC {
        inEscape := true;
      } else {
        current := current + [b];
      }
    }

    method Reset()
      modifies this
      ensures Value() == FRESH
    {
      current, inEscape := [], false;
    }
  }

  // ---- Chunking --------------------------------------------------------------------------------------------

  /** How a stream is cut into chunks makes no difference. */
  lemma {:induction false} ChunksDoNotMatter(s: State, a: bytes, b: bytes)
    ensures After(s, a + b) == After(After(s, a), b)
    ensures Frames(s, a + b) == Frames(s, a) + Frames(After(s, a), b)
  {
    if b == [] {
      assert a + b == a;
    } else {
      var init := b[..|b| - 1];
      assert (a + b)[..|a + b| - 1] == a + init && (a + b)[|a + b| - 1] == b[|b| - 1];
      ChunksDoNotMatter(s, a, init);
    }
  }

  // ---- Round trip ------------------------------------------------------------------------------------------

  /** `stream` takes the decoder from `s` to `s'` and completes `frames`. */
  predicate Does(s: State, stream: bytes, s': State, frames: seq<Frame>) {
    After(s, stream) == s' && Frames(s, stream) == frames
  }

  lemma Then(s: State, a: bytes, s1: State, f1: seq<Frame>, b: bytes, s2: State, f2: seq<Frame>)
    requires Does(s, a, s1, f1) && Does(s1, b, s2, f2)
    ensures Does(s, a + b, s2, f1 + f2)
  {
    ChunksDoNotMatter(s, a, b);
  }

  lemma Around(s: State, a: bytes, s1: State, f1: seq<Frame>, b: bytes, s2: State, c: bytes, s3: State, f3: seq<Frame>)
    requires Does(s, a, s1, f1) && Does(s1, b, s2, []) && Does(s2, c, s3, f3)
    ensures Does(s, a + b + c, s3, f1 + f3)
  {
    Then(s, a, s1, f1, b, s2, []);
    Then(s, a + b, s2, f1 + [], c, s3, f3);
    assert f1 + [] == f1;
  }

  lemma OneOctet(s: State, b: byte)
    ensures Does(s, [b], Taken(s, b), Completed(s, b))
  {
    var one: bytes := [b];
    assert one[..0] == [];
    assert After(s, []) == s;
  }

  lemma TwoOctets(s: State, a: byte, b: byte)
    ensures Does(s, [a, b], Taken(Taken(s, a), b), Completed(s, a) + Completed(Taken(s, a), b))
  {
    OneOctet(s, a);
    OneOctet(Taken(s, a), b);
    Then(s, [a], Taken(s, a), Completed(s, a), [b], Taken(Taken(s, a), b), Completed(Taken(s, a), b));
    assert [a] + [b] == [a, b];
  }

  lemma EscapedOctet(s: State, b: byte)
    requires !s.inEscape
    ensures Does(s, Escaped(b), Collected(s, [b]), [])
  {
    if b == FEND {
      TwoOctets(s, FESC, TFEND);
    } else if b == FESC {
      TwoOctets(s, FESC, TFESC);
    } else {
      OneOctet(s, b);
    }
  }

  /** An empty stream changes nothing. */
  lemma Nothing(s: State)
    ensures Does(s, [], s, [])
  {
  }

  /** `s` with more content collected. */
  function Collected(s: State, content: bytes): State {
    s.(current := s.current + content)
  }

  /** Escaped content is collected as it was and completes nothing. */
  lemma {:induction false} EscapedContent(s: State, content: bytes)
    requires !s.inEscape
    ensures Does(s, EscapedAll(content), Collected(s, content), [])
  {
    if content == [] {
      EscapedNothing(s);
    } else {
      var init, last := content[..|content| - 1], content[|content| - 1];
      assert content == init + [last];
      EscapedContent(s, init);
      EscapedOneMore(s, init, last);
    }
  }

  lemma EscapedNothing(s: State)
    ensures Does(s, EscapedAll([]), Collected(s, []), [])
  {
    Nothing(s);
    assert s.current + [] == s.current;
  }

  lemma EscapedOneMore(s: State, init: bytes, last: byte)
    requires !s.inEscape && Does(s, EscapedAll(init), Collected(s, init), [])
    ensures Does(s, EscapedAll(init + [last]), Collected(s, init + [last]), [])
  {
    EscapedOctet(Collected(s, init), last);
    CollectedTwice(s, init, [last]);
    EscapedAllGrows(init, last);
    Then(s, EscapedAll(init), Collected(s, init), [], Escaped(last), Collected(s, init + [last]), []);
  }

  lemma CollectedTwice(s: State, a: bytes, b: bytes)
    ensures Collected(Collected(s, a), b) == Collected(s, a + b)
  {
    assert (s.current + a) + b == s.current + (a + b);
  }

  /** The frames the content of one wire frame completes from any state; a mid-escape state swallows its opening. */
  function Yields(s: State, content: bytes): seq<Frame>
    requires content != []
  {
    if s.inEscape then [Finished(s.current + content)]
    else (if s.current != [] then [Finished(s.current)] else []) + [Finished(content)]
  }

  lemma YieldsByDelimiters(s: State, content: bytes)
    requires content != []
    ensures Yields(s, content) == Completed(s, FEND) + [Finished(Taken(s, FEND).current + content)]
  {
    if s.inEscape {
      assert s.current + [] == s.current;
    } else {
      assert Taken(s, FEND).current + content == content;
    }
  }

  lemma OneFrame(s: State, content: bytes)
    requires content != []
    ensures Does(s, Wrapped(content), FRESH, Yields(s, content))
  {
    var mid := Taken(s, FEND);
    var full := Collected(mid, content);
    OneOctet(s, FEND);
    EscapedContent(mid, content);
    OneOctet(full, FEND);
    assert |full.current| > 0;
    Around(s, FLAG, mid, Completed(s, FEND), EscapedAll(content), full, FLAG, FRESH, [Finished(full.current)]);
    YieldsByDelimiters(s, content);
  }

  function WrappedAll(contents: seq<bytes>): bytes {
    if contents == [] then [] else WrappedAll(contents[..|contents| - 1]) + Wrapped(contents[|contents| - 1])
  }

  function FinishedAll(contents: seq<bytes>): (frames: seq<Frame>)
    requires forall i :: 0 <= i < |contents| ==> contents[i] != []
    ensures |frames| == |contents| && forall i :: 0 <= i < |frames| ==> frames[i] == Finished(contents[i])
  {
    seq<Frame>(|contents|, i requires 0 <= i < |contents| => Finished(contents[i]))
  }

  /** What a run of frames completes from any state. */
  function YieldsAll(s: State, contents: seq<bytes>): seq<Frame>
    requires contents != [] && forall i :: 0 <= i < |contents| ==> contents[i] != []
  {
    Yields(s, contents[0]) + FinishedAll(contents[1..])
  }

  lemma OneMore(s: State, init: seq<bytes>, s1: State, f1: seq<Frame>, last: bytes)
    requires Does(s, WrappedAll(init), s1, f1) && last != []
    ensures Does(s, WrappedAll(init + [last]), FRESH, f1 + Yields(s1, last))
  {
    OneFrame(s1, last);
    assert (init + [last])[..|init|] == init;
    Then(s, WrappedAll(init), s1, f1, Wrapped(last), FRESH, Yields(s1, last));
  }

  lemma YieldsOneMore(s: State, init: seq<bytes>, last: bytes)
    requires init != [] && last != [] && forall i :: 0 <= i < |init| ==> init[i] != []
    ensures YieldsAll(s, init + [last]) == YieldsAll(s, init) + Yields(FRESH, last)
  {
    assert (init + [last])[1..] == init[1..] + [last];
    assert FinishedAll(init[1..] + [last]) == FinishedAll(init[1..]) + [Finished(last)];
  }

  /**
   * Any run of frames comes out complete and in order from a decoder between frames. One that was inside a frame adds
   * that frame in front; one that was inside an escape also runs it together with the first.
   */
  lemma {:induction false} KissRoundTrip(s: State, contents: seq<bytes>)
    requires contents != [] && forall i :: 0 <= i < |contents| ==> contents[i] != []
    ensures After(s, WrappedAll(contents)) == FRESH
    ensures Frames(s, WrappedAll(contents)) == YieldsAll(s, contents)
  {
    var init, last := contents[..|contents| - 1], contents[|contents| - 1];
    assert contents == init + [last];
    if init == [] {
      Nothing(s);
      OneMore(s, init, s, [], last);
      assert [] + Yields(s, last) == YieldsAll(s, contents);
    } else {
      KissRoundTrip(s, init);
      OneMore(s, init, FRESH, YieldsAll(s, init), last);
      YieldsOneMore(s, init, last);
    }
  }

  /** A frame reads back as the port, low command nibble and payload it was encoded from. */
  lemma ContentRoundTrip(port: int, command: int, payload: bytes)
    requires Encoded(port, command, payload).Some?
    ensures Encoded(port, command, payload).value == Wrapped([CommandByte(port, command)] + payload)
    ensures Finished([CommandByte(port, command)] + payload) == Frame(port, command % 16, payload)
  {
    assert ([CommandByte(port, command)] + payload)[1..] == payload;
  }

  /** What the encoder makes of a run of frames, one after the other; None when one of the ports is out of range. */
  function EncodedAll(frames: seq<Frame>): Option<bytes> {
    if frames == [] then Some([])
    else
      var last := frames[|frames| - 1];
      var before, wire := EncodedAll(frames[..|frames| - 1]), Encoded(last.port, last.command, last.payload);
      if before.None? || wire.None? then None else Some(before.value + wire.value)
  }

  predicate PortsFit(frames: seq<Frame>) {
    forall i :: 0 <= i < |frames| ==> frames[i].port <= 15
  }

  function Contents(frames: seq<Frame>): (contents: seq<bytes>)
    requires PortsFit(frames)
    ensures |contents| == |frames|
    ensures forall i :: 0 <= i < |contents| ==> contents[i] == Content(frames[i])
  {
    seq<bytes>(|frames|, i requires 0 <= i < |frames| => Content(frames[i]))
  }

  /** What the wire frame wraps. */
  function Content(f: Frame): (content: bytes)
    requires f.port <= 15
    ensures content != []
  {
    [CommandByte(f.port, f.command)] + f.payload
  }

  lemma {:induction false} EncodedIff(frames: seq<Frame>)
    ensures EncodedAll(frames).Some? <==> PortsFit(frames)
  {
    if frames != [] {
      var init := frames[..|frames| - 1];
      EncodedIff(init);
      assert PortsFit(frames) <==> PortsFit(init) && frames[|init|].port <= 15;
    }
  }

  lemma {:induction false} EncodedIsWrapped(frames: seq<Frame>)
    requires PortsFit(frames)
    ensures EncodedAll(frames) == Some(WrappedAll(Contents(frames)))
  {
    if frames != [] {
      EncodedIsWrapped(frames[..|frames| - 1]);
      ContentsOneMore(frames);
    }
  }

  lemma ContentsOneMore(frames: seq<Frame>)
    requires frames != [] && PortsFit(frames)
    ensures WrappedAll(Contents(frames)) ==
              WrappedAll(Contents(frames[..|frames| - 1])) + Wrapped(Content(frames[|frames| - 1]))
  {
    assert Contents(frames)[..|frames| - 1] == Contents(frames[..|frames| - 1]);
  }

  /** Each frame as it can come back: with the low nibble of its command. */
  function Nibbled(frames: seq<Frame>): (r: seq<Frame>)
    ensures |r| == |frames|
    ensures forall i :: 0 <= i < |r| ==> r[i] == Frame(frames[i].port, frames[i].command % 16, frames[i].payload)
  {
    seq<Frame>(|frames|, i requires 0 <= i < |frames| =>
      Frame(frames[i].port, frames[i].command % 16, frames[i].payload))
  }

  /**
   * End to end: a fresh decoder given the encodings of any frames, cut in two anywhere, returns exactly those frames
   * with their port, command nibble and payload, and is fresh again.
   */
  lemma EncodedComesBack(frames: seq<Frame>, a: bytes, b: bytes)
    requires EncodedAll(frames) == Some(a + b)
    ensures Frames(FRESH, a) + Frames(After(FRESH, a), b) == Nibbled(frames)
    ensures After(After(FRESH, a), b) == FRESH
  {
    EncodedIff(frames);
    EncodedIsWrapped(frames);
    ChunksDoNotMatter(FRESH, a, b);
    WholeStream(frames);
  }

  lemma WholeStream(frames: seq<Frame>)
    requires PortsFit(frames)
    ensures Does(FRESH, WrappedAll(Contents(frames)), FRESH, Nibbled(frames))
  {
    var contents := Contents(frames);
    FinishedContents(frames);
    if frames == [] {
      Nothing(FRESH);
    } else {
      KissRoundTrip(FRESH, contents);
      FinishedSplit(contents);
    }
  }

  lemma FinishedSplit(contents: seq<bytes>)
    requires contents != [] && forall i :: 0 <= i < |contents| ==> contents[i] != []
    ensures YieldsAll(FRESH, contents) == FinishedAll(contents)
  {
    assert contents == [contents[0]] + contents[1..];
  }

  lemma FinishedContents(frames: seq<Frame>)
    requires PortsFit(frames)
    ensures FinishedAll(Contents(frames)) == Nibbled(frames)
  {
    forall i | 0 <= i < |frames| ensures Finished(Contents(frames)[i]) == Nibbled(frames)[i] {
      ContentRoundTrip(frames[i].port, frames[i].command, frames[i].payload);
      assert Contents(frames)[i] == Content(frames[i]);
    }
  }

  // ---- Octets ----------------------------------------------------------------------------------------------

  /** Escaped content holds no delimiter. */
  lemma {:induction false} NoDelimiterInside(content: bytes, i: nat)
    requires i < |EscapedAll(content)|
    ensures EscapedAll(content)[i] != 0xc0
  {
    var init := content[..|content| - 1];
    if i < |EscapedAll(init)| {
      NoDelimiterInside(init, i);
    }
  }

  /** A frame on the wire: a delimiter, the port and command in one octet, the payload, a delimiter; none inside. */
  lemma FrameOnTheWire(port: nat, command: nat, payload: bytes, i: nat)
    requires port <= 15
    ensures var s := Encoded(port, command, payload);
            && s.Some? && |s.value| >= 3 && s.value[0] == 0xc0 && s.value[|s.value| - 1] == 0xc0
            && (0 < i < |s.value| - 1 ==> s.value[i] != 0xc0)
            && s.value == [0xc0] + EscapedAll([16 * port + command % 16] + payload) + [0xc0]
  {
    var content := [CommandByte(port, command)] + payload;
    NotEmpty(content);
    WrappedIs(content, i);
  }

  lemma WrappedIs(content: bytes, i: nat)
    ensures var s, inner := Wrapped(content), EscapedAll(content);
            && s == [0xc0] + inner + [0xc0] && |s| == |inner| + 2
            && (0 < i < |s| - 1 ==> s[i] != 0xc0)
  {
    var s, inner := Wrapped(content), EscapedAll(content);
    if 0 < i < |s| - 1 {
      assert s[i] == inner[i - 1];
      NoDelimiterInside(content, i - 1);
    }
  }

  lemma NotEmpty(content: bytes)
    requires content != []
    ensures EscapedAll(content) != []
  {
  }

  /** The escapes of the two special octets; all others stand for themselves. */
  lemma EscapesAre(b: byte)
    ensures EscapedAll([b]) == if b == 0xc0 then [0xdb, 0xdc] else if b == 0xdb then [0xdb, 0xdd] else [b]
  {
    var one: bytes := [b];
    assert one[..0] == [];
    assert EscapedAll([]) == [];
  }

  /** What the decoder makes of an octet behind an escape that is none, and of delimiters with nothing in between. */
  lemma OddOctets(s: State, b: byte)
    ensures s.inEscape && b != 0xdc && b != 0xdd ==> Taken(s, b) == State(s.current, false) && Completed(s, b) == []
    ensures !s.inEscape && s.current == [] ==> Taken(s, 0xc0) == s && Completed(s, 0xc0) == []
    ensures !s.inEscape && s.current != [] ==>
              Completed(s, 0xc0) == [Frame(s.current[0] / 16, s.current[0] % 16, s.current[1..])]
  {
  }
}
