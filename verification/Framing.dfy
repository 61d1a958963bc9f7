/** The wire format and its parser: one type byte, a big-endian 16-bit payload size, the payload. */
module Framing {

  type u8 = x: int | 0 <= x < 256

  const HEADER_SIZE: nat := 3
  const MAX_PAYLOAD_SIZE: nat := 244
  const MAX_PAYLOAD_SIZE_BUFFER: nat := 46
  const READ_SIZE: nat := 65535
  const BATCH_SIZE: nat := 65536

  datatype Frame = Frame(kind: u8, payload: seq<u8>)

  function ReadU16(hi: u8, lo: u8): (n: nat)
    ensures n <= 65535
  {
    hi * 256 + lo
  }

  /** Frames small enough for the queues from and to the engine. */
  predicate Buffered(f: Frame) {
    |f.payload| <= MAX_PAYLOAD_SIZE_BUFFER
  }

  function Pushes(fs: seq<Frame>): nat {
    if fs == [] then 0 else (if Buffered(fs[0]) then 1 else 0) + Pushes(fs[1..])
  }

  /** Why parsing stopped: more bytes needed, payload too large, or the queue refused a frame. */
  datatype Stop = Waiting | Violation | Overflow

  datatype Parsed = Parsed(frames: seq<Frame>, rest: seq<u8>, stop: Stop)

  predicate Complete(bytes: seq<u8>) {
    |bytes| >= HEADER_SIZE && |bytes| >= HEADER_SIZE + ReadU16(bytes[1], bytes[2])
  }

  function FrameSize(bytes: seq<u8>): (n: nat)
    requires Complete(bytes)
    ensures HEADER_SIZE <= n <= |bytes|
  {
    HEADER_SIZE + ReadU16(bytes[1], bytes[2])
  }

  function FirstFrame(bytes: seq<u8>): Frame
    requires Complete(bytes)
  {
    Frame(bytes[0], bytes[HEADER_SIZE..FrameSize(bytes)])
  }

  /** The parse loop over a whole byte sequence, when the queue accepts `room` more pushes. */
  function Parse(bytes: seq<u8>, room: nat): (p: Parsed)
    ensures |p.rest| <= |bytes|
    ensures p.stop.Waiting? ==> |p.rest| <= 65537 && !Complete(p.rest)
    decreases |bytes|
  {
    if !Complete(bytes) then Parsed([], bytes, Waiting)
    else
      var f := FirstFrame(bytes);
      if |f.payload| > MAX_PAYLOAD_SIZE then Parsed([], bytes, Violation)
      else if Buffered(f) && room == 0 then Parsed([], bytes, Overflow)
      else
        var p := Parse(bytes[FrameSize(bytes)..], if Buffered(f) then room - 1 else room);
        Parsed([f] + p.frames, p.rest, p.stop)
  }

  lemma {:induction false} ParsePushes(bytes: seq<u8>, room: nat)
    ensures Pushes(Parse(bytes, room).frames) <= room
    decreases |bytes|
  {
    if Complete(bytes) {
      var f := FirstFrame(bytes);
      if |f.payload| <= MAX_PAYLOAD_SIZE && !(Buffered(f) && room == 0) {
        var more := if Buffered(f) then room - 1 else room;
        ParsePushes(bytes[FrameSize(bytes)..], more);
        assert ([f] + Parse(bytes[FrameSize(bytes)..], more).frames)[1..] ==
            Parse(bytes[FrameSize(bytes)..], more).frames;
      }
    }
  }

  lemma CompletePrefix(a: seq<u8>, b: seq<u8>)
    requires Complete(a)
    ensures Complete(a + b) && FirstFrame(a + b) == FirstFrame(a) && FrameSize(a + b) == FrameSize(a)
    ensures (a + b)[FrameSize(a)..] == a[FrameSize(a)..] + b
  {
  }

  /** What parsing more does after parsing stopped at p. */
  function Resumed(p: Parsed, b: seq<u8>, room: nat): Parsed
    requires Pushes(p.frames) <= room
  {
    if p.stop.Waiting? then
      var q := Parse(p.rest + b, room - Pushes(p.frames));
      Parsed(p.frames + q.frames, q.rest, q.stop)
    else Parsed(p.frames, p.rest + b, p.stop)
  }

  predicate Accepted(f: Frame, room: nat) {
    |f.payload| <= MAX_PAYLOAD_SIZE && !(Buffered(f) && room == 0)
  }

  function After(f: Frame, p: Parsed): Parsed {
    Parsed([f] + p.frames, p.rest, p.stop)
  }

  lemma ParseStep(bytes: seq<u8>, room: nat)
    requires Complete(bytes) && Accepted(FirstFrame(bytes), room)
    ensures var f := FirstFrame(bytes);
            Parse(bytes, room) == After(f, Parse(bytes[FrameSize(bytes)..], if Buffered(f) then room - 1 else room))
  {
  }

  lemma ResumedAfter(f: Frame, p: Parsed, b: seq<u8>, room: nat)
    requires Accepted(f, room) && Pushes(p.frames) <= (if Buffered(f) then room - 1 else room)
    ensures Pushes(After(f, p).frames) <= room
    ensures Resumed(After(f, p), b, room) == After(f, Resumed(p, b, if Buffered(f) then room - 1 else room))
  {
    hide Parse;
    assert ([f] + p.frames)[1..] == p.frames;
    if p.stop.Waiting? {
      var q := Parse(p.rest + b, room - Pushes(After(f, p).frames));
      assert [f] + (p.frames + q.frames) == ([f] + p.frames) + q.frames;
    }
  }

  lemma ParseEnd(bytes: seq<u8>, room: nat)
    requires !Complete(bytes) || !Accepted(FirstFrame(bytes), room)
    ensures Parse(bytes, room) == Parsed([], bytes, if !Complete(bytes) then Waiting
                                                    else if |FirstFrame(bytes).payload| > MAX_PAYLOAD_SIZE
                                                        then Violation
                                                    else Overflow)
  {
  }

  lemma ParseStopped(a: seq<u8>, b: seq<u8>, room: nat)
    requires !Complete(a) || !Accepted(FirstFrame(a), room)
    ensures Parse(a, room).frames == []
    ensures Parse(a + b, room) == Resumed(Parse(a, room), b, room)
  {
    hide Parse, Complete, FirstFrame, FrameSize;
    ParseEnd(a, room);
    if Complete(a) {
      CompletePrefix(a, b);
      ParseEnd(a + b, room);
    } else {
      var q := Parse(a + b, room);
      assert [] + q.frames == q.frames;
    }
  }

  /** What parsing a prefix leaves behind: if it waits for more, parsing goes on from the leftover;
      if it stopped, nothing that follows changes what was delivered or why it stopped. */
  lemma {:induction false} ParsePrefix(a: seq<u8>, b: seq<u8>, room: nat)
    ensures Pushes(Parse(a, room).frames) <= room
    ensures Parse(a + b, room) == Resumed(Parse(a, room), b, room)
    decreases |a|
  {
    hide Parse, Resumed, Complete;
    ParsePushes(a, room);
    if Complete(a) && Accepted(FirstFrame(a), room) {
      CompletePrefix(a, b);
      var f, tail := FirstFrame(a), a[FrameSize(a)..];
      var more := if Buffered(f) then room - 1 else room;
      ParseStep(a, room);
      ParseStep(a + b, room);
      ParsePrefix(tail, b, more);
      ResumedAfter(f, Parse(tail, more), b, room);
    } else {
      ParseStopped(a, b, room);
    }
  }

  // ----- Reads -----

  /** The receiving side of a connection between reads. */
  datatype Inbound = Inbound(accum: seq<u8>, delivered: seq<Frame>, room: nat, stop: Stop)

  /** One completed read. After a stop the connection is closed and nothing more is parsed. */
  function Read(c: Inbound, chunk: seq<u8>): Inbound {
    if !c.stop.Waiting? then c
    else
      var p := Parse(c.accum + chunk, c.room);
      ParsePushes(c.accum + chunk, c.room);
      Inbound(p.rest, c.delivered + p.frames, c.room - Pushes(p.frames), p.stop)
  }

  function ReadAll(c: Inbound, chunks: seq<seq<u8>>): Inbound
    decreases |chunks|
  {
    if chunks == [] then c else ReadAll(Read(c, chunks[0]), chunks[1..])
  }

  function Joined(chunks: seq<seq<u8>>): seq<u8> {
    if chunks == [] then [] else chunks[0] + Joined(chunks[1..])
  }

  lemma ReadWait(c: Inbound)
    requires c.stop.Waiting? && !Complete(c.accum)
    ensures Read(c, []) == c
  {
  }

  lemma ReadTwice(c: Inbound, a: seq<u8>, b: seq<u8>)
    ensures var one, two := Read(c, a + b), Read(Read(c, a), b);
            && one.delivered == two.delivered && one.room == two.room && one.stop == two.stop
            && (one.stop.Waiting? ==> one == two)
  {
    hide Parse;
    if c.stop.Waiting? {
      assert c.accum + (a + b) == (c.accum + a) + b;
      ParsePrefix(c.accum + a, b, c.room);
      var p := Parse(c.accum + a, c.room);
      if p.stop.Waiting? {
        var q := Parse(p.rest + b, c.room - Pushes(p.frames));
        PushesConcat(p.frames, q.frames);
        assert c.delivered + (p.frames + q.frames) == (c.delivered + p.frames) + q.frames;
      }
    }
  }

  lemma {:induction false} PushesConcat(a: seq<Frame>, b: seq<Frame>)
    ensures Pushes(a + b) == Pushes(a) + Pushes(b)
  {
    if a == [] {
      assert a + b == b;
    } else {
      assert (a + b)[1..] == a[1..] + b;
      PushesConcat(a[1..], b);
    }
  }

  /** However the byte stream is split into reads, what is delivered and why parsing stopped is what
      parsing the whole stream at once gives; while the connection is open, so is the leftover. */
  lemma {:induction false} SplitInvariance(c: Inbound, chunks: seq<seq<u8>>)
    requires c.stop.Waiting? ==> !Complete(c.accum)
    ensures var one, many := Read(c, Joined(chunks)), ReadAll(c, chunks);
            && one.delivered == many.delivered && one.room == many.room && one.stop == many.stop
            && (one.stop.Waiting? ==> one == many)
    decreases |chunks|
  {
    if chunks == [] {
      if c.stop.Waiting? {
        ReadWait(c);
      }
    } else {
      SplitInvariance(Read(c, chunks[0]), chunks[1..]);
      ReadTwice(c, chunks[0], Joined(chunks[1..]));
    }
  }

  // ----- Encoding -----

  function HighByte(n: nat): u8 {
    n / 256 % 256
  }

  function LowByte(n: nat): u8 {
    n % 256
  }

  function Encode(f: Frame): (bytes: seq<u8>)
    requires Buffered(f)
    ensures |bytes| == HEADER_SIZE + |f.payload|
  {
    [f.kind, HighByte(|f.payload|), LowByte(|f.payload|)] + f.payload
  }

  predicate AllBuffered(fs: seq<Frame>) {
    forall i :: 0 <= i < |fs| ==> Buffered(fs[i])
  }

  function EncodeAll(fs: seq<Frame>): seq<u8>
    requires AllBuffered(fs)
  {
    if fs == [] then [] else Encode(fs[0]) + EncodeAll(fs[1..])
  }

  lemma {:induction false} EncodeConcat(a: seq<Frame>, b: seq<Frame>)
    requires AllBuffered(a) && AllBuffered(b)
    ensures AllBuffered(a + b) && EncodeAll(a + b) == EncodeAll(a) + EncodeAll(b)
  {
    if a == [] {
      assert a + b == b;
    } else {
      assert (a + b)[1..] == a[1..] + b;
      EncodeConcat(a[1..], b);
      assert Encode(a[0]) + (EncodeAll(a[1..]) + EncodeAll(b)) == (Encode(a[0]) + EncodeAll(a[1..])) + EncodeAll(b);
    }
  }

  lemma EncodeFirst(f: Frame, tail: seq<u8>)
    requires Buffered(f)
    ensures var bytes := Encode(f) + tail;
            Complete(bytes) && FirstFrame(bytes) == f && bytes[FrameSize(bytes)..] == tail
  {
  }

  /** The bytes of a frame with any announced size. */
  function Announced(kind: u8, size: nat, payload: seq<u8>): seq<u8>
    requires size <= 65535
  {
    [kind, size / 256, size % 256] + payload
  }

  lemma HeaderRead(kind: u8, size: nat, payload: seq<u8>)
    requires size <= 65535
    ensures Complete(Announced(kind, size, payload)) <==> size <= |payload|
    ensures size <= |payload| ==>
              && FirstFrame(Announced(kind, size, payload)) == Frame(kind, payload[..size])
              && FrameSize(Announced(kind, size, payload)) == 3 + size
              && Announced(kind, size, payload)[3 + size..] == payload[size..]
  {
  }

  /** A header is parsed as the size it announces, whatever that is: too few bytes wait, a size above
      244 is a violation, a size up to 46 needs room in the queue, and the others are delivered. */
  lemma HeaderParsed(kind: u8, size: nat, payload: seq<u8>, room: nat)
    requires size <= 65535
    ensures var bytes := Announced(kind, size, payload);
            if |payload| < size then Parse(bytes, room) == Parsed([], bytes, Waiting)
            else if size > 244 then Parse(bytes, room) == Parsed([], bytes, Violation)
            else if size <= 46 && room == 0 then Parse(bytes, room) == Parsed([], bytes, Overflow)
            else
              var p := Parse(payload[size..], if size <= 46 then room - 1 else room);
              Parse(bytes, room) == Parsed([Frame(kind, payload[..size])] + p.frames, p.rest, p.stop)
  {
    hide Parse, Complete, FirstFrame, FrameSize, Announced;
    var bytes := Announced(kind, size, payload);
    HeaderRead(kind, size, payload);
    if |payload| < size || size > 244 || (size <= 46 && room == 0) {
      ParseEnd(bytes, room);
    } else {
      ParseStep(bytes, room);
    }
  }

  /** Without a whole header nothing is parsed. */
  lemma NoHeader(bytes: seq<u8>, room: nat)
    requires |bytes| < 3
    ensures Parse(bytes, room) == Parsed([], bytes, Waiting)
  {
  }

  lemma ParseNothing(room: nat)
    ensures Parse([], room) == Parsed([], [], Waiting)
  {
  }

  /** Parsing an encoding gives back the frames, in order, with nothing left over. */
  lemma {:induction false} ParseEncode(fs: seq<Frame>, room: nat)
    requires AllBuffered(fs) && |fs| <= room
    ensures Parse(EncodeAll(fs), room) == Parsed(fs, [], Waiting)
  {
    hide Parse, Complete, FirstFrame, FrameSize, Encode;
    if fs == [] {
      ParseNothing(room);
    } else {
      EncodeFirst(fs[0], EncodeAll(fs[1..]));
      ParseEncode(fs[1..], room - 1);
      ParseStep(EncodeAll(fs), room);
    }
  }

  /** Whatever reads the encoding of messages arrives in, the receiver delivers those messages. */
  lemma RoundTrip(fs: seq<Frame>, chunks: seq<seq<u8>>, room: nat)
    requires AllBuffered(fs) && |fs| <= room && Joined(chunks) == EncodeAll(fs)
    ensures var c := ReadAll(Inbound([], [], room, Waiting), chunks);
            c.delivered == fs && c.accum == [] && c.stop == Waiting
  {
    var c := Inbound([], [], room, Waiting);
    SplitInvariance(c, chunks);
    ParseEncode(fs, room);
    assert [] + EncodeAll(fs) == EncodeAll(fs);
    assert [] + fs == fs;
  }
}
