/**
 * Framing: a fixed header and a payload, read back from a stream that delivers its bytes in arbitrary segments.
 */
module WireFrames {
  import opened Wrappers
  import opened ProtocolTypes
  import opened WireFormat
  import opened WireLayout
  import opened WireLimits
  import opened WireMessages

  const MAGIC: uint32 := 0x5941_5343
  const CURRENT_VERSION: uint8 := 3
  const HEADER_SIZE := 20
  const PAYLOAD_READ_CHUNK := 8192

  datatype Header = Header(version: uint8, type_: uint8, flags: uint16, correlationID: uint64, payloadLen: uint32)

  datatype Frame = Frame(header: Header, payload: Bytes)

  function HeaderBytes(h: Header): (b: Bytes)
    ensures |b| == HEADER_SIZE
  {
    BigEndian(MAGIC, 4) + [h.version] + [h.type_] + BigEndian(h.flags, 2) + BigEndian(h.correlationID, 8) +
    BigEndian(h.payloadLen, 4)
  }

  // A sender refuses what the receiver would refuse.
  method EncodeFrame(correlationID: uint64, m: Message, limits: Limits) returns (frame: Result<Bytes, WireFault>)
    ensures frame == EncodedFrame(correlationID, m, limits)
    ensures frame.Err? <==> |Wire(m)| > Applying(limits.maxFrameSize, 1_048_576)
    ensures frame.Err? ==> frame.error == FrameTooLarge
    ensures frame.Ok? ==> |Wire(m)| < TWO_TO_32 && frame.value == FrameOctets(correlationID, m)
  {
    FrameIs(correlationID, m, limits);
    hide HeaderBytes, Payload, TypeOf, Wire, FrameOctets;
    var payload := MarshalPayload(m);
    if |payload| > limits.Normalized().maxFrameSize {
      return Err(FrameTooLarge);
    }
    return Ok(HeaderBytes(Header(CURRENT_VERSION, TypeOf(m), 0, correlationID, |payload|)) + payload);
  }

  function EncodedFrame(correlationID: uint64, m: Message, limits: Limits): Result<Bytes, WireFault> {
    if |Payload(m)| > limits.Normalized().maxFrameSize then Err(FrameTooLarge)
    else Ok(HeaderBytes(Header(CURRENT_VERSION, TypeOf(m), 0, correlationID, |Payload(m)|)) + Payload(m))
  }

  // A frame, written out: the magic, the version, the type, no flags, the correlation, the length, the payload.
  ghost function FrameOctets(correlationID: uint64, m: Message): Bytes
    requires |Wire(m)| < TWO_TO_32
  {
    [0x59, 0x41, 0x53, 0x43] + [3, Code(m), 0, 0] + Eight(correlationID) + Four(|Wire(m)|) + Wire(m)
  }

  lemma FrameIs(correlationID: uint64, m: Message, limits: Limits)
    ensures TypeOf(m) == Code(m) && Payload(m) == Wire(m)
    ensures limits.Normalized().maxFrameSize == Applying(limits.maxFrameSize, 1_048_576)
    ensures |Wire(m)| < TWO_TO_32 ==>
              HeaderBytes(Header(CURRENT_VERSION, TypeOf(m), 0, correlationID, |Wire(m)|)) + Wire(m) ==
              FrameOctets(correlationID, m)
  {
    PayloadIsWire(m);
    hide Wire, Code, TypeOf, Payload, HeaderBytes, Eight, Four;
    if |Wire(m)| < TWO_TO_32 {
      HeaderOctets(TypeOf(m), correlationID, |Wire(m)|);
    }
  }

  lemma HeaderOctets(t: uint8, correlationID: uint64, length: uint32)
    ensures HeaderBytes(Header(CURRENT_VERSION, t, 0, correlationID, length)) ==
            [0x59, 0x41, 0x53, 0x43] + [3, t, 0, 0] + Eight(correlationID) + Four(length)
  {
    FourIs(MAGIC);
    TwoIs(0);
    EightIs(correlationID);
    FourIs(length);
    assert Four(MAGIC) == [0x59, 0x41, 0x53, 0x43] && Two(0) == [0, 0];
    hide BigEndian, Eight, Four, Two;
    assert [CURRENT_VERSION] + [t] + [0, 0] == [3, t, 0, 0];
  }

  ghost function ValueOf(octets: Bytes): nat
    requires |octets| == 4
  {
    octets[0] as int * 0x100_0000 + octets[1] as int * 0x1_0000 + octets[2] as int * 0x100 + octets[3]
  }

  // What is accepted as a header, and the fault of everything else.
  lemma HeaderDecided(buf: Bytes, limits: Limits)
    requires |buf| == HEADER_SIZE
    ensures |buf| == 20
    ensures var r := DecodeHeader(buf, limits.Normalized());
            if buf[..4] != [0x59, 0x41, 0x53, 0x43] then r == Err(BadMagic)
            else if buf[4] != 3 then r == Err(UnsupportedVersion)
            else if buf[6..8] != [0, 0] then r == Err(ReservedFlags)
            else if ValueOf(buf[16..20]) > Applying(limits.maxFrameSize, 1_048_576) then r == Err(FrameTooLarge)
            else
              && r.Ok? && r.value.version == 3 && r.value.type_ == buf[5] && r.value.flags == 0
              && Eight(r.value.correlationID) == buf[8..16] && r.value.payloadLen == ValueOf(buf[16..20])
  {
    Widths();
    NumbersFit(buf);
    HeaderNumbers(buf);
    hide Number, BigEndian, Four, Two, Eight;
  }

  // A number of some octets is known by its octets.
  lemma HeaderNumbers(buf: Bytes)
    requires |buf| == HEADER_SIZE
    ensures Number(buf[..4]) == MAGIC <==> buf[..4] == [0x59, 0x41, 0x53, 0x43]
    ensures Number(buf[6..8]) == 0 <==> buf[6..8] == [0, 0]
    ensures Number(buf[8..16]) < TWO_TO_64 && Eight(Number(buf[8..16])) == buf[8..16]
    ensures Number(buf[16..20]) == ValueOf(buf[16..20])
  {
    Widths();
    NumbersFit(buf);
    MagicOctets(buf[..4]);
    NumberOfOctets(buf[16..20]);
    NumberOfTwo(buf[6..8]);
    BigEndianOfNumber(buf[8..16]);
    EightIs(Number(buf[8..16]));
    hide Number, BigEndian, Eight, ValueOf;
  }

  lemma MagicOctets(b: Bytes)
    requires |b| == 4
    ensures Number(b) == MAGIC <==> b == [0x59, 0x41, 0x53, 0x43]
  {
    NumberOfOctets(b);
  }

  lemma NumberOfOctets(b: Bytes)
    requires |b| == 4
    ensures Number(b) == ValueOf(b)
  {
    NumberOfFour([], b[0], b[1], b[2], b[3]);
    assert [] + [b[0], b[1], b[2], b[3]] == b;
  }

  lemma NumberOfTwo(b: Bytes)
    requires |b| == 2
    ensures Number(b) == b[0] as int * 0x100 + b[1]
    ensures Number(b) == 0 <==> b == [0, 0]
  {
    NumberAppend([], b[0]);
    NumberAppend([b[0]], b[1]);
    assert [] + [b[0]] == [b[0]] && [b[0]] + [b[1]] == b;
  }

  // The checks run in this order: magic, version, reserved flags, size.
  function DecodeHeader(buf: Bytes, l: Limits): Result<Header, WireFault>
    requires |buf| == HEADER_SIZE
  {
    Widths();
    NumbersFit(buf);
    if Number(buf[..4]) != MAGIC then Err(BadMagic)
    else
      var header := Header(buf[4], buf[5], Number(buf[6..8]), Number(buf[8..16]), Number(buf[16..20]));
      if header.version != CURRENT_VERSION then Err(UnsupportedVersion)
      else if header.flags != 0 then Err(ReservedFlags)
      else if header.payloadLen > l.maxFrameSize then Err(FrameTooLarge)
      else Ok(header)
  }

  lemma NumbersFit(buf: Bytes)
    requires |buf| == HEADER_SIZE
    ensures Number(buf[6..8]) < 0x1_0000 && Number(buf[8..16]) < TWO_TO_64 && Number(buf[16..20]) < TWO_TO_32
  {
    Widths();
    BigEndianOfNumber(buf[6..8]);
    BigEndianOfNumber(buf[8..16]);
    BigEndianOfNumber(buf[16..20]);
  }

  // A header is accepted exactly when it is the encoding of a current header within the size limit.
  lemma HeaderRoundTrip(h: Header, l: Limits)
    ensures DecodeHeader(HeaderBytes(h), l) == Ok(h) <==>
            h.version == CURRENT_VERSION && h.flags == 0 && h.payloadLen <= l.maxFrameSize
  {
    hide BigEndian, Number;
    Widths();
    NumberOfBigEndian(MAGIC, 4);
    NumberOfBigEndian(h.flags, 2);
    NumberOfBigEndian(h.correlationID, 8);
    NumberOfBigEndian(h.payloadLen, 4);
    var b := HeaderBytes(h);
    assert b[..4] == BigEndian(MAGIC, 4) && b[4] == h.version && b[5] == h.type_;
    assert b[6..8] == BigEndian(h.flags, 2) && b[8..16] == BigEndian(h.correlationID, 8);
    assert b[16..20] == BigEndian(h.payloadLen, 4);
  }

  lemma HeaderCanonical(buf: Bytes, l: Limits)
    requires |buf| == HEADER_SIZE && DecodeHeader(buf, l).Ok?
    ensures HeaderBytes(DecodeHeader(buf, l).value) == buf
  {
    hide BigEndian, Number;
    BigEndianOfNumber(buf[..4]);
    BigEndianOfNumber(buf[6..8]);
    BigEndianOfNumber(buf[8..16]);
    BigEndianOfNumber(buf[16..20]);
    assert buf == buf[..4] + [buf[4]] + [buf[5]] + buf[6..8] + buf[8..16] + buf[16..20];
  }

  // One frame off the front of some bytes.
  function ParseFrame(buf: Bytes, limits: Limits): Parse<Frame> {
    if |buf| < HEADER_SIZE then Err(UnexpectedEnd)
    else
      var header :- DecodeHeader(buf[..HEADER_SIZE], limits.Normalized());
      var body := buf[HEADER_SIZE..];
      if |body| < header.payloadLen then Err(UnexpectedEnd)
      else Ok(Parsed(Frame(header, body[..header.payloadLen]), body[header.payloadLen..]))
  }

  lemma FrameRoundTrip(correlationID: uint64, m: Message, limits: Limits, rest: Bytes)
    requires EncodedFrame(correlationID, m, limits).Ok?
    ensures ParseFrame(EncodedFrame(correlationID, m, limits).value + rest, limits) ==
            Ok(Parsed(Frame(Header(CURRENT_VERSION, TypeOf(m), 0, correlationID, |Payload(m)|), Payload(m)), rest))
  {
    hide HeaderBytes, DecodeHeader, Payload, TypeOf;
    var payload := Payload(m);
    var h := Header(CURRENT_VERSION, TypeOf(m), 0, correlationID, |payload|);
    HeaderRoundTrip(h, limits.Normalized());
    var buf := EncodedFrame(correlationID, m, limits).value + rest;
    assert buf == HeaderBytes(h) + (payload + rest);
    assert buf[..HEADER_SIZE] == HeaderBytes(h) && buf[HEADER_SIZE..] == payload + rest;
    assert (payload + rest)[..|payload|] == payload && (payload + rest)[|payload|..] == rest;
  }

  // A message and the correlation it travels under.
  datatype Envelope = Envelope(correlationID: uint64, message: Message)

  ghost predicate Sendable(envelopes: seq<Envelope>, limits: Limits) {
    forall e | e in envelopes :: EncodedFrame(e.correlationID, e.message, limits).Ok?
  }

  ghost function Sent(envelopes: seq<Envelope>, limits: Limits): Bytes
    requires Sendable(envelopes, limits)
  {
    if envelopes == [] then []
    else EncodedFrame(envelopes[0].correlationID, envelopes[0].message, limits).value + Sent(envelopes[1..], limits)
  }

  ghost function ParseFrames(n: nat, buf: Bytes, limits: Limits): Parse<seq<Frame>> {
    if n == 0 then Ok(Parsed([], buf))
    else
      var first :- ParseFrame(buf, limits);
      var more :- ParseFrames(n - 1, first.rest, limits);
      Ok(Parsed([first.value] + more.value, more.rest))
  }

  // The frames carry the correlations, types and payloads of what was sent, in that order.
  ghost predicate Carry(frames: seq<Frame>, envelopes: seq<Envelope>) {
    && |frames| == |envelopes|
    && forall i | 0 <= i < |envelopes| ::
         var frame, e := frames[i], envelopes[i];
         && frame.header.correlationID == e.correlationID && frame.header.type_ == TypeOf(e.message)
         && frame.payload == Payload(e.message)
  }

  // Frames come back in the order they were sent, and the rest of the stream is left alone.
  lemma {:induction false} FramesComeBack(envelopes: seq<Envelope>, limits: Limits, rest: Bytes)
    requires Sendable(envelopes, limits)
    ensures var p := ParseFrames(|envelopes|, Sent(envelopes, limits) + rest, limits);
            p.Ok? && p.value.rest == rest && Carry(p.value.value, envelopes)
  {
    hide EncodedFrame, ParseFrame, TypeOf, Payload;
    if envelopes == [] {
      assert Sent(envelopes, limits) + rest == rest;
    } else {
      var e, more := envelopes[0], envelopes[1..];
      var tail := Sent(more, limits) + rest;
      assert Sent(envelopes, limits) + rest == EncodedFrame(e.correlationID, e.message, limits).value + tail;
      FrameRoundTrip(e.correlationID, e.message, limits, tail);
      FramesComeBack(more, limits, rest);
    }
  }

  // What is parsed next, with frames parsed before in front.
  ghost function Prefixed(before: seq<Frame>, next: Parse<seq<Frame>>): Parse<seq<Frame>> {
    match next
    case Ok(p) => Ok(Parsed(before + p.value, p.rest))
    case Err(e) => Err(e)
  }

  lemma NonePrefixed(n: nat, buf: Bytes, limits: Limits)
    ensures Prefixed([], ParseFrames(n, buf, limits)) == ParseFrames(n, buf, limits)
  {
    hide ParseFrames;
    var next := ParseFrames(n, buf, limits);
    assert next.Ok? ==> [] + next.value.value == next.value.value;
  }

  lemma AllPrefixed(before: seq<Frame>, buf: Bytes, limits: Limits)
    ensures Prefixed(before, ParseFrames(0, buf, limits)) == Ok(Parsed(before, buf))
  {
    assert before + [] == before;
  }

  lemma OnePrefixed(before: seq<Frame>, n: nat, buf: Bytes, limits: Limits)
    requires n > 0
    ensures Prefixed(before, ParseFrames(n, buf, limits)) ==
            match ParseFrame(buf, limits)
            case Ok(p) => Prefixed(before + [p.value], ParseFrames(n - 1, p.rest, limits))
            case Err(e) => Err(e)
  {
    hide ParseFrame;
    if ParseFrame(buf, limits).Ok? {
      var first := ParseFrame(buf, limits).value;
      var more := ParseFrames(n - 1, first.rest, limits);
      assert more.Ok? ==> before + ([first.value] + more.value.value) == before + [first.value] + more.value.value;
    }
  }

  // The buffer was extended to `reserved` bytes when so many had been received.
  datatype Growth = Growth(received: nat, reserved: nat)

  // Extended up to some size, by at most a chunk at a time and never before the last one was received in full.
  ghost predicate ByChunks(growth: seq<Growth>, size: nat) {
    if growth == [] then size == 0
    else
      var last := growth[|growth| - 1];
      && last.reserved == size && last.received < size <= last.received + PAYLOAD_READ_CHUNK
      && ByChunks(growth[..|growth| - 1], last.received)
  }

  lemma AnotherChunk(growth: seq<Growth>, received: nat, reserved: nat)
    requires ByChunks(growth, received) && received < reserved <= received + PAYLOAD_READ_CHUNK
    ensures ByChunks(growth + [Growth(received, reserved)], reserved)
  {
    assert (growth + [Growth(received, reserved)])[..|growth|] == growth;
  }

  lemma ChunkArrives(received: Bytes, buffer: Bytes, want: nat, left: Bytes, all: Bytes)
    requires received + left == all
    requires |buffer| == |received| + want && buffer[..|received|] == received
    ensures |left| >= want ==> buffer[..|received|] + left[..want] + left[want..] == all
  {
  }

  // So at every moment the buffer is at most a chunk ahead of what was received.
  lemma {:induction false} ChunkAhead(growth: seq<Growth>, size: nat, i: nat)
    requires ByChunks(growth, size) && i < |growth|
    ensures growth[i].received < growth[i].reserved <= growth[i].received + 8_192
    ensures growth[i].received == if i == 0 then 0 else growth[i - 1].reserved
    ensures growth[i].reserved <= size
  {
    var n := |growth| - 1;
    if i < n {
      ChunkAhead(growth[..n], growth[n].received, i);
    } else if i > 0 {
      ChunkAhead(growth[..n], growth[n].received, i - 1);
    }
  }

  // Bytes as the network delivers them: one non-empty segment after another, then the end.
  class Stream {
    var segments: seq<Bytes>

    ghost predicate Valid()
      reads this
    {
      forall s | s in segments :: s != []
    }

    ghost function Content(): Bytes
      reads this
    {
      Flattened(segments)
    }

    constructor (segments: seq<Bytes>)
      requires forall s | s in segments :: s != []
      ensures Valid() && Content() == Flattened(segments)
    {
      this.segments := segments;
    }

    // At most the wanted bytes, and at least one unless the stream has ended.
    method Read(want: nat) returns (got: Bytes)
      requires Valid() && want > 0
      modifies this
      ensures Valid() && got + Content() == old(Content()) && |got| <= want
      ensures got == [] <==> old(Content()) == []
    {
      if segments == [] {
        return [];
      }
      var first := segments[0];
      assert first in segments && forall s | s in segments[1..] :: s in segments;
      if |first| <= want {
        segments := segments[1..];
        return first;
      }
      segments := [first[want..]] + segments[1..];
      assert first == first[..want] + first[want..];
      return first[..want];
    }

    // Exactly the wanted bytes, whatever the segments, or the end of the stream.
    method ReadFull(want: nat) returns (filled: Result<Bytes, WireFault>)
      requires Valid()
      modifies this
      ensures Valid()
      ensures filled.Ok? <==> |old(Content())| >= want
      ensures filled.Ok? ==> filled.value == old(Content())[..want] && Content() == old(Content())[want..]
      ensures filled.Err? ==> filled.error == UnexpectedEnd
    {
      var buf := [];
      while |buf| < want
        invariant Valid() && |buf| <= want && buf + Content() == old(Content())
        decreases want - |buf|
      {
        var got := Read(want - |buf|);
        if got == [] {
          return Err(UnexpectedEnd);
        }
        buf := buf + got;
      }
      return Ok(buf);
    }

    // The buffer is extended chunk by chunk, each time only once it is full: `growth` says how many bytes had been
    // received and how far the buffer then reached. A declared length that is not delivered costs no more than a chunk.
    method ReadPayload(length: uint32) returns (payload: Result<Bytes, WireFault>, ghost growth: seq<Growth>)
      requires Valid()
      modifies this
      ensures Valid()
      ensures payload.Ok? <==> |old(Content())| >= length
      ensures payload.Ok? ==> payload.value == old(Content())[..length] && Content() == old(Content())[length..]
      ensures payload.Ok? ==> ByChunks(growth, length)
      ensures payload.Err? ==> payload.error == UnexpectedEnd
      ensures payload.Err? ==>
                && growth != [] && growth[|growth| - 1].received <= |old(Content())| < growth[|growth| - 1].reserved
                && growth[|growth| - 1].reserved <= length && ByChunks(growth, growth[|growth| - 1].reserved)
    {
      var buffer := [];
      growth := [];
      ghost var all := Content();
      while |buffer| < length
        invariant Valid() && |buffer| <= length && buffer + Content() == all
        invariant ByChunks(growth, |buffer|)
        decreases length - |buffer|
      {
        hide ByChunks, Stream.Content, Stream.Valid;
        var filled := |buffer|;
        var want := if length - filled < PAYLOAD_READ_CHUNK then length - filled else PAYLOAD_READ_CHUNK;
        ghost var left, received := Content(), buffer;
        buffer := buffer + seq(want, _ => 0);
        AnotherChunk(growth, filled, filled + want);
        growth := growth + [Growth(filled, filled + want)];
        var chunk := ReadFull(want);
        if chunk.Err? {
          return Err(chunk.error), growth;
        }
        ChunkArrives(received, buffer, want, left, all);
        buffer := buffer[..filled] + chunk.value;
      }
      return Ok(buffer), growth;
    }

    // Exactly one frame, leaving what follows it unread.
    method ReadFrame(limits: Limits) returns (frame: Result<Frame, WireFault>)
      requires Valid()
      modifies this
      ensures Valid()
      ensures match ParseFrame(old(Content()), limits)
              case Ok(p) => frame == Ok(p.value) && Content() == p.rest
              case Err(e) => frame == Err(e)
    {
      hide DecodeHeader;
      var header := ReadFull(HEADER_SIZE);
      if header.Err? {
        return Err(header.error);
      }
      var decoded := DecodeHeader(header.value, limits.Normalized());
      if decoded.Err? {
        return Err(decoded.error);
      }
      var payload, reserved := ReadPayload(decoded.value.payloadLen);
      if payload.Err? {
        return Err(payload.error);
      }
      return Ok(Frame(decoded.value, payload.value));
    }

    // As many frames, one after another. Whatever the segments, frames that were sent come back and what follows them
    // is left unread.
    method ReadFrames(n: nat, limits: Limits) returns (frames: Result<seq<Frame>, WireFault>)
      requires Valid()
      modifies this
      ensures Valid()
      ensures match ParseFrames(n, old(Content()), limits)
              case Ok(p) => frames == Ok(p.value) && Content() == p.rest
              case Err(e) => frames == Err(e)
      ensures forall envelopes, rest ::
                Sendable(envelopes, limits) && |envelopes| == n && old(Content()) == Sent(envelopes, limits) + rest ==>
                  frames.Ok? && Carry(frames.value, envelopes) && Content() == rest
    {
      hide ParseFrame, ParseFrames, Prefixed, Carry, Stream.Content, Stream.Valid, Sent, Sendable;
      forall envelopes, rest |
        Sendable(envelopes, limits) && |envelopes| == n && Content() == Sent(envelopes, limits) + rest
        ensures ParseFrames(n, Content(), limits).Ok? && ParseFrames(n, Content(), limits).value.rest == rest
        ensures Carry(ParseFrames(n, Content(), limits).value.value, envelopes)
      {
        FramesComeBack(envelopes, limits, rest);
      }
      var read := [];
      NonePrefixed(n, Content(), limits);
      while |read| < n
        invariant Valid() && |read| <= n
        invariant ParseFrames(n, old(Content()), limits) == Prefixed(read, ParseFrames(n - |read|, Content(), limits))
        decreases n - |read|
      {
        OnePrefixed(read, n - |read|, Content(), limits);
        var frame := ReadFrame(limits);
        if frame.Err? {
          return Err(frame.error);
        }
        read := read + [frame.value];
      }
      AllPrefixed(read, Content(), limits);
      return Ok(read);
    }

    method ReadMessage(limits: Limits) returns (message: Result<(Header, Message), WireFault>)
      requires Valid()
      modifies this
      ensures Valid()
      ensures match ParseFrame(old(Content()), limits)
              case Err(e) => message == Err(e)
              case Ok(p) =>
                && Content() == p.rest
                && message == match Decode(p.value.header.type_, p.value.payload, limits)
                              case Ok(m) => Ok((p.value.header, m))
                              case Err(e) => Err(e)
    {
      hide ParseFrame, Decode;
      var frame := ReadFrame(limits);
      if frame.Err? {
        return Err(frame.error);
      }
      var decoded := DecodeMessage(frame.value.header.type_, frame.value.payload, limits);
      if decoded.Err? {
        return Err(decoded.error);
      }
      return Ok((frame.value.header, decoded.value));
    }
  }

  ghost function Flattened(segments: seq<Bytes>): Bytes {
    if segments == [] then [] else segments[0] + Flattened(segments[1..])
  }

  // A sent message is read back exactly when its fields fit the receiver's limits.
  lemma MessageComesBack(e: Envelope, limits: Limits, rest: Bytes)
    requires EncodedFrame(e.correlationID, e.message, limits).Ok?
    ensures var p := ParseFrame(EncodedFrame(e.correlationID, e.message, limits).value + rest, limits);
            && p.Ok? && p.value.rest == rest && p.value.value.header.correlationID == e.correlationID
            && (Decode(p.value.value.header.type_, p.value.value.payload, limits) == Ok(e.message) <==>
                Fits(e.message, limits))
  {
    hide EncodedFrame, ParseFrame, TypeOf, Payload, Decode, Fits;
    FrameRoundTrip(e.correlationID, e.message, limits, rest);
    DecodeEncode(e.message, limits);
  }
}
