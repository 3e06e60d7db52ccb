/** Writing frames to a stream and reading them back. */
module FrameIo {
  import opened Bytes
  import opened Wrappers
  import opened FrameFormat
  import BufferPool

  /** One direction of a socket: the bytes written and not yet read. */
  class Stream {
    var data: seq<Byte>

    /** Fills a buffer of `count` bytes, or fails when the peer closes before that many arrive. */
    method ReadExact(count: nat) returns (r: Result<seq<Byte>, FrameError>)
      modifies this
      ensures (r, data) == if count <= |old(data)| then (Success(old(data)[..count]), old(data)[count..]) else (Failure(Io), [])
    {
      if count <= |data| {
        r := Success(data[..count]);
        data := data[count..];
      } else {
        r := Failure(Io);
        data := [];
      }
    }
  }

  // Writing

  function PayloadLen(f: Frame): nat {
    |f.envelope| + |f.rawDocs|
  }

  /** The frame as the wire carries it: its length field is computed, as a 32-bit value. */
  function OnWire(f: Frame): Frame {
    f.(header := f.header.(msgLen := (6 + PayloadLen(f)) % 0x1_0000_0000))
  }

  function Wire(f: Frame): seq<Byte> {
    HeaderBytes(OnWire(f).header) + f.envelope + f.rawDocs
  }

  /** What the socket does with one frame: fail at once, or take some bytes in the vectored write
      and then take or refuse the remainder. */
  datatype Socket = Refuses | Takes(count: nat, remainder: bool)

  method WriteFrame(stream: Stream, f: Frame, socket: Socket) returns (r: Result<(), FrameError>)
    modifies stream
    ensures r.Success? <==> socket.Takes? && (socket.count >= |Wire(f)| || socket.remainder)
    ensures r.Success? ==> stream.data == old(stream.data) + Wire(f)
    ensures r.Failure? ==> exists n | 0 <= n < |Wire(f)| :: stream.data == old(stream.data) + Wire(f)[..n]
  {
    hide HeaderBytes, FlagsWord;
    var payloadLen := |f.envelope| + |f.rawDocs|;
    var header := FrameHeader((6 + payloadLen) % 0x1_0000_0000, f.header.flags, f.header.reqId);
    var headerBytes := EncodeHeader(header);
    var total := HEADER_SIZE + |f.envelope| + |f.rawDocs|;
    var all := headerBytes[..] + f.envelope + f.rawDocs;
    assert all == Wire(f);
    if socket.Refuses? {
      assert old(stream.data) + Wire(f)[..0] == old(stream.data);
      return Failure(Io);
    }
    var written := if socket.count < total then socket.count else total;
    stream.data := stream.data + all[..written];
    if written < total {
      if !socket.remainder {
        return Failure(Io);
      }
      stream.data := stream.data + all[written..];
      assert all[..written] + all[written..] == all;
      assert stream.data == old(stream.data) + (all[..written] + all[written..]);
    } else {
      assert all[..written] == all;
    }
    return Success(());
  }

  // Reading

  /** Splits a payload at the length its first four bytes declare. */
  function SplitPayload(header: FrameHeader, payload: seq<Byte>): Result<Frame, FrameError> {
    if |payload| < 4 then Failure(MalformedEnvelope)
    else
      var size := SizeFromLe(payload[..4]);
      if size > |payload| then Failure(MalformedEnvelope)
      else Success(Frame(header, payload[..size], payload[size..]))
  }

  /** One read: its result, and what is left of the stream. */
  function Read(data: seq<Byte>, maxFrameSize: U32): (Result<Frame, FrameError>, seq<Byte>) {
    if |data| < HEADER_SIZE then (Failure(Io), [])
    else
      var rest := data[HEADER_SIZE..];
      match DecodeHeader(data[..HEADER_SIZE])
      case Failure(e) => (Failure(e), rest)
      case Success(header) =>
        var payloadLen := if header.msgLen < 6 then 0 else header.msgLen - 6;
        if header.msgLen > maxFrameSize then (Failure(FrameTooLarge), rest)
        else if payloadLen == 0 then (Success(Frame(header, [], [])), rest)
        else if |rest| < payloadLen then (Failure(Io), [])
        else (SplitPayload(header, rest[..payloadLen]), rest[payloadLen..])
  }

  method ReadFrame(stream: Stream, maxFrameSize: U32) returns (r: Result<Frame, FrameError>)
    modifies stream
    ensures (r, stream.data) == Read(old(stream.data), maxFrameSize)
  {
    var headerBuf :- stream.ReadExact(HEADER_SIZE);
    var header :- DecodeHeader(headerBuf);
    if header.msgLen > maxFrameSize {
      return Failure(FrameTooLarge);
    }
    var payloadLen := if header.msgLen < 6 then 0 else header.msgLen - 6;
    if payloadLen == 0 {
      return Success(Frame(header, [], []));
    }
    var payload :- stream.ReadExact(payloadLen);
    r := SplitPayload(header, payload);
  }

  function Resized(content: seq<Byte>, len: nat): seq<Byte> {
    if len <= |content| then content[..len] else content + seq(len - |content|, i => 0)
  }

  /** The pooled read gives what the plain read gives, whatever the pool holds. */
  method ReadFramePooled(stream: Stream, maxFrameSize: U32, pool: BufferPool.BufferPool) returns (r: Result<Frame, FrameError>)
    modifies stream, pool
    ensures (r, stream.data) == Read(old(stream.data), maxFrameSize)
  {
    var headerBuf :- stream.ReadExact(HEADER_SIZE);
    var header :- DecodeHeader(headerBuf);
    if header.msgLen > maxFrameSize {
      return Failure(FrameTooLarge);
    }
    var payloadLen := if header.msgLen < 6 then 0 else header.msgLen - 6;
    if payloadLen == 0 {
      return Success(Frame(header, [], []));
    }
    var payload := pool.Checkout(payloadLen);
    payload := payload.(content := Resized(payload.content, payloadLen));
    var filled :- stream.ReadExact(|payload.content|);
    payload := payload.(content := filled);
    r := SplitPayload(header, payload.content);
  }

  // Round trips

  /** The reader can cut the frame where the writer joined it: the envelope declares its own
      length (or there is no payload at all), and the size is allowed. */
  predicate Recoverable(f: Frame, maxFrameSize: U32) {
    && 6 + PayloadLen(f) <= maxFrameSize
    && (PayloadLen(f) == 0
        || (PayloadLen(f) >= 4 && SizeFromLe((f.envelope + f.rawDocs)[..4]) == |f.envelope|))
  }

  lemma StartsWithHeader(f: Frame, tail: seq<Byte>)
    ensures var data := Wire(f) + tail;
      && |data| >= HEADER_SIZE
      && DecodeHeader(data[..HEADER_SIZE]) == Success(OnWire(f).header)
      && data[HEADER_SIZE..] == f.envelope + f.rawDocs + tail
  {
    hide HeaderBytes, DecodeHeader;
    var data := Wire(f) + tail;
    var header := OnWire(f).header;
    assert data == HeaderBytes(header) + (f.envelope + f.rawDocs + tail);
    assert data[..HEADER_SIZE] == HeaderBytes(header);
    HeaderRoundTrip(header);
  }

  /** What a read makes of a well-formed header followed by the payload it was written with. */
  lemma ReadAfterHeader(data: seq<Byte>, header: FrameHeader, payload: seq<Byte>, tail: seq<Byte>, maxFrameSize: U32)
    requires |data| >= HEADER_SIZE && DecodeHeader(data[..HEADER_SIZE]) == Success(header)
    requires data[HEADER_SIZE..] == payload + tail
    requires header.msgLen == (6 + |payload|) % 0x1_0000_0000
    ensures 6 + |payload| <= maxFrameSize ==>
      Read(data, maxFrameSize)
      == (if payload == [] then Success(Frame(header, [], [])) else SplitPayload(header, payload), tail)
    ensures 6 + |payload| > maxFrameSize && Read(data, maxFrameSize).0.Success? ==>
      |Read(data, maxFrameSize).0.value.envelope| + |Read(data, maxFrameSize).0.value.rawDocs| < |payload|
  {
    hide DecodeHeader, SizeFromLe;
    var rest := data[HEADER_SIZE..];
    var payloadLen := if header.msgLen < 6 then 0 else header.msgLen - 6;
    if 6 + |payload| <= maxFrameSize {
      assert payloadLen == |payload| && rest[..payloadLen] == payload && rest[payloadLen..] == tail;
    }
  }

  lemma SplitUndoesJoin(header: FrameHeader, envelope: seq<Byte>, rawDocs: seq<Byte>)
    ensures SplitPayload(header, envelope + rawDocs) == Success(Frame(header, envelope, rawDocs))
      <==> |envelope + rawDocs| >= 4 && SizeFromLe((envelope + rawDocs)[..4]) == |envelope|
  {
    var payload := envelope + rawDocs;
    assert payload[..|envelope|] == envelope && payload[|envelope|..] == rawDocs;
  }

  /** A written frame followed by anything is read back whole, with nothing of what follows
      consumed, exactly when it is recoverable. */
  lemma ReadUndoesWrite(f: Frame, tail: seq<Byte>, maxFrameSize: U32)
    ensures Read(Wire(f) + tail, maxFrameSize) == (Success(OnWire(f)), tail) <==> Recoverable(f, maxFrameSize)
    ensures Read(Wire(f) + tail, maxFrameSize).0 == Success(OnWire(f)) ==> Read(Wire(f) + tail, maxFrameSize).1 == tail
  {
    hide Wire, Read, DecodeHeader, HeaderBytes, SplitPayload, SizeFromLe;
    var data := Wire(f) + tail;
    StartsWithHeader(f, tail);
    ReadAfterHeader(data, OnWire(f).header, f.envelope + f.rawDocs, tail, maxFrameSize);
    SplitUndoesJoin(OnWire(f).header, f.envelope, f.rawDocs);
  }

  // On the wire, in bytes

  /** The length field counts every byte after itself. */
  lemma LengthCountsTheRest(f: Frame)
    requires 6 + PayloadLen(f) < 0x1_0000_0000
    ensures |Wire(f)| == 4 + OnWire(f).header.msgLen
    ensures Wire(f)[HEADER_SIZE..] == f.envelope + f.rawDocs
  {
    assert Wire(f)[HEADER_SIZE..] == f.envelope + f.rawDocs;
  }

  /** A payload whose first four bytes are the little-endian length of its envelope, these included,
      is split exactly there. */
  lemma EnvelopeSplits(header: FrameHeader, n: nat, body: seq<Byte>, rawDocs: seq<Byte>)
    requires n == |body| + 4 < 0x8000_0000
    ensures var envelope: seq<Byte> := [n % 256, n / 256 % 256, n / 65536 % 256, n / 16777216] + body;
      SplitPayload(header, envelope + rawDocs) == Success(Frame(header, envelope, rawDocs))
  {
    var prefix: seq<Byte> := [n % 256, n / 256 % 256, n / 65536 % 256, n / 16777216];
    var envelope := prefix + body;
    assert (envelope + rawDocs)[..4] == prefix;
    LittleEndianForm(n);
    SplitUndoesJoin(header, envelope, rawDocs);
  }

  /** What else a read can find: a frame beyond the limit, of which only the header is consumed; a
      payload too short for its prefix or shorter than that declares, which is consumed; and a
      stream that ends within a frame. */
  lemma UnreadableFrames(f: Frame, tail: seq<Byte>, maxFrameSize: U32, n: nat)
    requires 6 + PayloadLen(f) < 0x1_0000_0000
    ensures 6 + PayloadLen(f) > maxFrameSize ==>
      Read(Wire(f) + tail, maxFrameSize) == (Failure(FrameTooLarge), f.envelope + f.rawDocs + tail)
    ensures 6 + PayloadLen(f) <= maxFrameSize && PayloadLen(f) > 0
            && (PayloadLen(f) < 4 || SizeFromLe((f.envelope + f.rawDocs)[..4]) > PayloadLen(f)) ==>
      Read(Wire(f) + tail, maxFrameSize) == (Failure(MalformedEnvelope), tail)
    ensures 6 + PayloadLen(f) <= maxFrameSize && n < |Wire(f)| ==>
      Read(Wire(f)[..n], maxFrameSize) == (Failure(Io), [])
  {
    hide DecodeHeader, HeaderBytes, SizeFromLe;
    StartsWithHeader(f, tail);
    ReadAfterHeader(Wire(f) + tail, OnWire(f).header, f.envelope + f.rawDocs, tail, maxFrameSize);
    if 6 + PayloadLen(f) <= maxFrameSize && n < |Wire(f)| {
      CutShort(f, maxFrameSize, n);
    }
  }

  lemma CutShort(f: Frame, maxFrameSize: U32, n: nat)
    requires 6 + PayloadLen(f) <= maxFrameSize && n < |Wire(f)|
    ensures Read(Wire(f)[..n], maxFrameSize) == (Failure(Io), [])
  {
    hide DecodeHeader, HeaderBytes;
    StartsWithHeader(f, []);
    assert Wire(f) + [] == Wire(f);
    if n >= HEADER_SIZE {
      assert Wire(f)[..n][..HEADER_SIZE] == Wire(f)[..HEADER_SIZE];
    }
  }

  function WireAll(frames: seq<Frame>): seq<Byte> {
    if frames == [] then [] else Wire(frames[0]) + WireAll(frames[1..])
  }

  function AllOnWire(frames: seq<Frame>): seq<Frame> {
    if frames == [] then [] else [OnWire(frames[0])] + AllOnWire(frames[1..])
  }

  /** Reads frames until the first failed read. */
  function ReadAll(data: seq<Byte>, maxFrameSize: U32): (seq<Frame>, FrameError)
    decreases |data|
  {
    var (r, rest) := Read(data, maxFrameSize);
    match r
    case Failure(e) => ([], e)
    case Success(f) =>
      var (frames, e) := ReadAll(rest, maxFrameSize);
      ([f] + frames, e)
  }

  /** A conversation of frames is read back frame by frame, up to the end of the stream, exactly
      when each of its frames is recoverable. */
  lemma {:induction false} ReadAllUndoesWriteAll(frames: seq<Frame>, maxFrameSize: U32)
    ensures ReadAll(WireAll(frames), maxFrameSize) == (AllOnWire(frames), Io)
      <==> forall f | f in frames :: Recoverable(f, maxFrameSize)
  {
    hide Wire, Recoverable;
    if frames != [] {
      var f, others := frames[0], frames[1..];
      var data, tail := WireAll(frames), WireAll(others);
      ReadUndoesWrite(f, tail, maxFrameSize);
      ReadAllUndoesWriteAll(others, maxFrameSize);
      assert frames == [f] + others;
      var (r, rest) := Read(data, maxFrameSize);
      if r == Success(OnWire(f)) {
        var (read, e) := ReadAll(rest, maxFrameSize);
        assert ([OnWire(f)] + read)[1..] == read && AllOnWire(frames)[1..] == AllOnWire(others);
      } else {
        var read := ReadAll(data, maxFrameSize).0;
        assert read == [] || read[0] != OnWire(f);
        assert AllOnWire(frames)[0] == OnWire(f);
      }
    }
  }

  // The shutdown notice

  function Ascii(s: string): seq<Byte> {
    seq(|s|, i requires 0 <= i < |s| => s[i] as int % 256)
  }

  function ShutdownText(): string {
    "{\"sh" + "utdown\":true,\"drain_ms\":5000,\"doc_bytes_len\":0}"
  }

  /** The frame a server sends when it shuts down; its envelope is JSON text. */
  function ShutdownFrame(): Frame {
    Frame(FrameHeader(0, Flags(Handshake, true, false, false, Normal), 0), Ascii(ShutdownText()), [])
  }

  lemma ShutdownTextStart()
    ensures |ShutdownText()| >= 4 && ShutdownText()[..4] == "{\"sh" && |ShutdownText()| < 0x100
  {
  }

  /** No reader of this format can read the notice: its first bytes declare an absurd length. */
  lemma ShutdownFrameIsMalformed(tail: seq<Byte>, maxFrameSize: U32)
    requires 6 + PayloadLen(ShutdownFrame()) <= maxFrameSize
    ensures Read(Wire(ShutdownFrame()) + tail, maxFrameSize) == (Failure(MalformedEnvelope), tail)
  {
    var f := ShutdownFrame();
    ShutdownTextStart();
    MalformedNotice(f, ShutdownText(), tail, maxFrameSize);
  }

  lemma MalformedNotice(f: Frame, text: string, tail: seq<Byte>, maxFrameSize: U32)
    requires f.envelope == Ascii(text) && f.rawDocs == []
    requires 4 <= |text| < 0x100 && text[..4] == "{\"sh"
    requires 6 + PayloadLen(f) <= maxFrameSize
    ensures Read(Wire(f) + tail, maxFrameSize) == (Failure(MalformedEnvelope), tail)
  {
    hide Wire, Read, DecodeHeader, HeaderBytes;
    StartsWithHeader(f, tail);
    assert f.envelope + f.rawDocs == f.envelope;
    ReadAfterHeader(Wire(f) + tail, OnWire(f).header, f.envelope, tail, maxFrameSize);
    assert text[..4][3] == 'h';
    assert f.envelope[..4][3] == 'h' as int;
  }
}
