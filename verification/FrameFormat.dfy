/** The binary frames of the socket protocol: header, envelope and raw documents. */
module FrameFormat {
  import opened Bytes
  import opened Wrappers

  const HEADER_SIZE: nat := 10

  datatype FrameError = InvalidOpcode(code: bv8) | FrameTooLarge | MalformedEnvelope | Io

  datatype Opcode =
    | Find | FindOne | InsertOne | InsertMany | UpdateOne | UpdateMany | DeleteOne | DeleteMany
    | Aggregate | CountDocuments | CreateIndex | ListCollections | RunCommand
    | FindOneAndUpdate | FindOneAndDelete | BulkWrite | Distinct | CreateCollection | DropCollection
    | Error | Handshake
  {
    function Code(): bv8 {
      match this
      case Find => 0x01
      case FindOne => 0x02
      case InsertOne => 0x03
      case InsertMany => 0x04
      case UpdateOne => 0x05
      case UpdateMany => 0x06
      case DeleteOne => 0x07
      case DeleteMany => 0x08
      case Aggregate => 0x09
      case CountDocuments => 0x0A
      case CreateIndex => 0x0B
      case ListCollections => 0x0C
      case RunCommand => 0x0D
      case FindOneAndUpdate => 0x0E
      case FindOneAndDelete => 0x0F
      case BulkWrite => 0x10
      case Distinct => 0x11
      case CreateCollection => 0x12
      case DropCollection => 0x13
      case Error => 0x3E
      case Handshake => 0x3F
    }
  }

  function OpcodeFrom(code: bv8): Result<Opcode, FrameError> {
    match code
    case 0x01 => Success(Find)
    case 0x02 => Success(FindOne)
    case 0x03 => Success(InsertOne)
    case 0x04 => Success(InsertMany)
    case 0x05 => Success(UpdateOne)
    case 0x06 => Success(UpdateMany)
    case 0x07 => Success(DeleteOne)
    case 0x08 => Success(DeleteMany)
    case 0x09 => Success(Aggregate)
    case 0x0A => Success(CountDocuments)
    case 0x0B => Success(CreateIndex)
    case 0x0C => Success(ListCollections)
    case 0x0D => Success(RunCommand)
    case 0x0E => Success(FindOneAndUpdate)
    case 0x0F => Success(FindOneAndDelete)
    case 0x10 => Success(BulkWrite)
    case 0x11 => Success(Distinct)
    case 0x12 => Success(CreateCollection)
    case 0x13 => Success(DropCollection)
    case 0x3E => Success(Error)
    case 0x3F => Success(Handshake)
    case _ => Failure(InvalidOpcode(code))
  }

  datatype Priority = Normal | Low | High | Critical {
    function Code(): bv8 {
      match this
      case Normal => 0
      case Low => 1
      case High => 2
      case Critical => 3
    }
  }

  function PriorityFrom(code: bv8): Result<Priority, FrameError> {
    match code
    case 0 => Success(Normal)
    case 1 => Success(Low)
    case 2 => Success(High)
    case 3 => Success(Critical)
    case _ => Failure(InvalidOpcode(code))
  }

  datatype Flags = Flags(opcode: Opcode, endOfStream: bool, noReply: bool, batchFollows: bool, priority: Priority)

  function Bit(b: bool, position: bv4): bv16 {
    if b then (1 as bv16) << position else 0
  }

  /** The layout of the flags word. */
  function Pack(opcode: bv8, endOfStream: bool, noReply: bool, batchFollows: bool, priority: bv8): bv16 {
    opcode as bv16 | Bit(endOfStream, 6) | Bit(noReply, 7) | Bit(batchFollows, 8) | ((priority as bv16) << 9)
  }

  function FlagsWord(f: Flags): bv16 {
    Pack(f.opcode.Code(), f.endOfStream, f.noReply, f.batchFollows, f.priority.Code())
  }

  method EncodeFlags(f: Flags) returns (bits: bv16)
    ensures bits == FlagsWord(f)
  {
    hide Pack, Opcode.Code, Priority.Code;
    var opcode, priority := f.opcode.Code(), f.priority.Code();
    CodesFit(f);
    PackedBits(opcode, f.endOfStream, f.noReply, f.batchFollows, priority);
    bits := 0;
    bits := bits | (opcode as bv16 & 0x3F);
    if f.endOfStream {
      bits := bits | ((1 as bv16) << 6);
    }
    if f.noReply {
      bits := bits | ((1 as bv16) << 7);
    }
    if f.batchFollows {
      bits := bits | ((1 as bv16) << 8);
    }
    bits := bits | ((priority as bv16 & 0x03) << 9);
  }

  /** The layout with each flag as an optional bit. */
  lemma PackedBits(opcode: bv8, endOfStream: bool, noReply: bool, batchFollows: bool, priority: bv8)
    requires opcode as bv16 & 0x3F == opcode as bv16 && priority as bv16 & 0x03 == priority as bv16
    ensures var w0 := 0 | (opcode as bv16 & 0x3F);
      var w1 := if endOfStream then w0 | ((1 as bv16) << 6) else w0;
      var w2 := if noReply then w1 | ((1 as bv16) << 7) else w1;
      var w3 := if batchFollows then w2 | ((1 as bv16) << 8) else w2;
      Pack(opcode, endOfStream, noReply, batchFollows, priority) == w3 | ((priority as bv16 & 0x03) << 9)
  {
  }

  lemma CodesFit(f: Flags)
    ensures f.opcode.Code() as bv16 & 0x3F == f.opcode.Code() as bv16
    ensures f.priority.Code() as bv16 & 0x03 == f.priority.Code() as bv16
  {
  }

  function DecodeFlags(bits: bv16): Result<Flags, FrameError> {
    var opcode :- OpcodeFrom((bits & 0x3F) as bv8);
    var priority :- PriorityFrom(((bits >> 9) & 0x03) as bv8);
    Success(Flags(opcode, (bits >> 6) & 1 == 1, (bits >> 7) & 1 == 1, (bits >> 8) & 1 == 1, priority))
  }

  lemma OpcodeRoundTrip(opcode: Opcode)
    ensures OpcodeFrom(opcode.Code()) == Success(opcode) && opcode.Code() < 0x40
  {
  }

  lemma PriorityRoundTrip(priority: Priority)
    ensures PriorityFrom(priority.Code()) == Success(priority) && priority.Code() < 4
  {
  }

  lemma Unpack(word: bv16, opcode: bv8, endOfStream: bool, noReply: bool, batchFollows: bool, priority: bv8)
    requires opcode < 0x40 && priority < 4 && word == Pack(opcode, endOfStream, noReply, batchFollows, priority)
    ensures (word & 0x3F) as bv8 == opcode && ((word >> 9) & 0x03) as bv8 == priority
    ensures ((word >> 6) & 1 == 1) == endOfStream
    ensures ((word >> 7) & 1 == 1) == noReply
    ensures ((word >> 8) & 1 == 1) == batchFollows
  {
  }

  lemma Repack(word: bv16)
    ensures Pack((word & 0x3F) as bv8, (word >> 6) & 1 == 1, (word >> 7) & 1 == 1, (word >> 8) & 1 == 1, ((word >> 9) & 0x03) as bv8)
         == word & 0x07FF
  {
  }

  lemma OpcodeFromCode(code: bv8)
    ensures OpcodeFrom(code).Success? ==> OpcodeFrom(code).value.Code() == code
    ensures OpcodeFrom(code).Failure? ==> OpcodeFrom(code).error == InvalidOpcode(code)
  {
  }

  lemma PriorityFromCode(code: bv8)
    ensures PriorityFrom(code).Success? <==> code < 4
    ensures code < 4 ==> PriorityFrom(code).value.Code() == code
  {
  }

  lemma PriorityBits(word: bv16)
    ensures ((word >> 9) & 0x03) as bv8 < 4
  {
  }

  lemma DecodeParts(word: bv16, opcode: bv8, f: Flags, priority: bv8)
    requires (word & 0x3F) as bv8 == opcode && ((word >> 9) & 0x03) as bv8 == priority
    requires OpcodeFrom(opcode) == Success(f.opcode) && PriorityFrom(priority) == Success(f.priority)
    ensures DecodeFlags(word) == Success(Flags(f.opcode, (word >> 6) & 1 == 1, (word >> 7) & 1 == 1, (word >> 8) & 1 == 1, f.priority))
  {
  }

  /** Decoding undoes encoding. */
  lemma FlagsRoundTrip(f: Flags)
    ensures DecodeFlags(FlagsWord(f)) == Success(f)
  {
    var word, opcode, priority := FlagsWord(f), f.opcode.Code(), f.priority.Code();
    OpcodeRoundTrip(f.opcode);
    PriorityRoundTrip(f.priority);
    Unpack(word, opcode, f.endOfStream, f.noReply, f.batchFollows, priority);
    DecodeParts(word, opcode, f, priority);
  }

  /** The operations numbered from one on, in the order of the protocol. */
  const OPERATIONS: seq<Opcode> := [
    Find, FindOne, InsertOne, InsertMany, UpdateOne, UpdateMany, DeleteOne, DeleteMany, Aggregate,
    CountDocuments, CreateIndex, ListCollections, RunCommand, FindOneAndUpdate, FindOneAndDelete,
    BulkWrite, Distinct, CreateCollection, DropCollection]

  /** Operations are numbered consecutively; errors and handshakes take the last two codes. */
  lemma OpcodeNumbers(i: nat)
    ensures |OPERATIONS| == 19 && (i < 19 ==> OPERATIONS[i].Code() as int == i + 1)
    ensures Error.Code() == 62 && Handshake.Code() == 63
  {
    if i < 7 {
    } else if i < 13 {
    } else {
    }
  }

  lemma PriorityNumbers()
    ensures Normal.Code() == 0 && Low.Code() == 1 && High.Code() == 2 && Critical.Code() == 3
  {
  }

  /** Which bits of the word hold what. */
  lemma FlagsLayout(f: Flags)
    ensures var word := FlagsWord(f);
      && (word & 0x3F) as bv8 == f.opcode.Code()
      && ((word >> 6) & 1 == 1) == f.endOfStream
      && ((word >> 7) & 1 == 1) == f.noReply
      && ((word >> 8) & 1 == 1) == f.batchFollows
      && ((word >> 9) & 0x03) as bv8 == f.priority.Code()
  {
    OpcodeRoundTrip(f.opcode);
    PriorityRoundTrip(f.priority);
    Unpack(FlagsWord(f), f.opcode.Code(), f.endOfStream, f.noReply, f.batchFollows, f.priority.Code());
  }

  /** Encoding undoes decoding, up to the five reserved bits; a word is refused only for an
      opcode that does not exist. */
  lemma WordRoundTrip(bits: bv16)
    ensures DecodeFlags(bits).Success? ==> FlagsWord(DecodeFlags(bits).value) == bits & 0x07FF
    ensures DecodeFlags(bits).Success? <==> exists opcode: Opcode :: opcode.Code() == (bits & 0x3F) as bv8
  {
    var code, priority := (bits & 0x3F) as bv8, ((bits >> 9) & 0x03) as bv8;
    OpcodeFromCode(code);
    PriorityBits(bits);
    PriorityFromCode(priority);
    Repack(bits);
    if opcode: Opcode :| opcode.Code() == code {
      OpcodeRoundTrip(opcode);
    }
  }

  datatype FrameHeader = FrameHeader(msgLen: U32, flags: Flags, reqId: U32)

  function HeaderBytes(h: FrameHeader): (bytes: seq<Byte>)
    ensures |bytes| == HEADER_SIZE
  {
    U32ToBe(h.msgLen) + U16ToBe(FlagsWord(h.flags)) + U32ToBe(h.reqId)
  }

  method EncodeHeader(h: FrameHeader) returns (buf: array<Byte>)
    ensures fresh(buf) && buf[..] == HeaderBytes(h)
  {
    buf := new Byte[HEADER_SIZE](_ => 0);
    var word := EncodeFlags(h.flags);
    CopyInto(buf, 0, U32ToBe(h.msgLen));
    CopyInto(buf, 4, U16ToBe(word));
    CopyInto(buf, 6, U32ToBe(h.reqId));
  }

  method CopyInto(buf: array<Byte>, at: nat, bytes: seq<Byte>)
    requires at + |bytes| <= buf.Length
    modifies buf
    ensures buf[..] == old(buf[..at]) + bytes + old(buf[at + |bytes|..])
  {
    forall i | 0 <= i < |bytes| {
      buf[at + i] := bytes[i];
    }
  }

  function DecodeHeader(bytes: seq<Byte>): Result<FrameHeader, FrameError>
    requires |bytes| == HEADER_SIZE
  {
    var flags :- DecodeFlags(U16FromBe(bytes[4..6]));
    Success(FrameHeader(U32FromBe(bytes[..4]), flags, U32FromBe(bytes[6..])))
  }

  /** Where a header holds what: four bytes of length, two of flags, four of request id, each the most
      significant byte first. */
  lemma HeaderLayout(h: FrameHeader)
    ensures var bytes := HeaderBytes(h);
      && |bytes| == 10
      && Number(bytes[..4]) == h.msgLen
      && bytes[4] == (FlagsWord(h.flags) >> 8) as int && bytes[5] == (FlagsWord(h.flags) & 0xFF) as int
      && Number(bytes[6..]) == h.reqId
  {
    hide FlagsWord;
    var bytes := HeaderBytes(h);
    assert bytes[..4] == U32ToBe(h.msgLen) && bytes[4..6] == U16ToBe(FlagsWord(h.flags)) && bytes[6..] == U32ToBe(h.reqId);
    assert bytes[4] == bytes[4..6][0] && bytes[5] == bytes[4..6][1];
    BigEndian(h.msgLen);
    BigEndian(h.reqId);
    BigEndianWord(FlagsWord(h.flags));
  }

  lemma HeaderRoundTrip(h: FrameHeader)
    ensures DecodeHeader(HeaderBytes(h)) == Success(h)
  {
    var bytes := HeaderBytes(h);
    assert bytes[..4] == U32ToBe(h.msgLen) && bytes[4..6] == U16ToBe(FlagsWord(h.flags)) && bytes[6..] == U32ToBe(h.reqId);
    U32BeRoundTrip(h.msgLen);
    U16BeRoundTrip(FlagsWord(h.flags));
    FlagsRoundTrip(h.flags);
    U32BeRoundTrip(h.reqId);
  }

  datatype Frame = Frame(header: FrameHeader, envelope: seq<Byte>, rawDocs: seq<Byte>)
}
