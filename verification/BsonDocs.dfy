/** Concatenated BSON documents: cutting a byte string into documents, and producing one. */
module BsonDocs {
  import opened Bytes
  import opened Wrappers

  datatype ParseError =
    | IncompletePrefix(offset: nat)
    | InvalidLength(offset: nat)
    | BeyondBuffer(offset: nat)
    | Undecodable(offset: nat)

  /** The bytes of one document: they begin with their own length and the decoder accepts them. */
  predicate IsDocument<D>(decode: seq<Byte> -> Option<D>, bytes: seq<Byte>) {
    |bytes| >= 5 && U32FromLe(bytes[..4]) == |bytes| && decode(bytes).Some?
  }

  predicate AreDocuments<D>(decode: seq<Byte> -> Option<D>, segments: seq<seq<Byte>>) {
    forall segment | segment in segments :: IsDocument(decode, segment)
  }

  function Concat(segments: seq<seq<Byte>>): seq<Byte> {
    if segments == [] then [] else segments[0] + Concat(segments[1..])
  }

  function Decoded<D>(decode: seq<Byte> -> Option<D>, segments: seq<seq<Byte>>): (docs: seq<D>)
    requires AreDocuments(decode, segments)
    ensures |docs| == |segments|
    ensures forall i | 0 <= i < |segments| :: decode(segments[i]) == Some(docs[i])
  {
    assert forall i | 0 <= i < |segments| :: IsDocument(decode, segments[i]);
    seq(|segments|, i requires 0 <= i < |segments| && decode(segments[i]).Some? => decode(segments[i]).value)
  }

  /** Why no document starts where `rest` does, if none does; `offset` is where that is in the input. */
  function Fault<D>(decode: seq<Byte> -> Option<D>, rest: seq<Byte>, offset: nat): Option<ParseError> {
    if |rest| < 4 then Some(IncompletePrefix(offset))
    else
      var len := U32FromLe(rest[..4]);
      if len < 5 then Some(InvalidLength(offset))
      else if len > |rest| then Some(BeyondBuffer(offset))
      else if decode(rest[..len]).None? then Some(Undecodable(offset))
      else None
  }

  /** What a parse may answer: the documents the input consists of, or the fault at the first
      offset at which no document starts. */
  ghost predicate ParseOutcome<D>(decode: seq<Byte> -> Option<D>, raw: seq<Byte>, r: Result<seq<D>, ParseError>) {
    match r
    case Success(docs) =>
      exists segments :: Cut(decode, raw, segments, []) && docs == Decoded(decode, segments)
    case Failure(error) =>
      exists segments, rest :: Cut(decode, raw, segments, rest) && rest != []
        && Some(error) == Fault(decode, rest, |Concat(segments)|)
  }

  predicate Cut<D>(decode: seq<Byte> -> Option<D>, raw: seq<Byte>, segments: seq<seq<Byte>>, rest: seq<Byte>) {
    AreDocuments(decode, segments) && raw == Concat(segments) + rest
  }

  method ParseBsonDocs<D>(decode: seq<Byte> -> Option<D>, raw: seq<Byte>) returns (r: Result<seq<D>, ParseError>)
    ensures ParseOutcome(decode, raw, r)
  {
    var docs: seq<D> := [];
    var offset := 0;
    ghost var segments: seq<seq<Byte>> := [];
    while offset < |raw|
      invariant offset <= |raw|
      invariant AreDocuments(decode, segments) && Concat(segments) == raw[..offset]
      invariant docs == Decoded(decode, segments)
      decreases |raw| - offset
    {
      ghost var rest := raw[offset..];
      assert Cut(decode, raw, segments, rest);
      assert |rest| < 4 || rest[..4] == raw[offset..offset + 4];
      if |raw| - offset < 4 {
        return Failure(IncompletePrefix(offset));
      }
      var len := U32FromLe(raw[offset..offset + 4]);
      if len < 5 {
        return Failure(InvalidLength(offset));
      }
      if offset + len > |raw| {
        return Failure(BeyondBuffer(offset));
      }
      var bytes := raw[offset..offset + len];
      assert rest[..len] == bytes;
      var doc := decode(bytes);
      if doc.None? {
        return Failure(Undecodable(offset));
      }
      assert bytes[..4] == raw[offset..offset + 4];
      ConcatAppend(segments, bytes);
      assert raw[..offset + len] == raw[..offset] + bytes;
      segments := segments + [bytes];
      docs := docs + [doc.value];
      offset := offset + len;
    }
    assert raw[..offset] == raw && Concat(segments) + [] == raw;
    assert Cut(decode, raw, segments, []);
    return Success(docs);
  }

  lemma {:induction false} ConcatAppend(segments: seq<seq<Byte>>, last: seq<Byte>)
    ensures Concat(segments + [last]) == Concat(segments) + last
  {
    if segments == [] {
      assert [last][1..] == [];
      assert last + [] == last;
    } else {
      ConcatAppend(segments[1..], last);
      assert (segments + [last])[1..] == segments[1..] + [last];
    }
  }

  /** Documents followed by something at which no document starts can be cut in one way only. */
  lemma {:induction false} SegmentationUnique<D>(decode: seq<Byte> -> Option<D>, s: seq<seq<Byte>>, t: seq<seq<Byte>>,
                                                 restS: seq<Byte>, restT: seq<Byte>)
    requires AreDocuments(decode, s) && AreDocuments(decode, t)
    requires Concat(s) + restS == Concat(t) + restT
    requires restS != [] ==> Fault(decode, restS, |Concat(s)|).Some?
    requires restT != [] ==> Fault(decode, restT, |Concat(t)|).Some?
    ensures s == t && restS == restT
    decreases |s| + |t|
  {
    assert [] + restS == restS && [] + restT == restT;
    if s != [] {
      StartsWithFirst(decode, s, restS);
    }
    if t != [] {
      StartsWithFirst(decode, t, restT);
    }
    if s != [] && t != [] {
      SegmentationUnique(decode, s[1..], t[1..], restS, restT);
      assert s == [s[0]] + s[1..] && t == [t[0]] + t[1..];
    }
  }

  lemma StartsWithFirst<D>(decode: seq<Byte> -> Option<D>, s: seq<seq<Byte>>, rest: seq<Byte>)
    requires AreDocuments(decode, s) && s != []
    ensures AreDocuments(decode, s[1..])
    ensures var raw := Concat(s) + rest;
      && |raw| >= |s[0]| >= 5 && raw[..|s[0]|] == s[0] && U32FromLe(raw[..4]) == |s[0]|
      && raw[|s[0]|..] == Concat(s[1..]) + rest
      && forall offset :: Fault(decode, raw, offset).None?
  {
    var first, tail := s[0], Concat(s[1..]);
    assert Concat(s) == first + tail;
    assert IsDocument(decode, first) && AreDocuments(decode, s[1..]) by {
      TailOfDocuments(decode, s);
    }
    hide Concat, Fault, AreDocuments;
    Regroup(first, tail, rest);
    FirstOfJoin(decode, first, tail + rest);
  }

  lemma TailOfDocuments<D>(decode: seq<Byte> -> Option<D>, s: seq<seq<Byte>>)
    requires AreDocuments(decode, s) && s != []
    ensures IsDocument(decode, s[0]) && AreDocuments(decode, s[1..])
  {
    hide IsDocument;
  }

  lemma Regroup(a: seq<Byte>, b: seq<Byte>, c: seq<Byte>)
    ensures a + b + c == a + (b + c)
  {
  }

  lemma FirstOfJoin<D>(decode: seq<Byte> -> Option<D>, first: seq<Byte>, rest: seq<Byte>)
    requires IsDocument(decode, first)
    ensures (first + rest)[..4] == first[..4] && (first + rest)[..|first|] == first && (first + rest)[|first|..] == rest
    ensures forall offset :: Fault(decode, first + rest, offset).None?
  {
    assert (first + rest)[..4] == first[..4];
    assert (first + rest)[..|first|] == first;
  }

  /** There is one answer for every input. */
  lemma ParseDetermined<D>(decode: seq<Byte> -> Option<D>, raw: seq<Byte>,
                           r: Result<seq<D>, ParseError>, r': Result<seq<D>, ParseError>)
    requires ParseOutcome(decode, raw, r) && ParseOutcome(decode, raw, r')
    ensures r == r'
  {
    var s, rest := CutOf(decode, raw, r);
    var s', rest' := CutOf(decode, raw, r');
    SegmentationUnique(decode, s, s', rest, rest');
  }

  lemma CutOf<D>(decode: seq<Byte> -> Option<D>, raw: seq<Byte>, r: Result<seq<D>, ParseError>)
    returns (segments: seq<seq<Byte>>, rest: seq<Byte>)
    requires ParseOutcome(decode, raw, r)
    ensures Cut(decode, raw, segments, rest)
    ensures r.Success? <==> rest == []
    ensures r.Success? ==> r.value == Decoded(decode, segments)
    ensures r.Failure? ==> Some(r.error) == Fault(decode, rest, |Concat(segments)|)
  {
    if r.Success? {
      segments :| Cut(decode, raw, segments, []) && r.value == Decoded(decode, segments);
      rest := [];
    } else {
      segments, rest :| Cut(decode, raw, segments, rest) && rest != []
        && Some(r.error) == Fault(decode, rest, |Concat(segments)|);
    }
  }

  /** Parsing succeeds exactly on the concatenations of documents, and recovers them in order. */
  lemma ParseInvertsConcat<D>(decode: seq<Byte> -> Option<D>, raw: seq<Byte>, r: Result<seq<D>, ParseError>)
    requires ParseOutcome(decode, raw, r)
    ensures r.Success? <==> exists segments :: Cut(decode, raw, segments, [])
    ensures forall segments | Cut(decode, raw, segments, []) :: r == Success(Decoded(decode, segments))
  {
    forall segments | Cut(decode, raw, segments, []) ensures r == Success(Decoded(decode, segments)) {
      ParseDetermined(decode, raw, r, Success(Decoded(decode, segments)));
    }
    var cut, rest := CutOf(decode, raw, r);
  }

  // In bytes

  /** Bytes that begin with their own little-endian length, and that the decoder accepts, are one
      document. */
  lemma OneDocumentParses<D>(decode: seq<Byte> -> Option<D>, n: nat, body: seq<Byte>, r: Result<seq<D>, ParseError>)
    requires n == |body| + 4 < 0x1_0000_0000 && n >= 5
    requires var raw: seq<Byte> := [n % 256, n / 256 % 256, n / 65536 % 256, n / 16777216] + body;
      decode(raw).Some? && ParseOutcome(decode, raw, r)
    ensures var raw: seq<Byte> := [n % 256, n / 256 % 256, n / 65536 % 256, n / 16777216] + body;
      r == Success([decode(raw).value])
  {
    hide ParseOutcome, U32FromLe;
    var prefix: seq<Byte> := [n % 256, n / 256 % 256, n / 65536 % 256, n / 16777216];
    var raw := prefix + body;
    assert raw[..4] == prefix;
    LittleEndianForm(n);
    assert Concat([raw]) == raw + Concat([]) == raw;
    var one := [raw];
    assert IsDocument(decode, raw) && AreDocuments(decode, one);
    assert raw + [] == raw;
    assert Cut(decode, raw, one, []);
    ParseInvertsConcat(decode, raw, r);
    assert Decoded(decode, one) == [decode(raw).value];
  }

  /** Behind any documents, what does not begin one is reported where it begins: too few bytes for a
      length, a length below five, one beyond the end, or bytes the decoder refuses. */
  lemma FaultsAreReported<D>(decode: seq<Byte> -> Option<D>, segments: seq<seq<Byte>>, n: nat, body: seq<Byte>,
                             r: Result<seq<D>, ParseError>)
    requires AreDocuments(decode, segments) && n < 0x1_0000_0000
    requires var rest: seq<Byte> := [n % 256, n / 256 % 256, n / 65536 % 256, n / 16777216] + body;
      ParseOutcome(decode, Concat(segments) + rest, r)
    ensures var rest: seq<Byte> := [n % 256, n / 256 % 256, n / 65536 % 256, n / 16777216] + body;
      var offset := |Concat(segments)|;
      && (n < 5 ==> r == Failure(InvalidLength(offset)))
      && (n >= 5 && n > |rest| ==> r == Failure(BeyondBuffer(offset)))
      && (5 <= n <= |rest| && decode(rest[..n]).None? ==> r == Failure(Undecodable(offset)))
  {
    var prefix: seq<Byte> := [n % 256, n / 256 % 256, n / 65536 % 256, n / 16777216];
    var rest := prefix + body;
    assert rest[..4] == prefix;
    LittleEndianForm(n);
    if Fault(decode, rest, |Concat(segments)|).Some? {
      FaultDecides(decode, segments, rest, r);
    }
  }

  lemma ShortRestIsReported<D>(decode: seq<Byte> -> Option<D>, segments: seq<seq<Byte>>, rest: seq<Byte>,
                               r: Result<seq<D>, ParseError>)
    requires AreDocuments(decode, segments) && 0 < |rest| < 4 && ParseOutcome(decode, Concat(segments) + rest, r)
    ensures r == Failure(IncompletePrefix(|Concat(segments)|))
  {
    FaultDecides(decode, segments, rest, r);
  }

  lemma FaultDecides<D>(decode: seq<Byte> -> Option<D>, segments: seq<seq<Byte>>, rest: seq<Byte>, r: Result<seq<D>, ParseError>)
    requires AreDocuments(decode, segments) && rest != [] && Fault(decode, rest, |Concat(segments)|).Some?
    requires ParseOutcome(decode, Concat(segments) + rest, r)
    ensures r == Failure(Fault(decode, rest, |Concat(segments)|).value)
  {
    var error := Fault(decode, rest, |Concat(segments)|).value;
    var raw := Concat(segments) + rest;
    assert Cut(decode, raw, segments, rest);
    var expected: Result<seq<D>, ParseError> := Failure(error);
    assert ParseOutcome(decode, raw, expected);
    ParseDetermined(decode, raw, r, expected);
  }

  // Producers of such byte strings

  /** One step of a driver cursor: a document, or a failure of the cursor or of reading it. */
  datatype CursorStep<T> = Row(doc: T) | Broken

  /** The documents a cursor delivers, unless it breaks on the way. */
  function Rows<T>(cursor: seq<CursorStep<T>>): (docs: Option<seq<T>>)
    ensures docs.Some? <==> forall i | 0 <= i < |cursor| :: cursor[i].Row?
    ensures docs.Some? ==> |docs.value| == |cursor| && forall i | 0 <= i < |cursor| :: cursor[i] == Row(docs.value[i])
  {
    if exists i | 0 <= i < |cursor| :: cursor[i].Broken? then None
    else Some(seq(|cursor|, i requires 0 <= i < |cursor| && cursor[i].Row? => cursor[i].doc))
  }

  /** The count is a 32-bit number. */
  function Counted(segments: seq<seq<Byte>>): (U32, seq<Byte>) {
    (|segments| % 0x1_0000_0000, Concat(segments))
  }

  method FindRaw(cursor: seq<CursorStep<seq<Byte>>>) returns (r: Option<(U32, seq<Byte>)>)
    ensures r == if Rows(cursor).Some? then Some(Counted(Rows(cursor).value)) else None
  {
    var count: U32 := 0;
    var rawBytes: seq<Byte> := [];
    ghost var docs: seq<seq<Byte>> := [];
    for i := 0 to |cursor|
      invariant |docs| == i && forall j | 0 <= j < i :: cursor[j] == Row(docs[j])
      invariant (count, rawBytes) == Counted(docs)
    {
      if cursor[i].Broken? {
        return None;
      }
      ConcatAppend(docs, cursor[i].doc);
      docs := docs + [cursor[i].doc];
      rawBytes := rawBytes + cursor[i].doc;
      count := (count + 1) % 0x1_0000_0000;
    }
    assert docs == Rows(cursor).value;
    return Some((count, rawBytes));
  }

  /** The bytes of every row, unless one of them cannot be serialized. */
  function Serialized<D>(encode: D -> Option<seq<Byte>>, docs: seq<D>): (segments: Option<seq<seq<Byte>>>)
    ensures segments.Some? <==> forall i | 0 <= i < |docs| :: encode(docs[i]).Some?
    ensures segments.Some? ==> |segments.value| == |docs| && forall i | 0 <= i < |docs| :: encode(docs[i]) == Some(segments.value[i])
  {
    if exists i | 0 <= i < |docs| :: encode(docs[i]).None? then None
    else Some(seq(|docs|, i requires 0 <= i < |docs| && encode(docs[i]).Some? => encode(docs[i]).value))
  }

  function AggregateResult<D>(encode: D -> Option<seq<Byte>>, cursor: seq<CursorStep<D>>): Option<(U32, seq<Byte>)> {
    match Rows(cursor)
    case None => None
    case Some(docs) =>
      match Serialized(encode, docs)
      case None => None
      case Some(segments) => Some(Counted(segments))
  }

  method AggregateRaw<D>(encode: D -> Option<seq<Byte>>, cursor: seq<CursorStep<D>>) returns (r: Option<(U32, seq<Byte>)>)
    ensures r == AggregateResult(encode, cursor)
  {
    var count: U32 := 0;
    var rawBytes: seq<Byte> := [];
    ghost var docs: seq<D> := [];
    ghost var segments: seq<seq<Byte>> := [];
    for i := 0 to |cursor|
      invariant |docs| == |segments| == i
      invariant forall j | 0 <= j < i :: cursor[j] == Row(docs[j]) && encode(docs[j]) == Some(segments[j])
      invariant (count, rawBytes) == Counted(segments)
    {
      if cursor[i].Broken? {
        return None;
      }
      var bytes := encode(cursor[i].doc);
      if bytes.None? {
        assert Rows(cursor).Some? ==> encode(Rows(cursor).value[i]).None?;
        return None;
      }
      ConcatAppend(segments, bytes.value);
      docs := docs + [cursor[i].doc];
      segments := segments + [bytes.value];
      rawBytes := rawBytes + bytes.value;
      count := (count + 1) % 0x1_0000_0000;
    }
    assert Rows(cursor).Some? && Rows(cursor).value == docs;
    assert Serialized(encode, docs).Some? && Serialized(encode, docs).value == segments;
    return Some((count, rawBytes));
  }

  /** What a raw query returns parses back to its rows, in cursor order and as many as counted. */
  lemma FindRawParses<D>(decode: seq<Byte> -> Option<D>, cursor: seq<CursorStep<seq<Byte>>>, r: Result<seq<D>, ParseError>)
    requires Rows(cursor).Some? && AreDocuments(decode, Rows(cursor).value)
    requires ParseOutcome(decode, Counted(Rows(cursor).value).1, r)
    ensures r == Success(Decoded(decode, Rows(cursor).value))
    ensures |r.value| % 0x1_0000_0000 == Counted(Rows(cursor).value).0
  {
    var segments := Rows(cursor).value;
    assert Concat(segments) + [] == Concat(segments);
    assert Cut(decode, Concat(segments), segments, []);
    ParseInvertsConcat(decode, Concat(segments), r);
  }

  /** A serializer whose output the decoder accepts and reads back. */
  ghost predicate Inverts<D(!new)>(decode: seq<Byte> -> Option<D>, encode: D -> Option<seq<Byte>>) {
    forall d :: encode(d).Some? ==> IsDocument(decode, encode(d).value) && decode(encode(d).value) == Some(d)
  }

  /** An aggregation's bytes parse back to the very documents the cursor delivered. */
  lemma AggregateRawParses<D(!new)>(decode: seq<Byte> -> Option<D>, encode: D -> Option<seq<Byte>>,
                                    cursor: seq<CursorStep<D>>, r: Result<seq<D>, ParseError>)
    requires Inverts(decode, encode) && AggregateResult(encode, cursor).Some?
    requires ParseOutcome(decode, AggregateResult(encode, cursor).value.1, r)
    ensures r == Success(Rows(cursor).value)
  {
    var docs := Rows(cursor).value;
    var segments := Serialized(encode, docs).value;
    forall i | 0 <= i < |segments| ensures IsDocument(decode, segments[i]) && decode(segments[i]) == Some(docs[i]) {
      assert encode(docs[i]) == Some(segments[i]);
    }
    assert AreDocuments(decode, segments);
    assert Concat(segments) + [] == Concat(segments);
    assert Cut(decode, Concat(segments), segments, []);
    ParseInvertsConcat(decode, Concat(segments), r);
    assert Decoded(decode, segments) == docs;
  }
}
