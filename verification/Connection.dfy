/** The request loop of one connection, after its handshake. */
module Connection {
  import opened Bytes
  import opened Wrappers
  import opened FrameFormat
  import opened RequestQueue

  datatype Response = ErrorResponse(code: int, message: string) | Answer(body: string)

  /** The envelope codec: why an envelope is invalid, if it is, and the bytes of a response. */
  datatype Codec = Codec(invalid: Frame -> Option<string>, encode: Response -> Option<(seq<Byte>, seq<Byte>)>)

  /** What the environment does while one more frame is served: what arrives if nothing is queued,
      which frames are there at once besides, what the operation answers, and how writing fares. */
  datatype Turn = Turn(idle: Idle, extra: seq<Frame>, reply: Response, fault: Fault)

  datatype Idle = Arrives(frame: Frame) | ReadFails | Shutdown(requested: bool)

  /** A fault lets `writes` more frames out, and then refuses a frame or, if none is left, the flush. */
  datatype Fault = NoFault | Fault(writes: nat, flushes: bool)

  datatype End = Open | Disconnected | ShutDown | WriteFailed

  datatype Served = Served(frame: Frame, reply: Response)

  // What is owed for the frames served

  function ResponseFrame(opcode: Opcode, reqId: U32, content: (seq<Byte>, seq<Byte>)): Frame {
    Frame(FrameHeader(0, Flags(opcode, true, false, false, Normal), reqId), content.0, content.1)
  }

  function ErrorFrame(codec: Codec, reqId: U32, message: string): seq<Frame> {
    match codec.encode(ErrorResponse(1, message))
    case None => []
    case Some(content) => [ResponseFrame(Error, reqId, content)]
  }

  /** The response frame one served frame gives rise to, if any. */
  function AnswerTo(codec: Codec, served: Served): seq<Frame> {
    var header := served.frame.header;
    if header.flags.noReply then []
    else
      match codec.invalid(served.frame)
      case Some(message) => ErrorFrame(codec, header.reqId, "invalid envelope: " + message)
      case None =>
        match codec.encode(served.reply)
        case None => ErrorFrame(codec, header.reqId, "internal encoding error")
        case Some(content) =>
          [ResponseFrame(if served.reply.ErrorResponse? then Error else header.flags.opcode, header.reqId, content)]
  }

  /** Serving this frame ends a batch and pushes everything buffered out. */
  predicate Flushes(codec: Codec, served: Served) {
    && !served.frame.header.flags.batchFollows
    && if served.frame.header.flags.noReply then codec.invalid(served.frame).None? else AnswerTo(codec, served) != []
  }

  /** What serving a frame means for the output. */
  datatype Outcome = Outcome(answer: seq<Frame>, flushes: bool)

  function Outcomes(codec: Codec, log: seq<Served>): seq<Outcome> {
    seq(|log|, i requires 0 <= i < |log| => Outcome(AnswerTo(codec, log[i]), Flushes(codec, log[i])))
  }

  function Owed(outcomes: seq<Outcome>): seq<Frame> {
    if outcomes == [] then []
    else Owed(outcomes[..|outcomes| - 1]) + outcomes[|outcomes| - 1].answer
  }

  /** How many outcomes lie before the end of the last flush. */
  function LastFlush(outcomes: seq<Outcome>): (n: nat)
    ensures n <= |outcomes|
  {
    if outcomes == [] then 0
    else if outcomes[|outcomes| - 1].flushes then |outcomes|
    else LastFlush(outcomes[..|outcomes| - 1])
  }

  /** Everything owed up to the last flush is written, everything owed since then is buffered. */
  predicate Delivered(outcomes: seq<Outcome>, written: seq<Frame>, pending: seq<Frame>) {
    && written == Owed(outcomes[..LastFlush(outcomes)])
    && pending == Owed(outcomes[LastFlush(outcomes)..])
  }

  lemma Regroup<T>(a: seq<T>, b: seq<T>, c: seq<T>)
    ensures a + (b + c) == a + b + c
  {
  }

  lemma {:induction false} OwedSplits(a: seq<Outcome>, b: seq<Outcome>)
    ensures Owed(a + b) == Owed(a) + Owed(b)
  {
    if b == [] {
      assert a + b == a;
    } else {
      var n := |b| - 1;
      OwedSplits(a, b[..n]);
      assert (a + b)[..|a| + n] == a + b[..n];
      Regroup(Owed(a), Owed(b[..n]), b[n].answer);
    }
  }

  lemma OwedAppend(outcomes: seq<Outcome>, last: Outcome)
    ensures Owed(outcomes + [last]) == Owed(outcomes) + last.answer
  {
    assert (outcomes + [last])[..|outcomes|] == outcomes;
  }

  lemma BufferedStep(outcomes: seq<Outcome>, written: seq<Frame>, pending: seq<Frame>, last: Outcome)
    requires Delivered(outcomes, written, pending) && !last.flushes
    ensures Delivered(outcomes + [last], written, pending + last.answer)
  {
    var n := LastFlush(outcomes);
    var outcomes' := outcomes + [last];
    assert outcomes'[..|outcomes|] == outcomes;
    assert LastFlush(outcomes') == n;
    assert outcomes'[..n] == outcomes[..n];
    assert outcomes'[n..] == outcomes[n..] + [last];
    OwedAppend(outcomes[n..], last);
  }

  lemma FlushedStep(outcomes: seq<Outcome>, written: seq<Frame>, pending: seq<Frame>, last: Outcome)
    requires Delivered(outcomes, written, pending) && last.flushes
    ensures Delivered(outcomes + [last], written + (pending + last.answer), [])
  {
    var n := LastFlush(outcomes);
    var outcomes' := outcomes + [last];
    assert LastFlush(outcomes') == |outcomes'|;
    assert outcomes'[..|outcomes'|] == outcomes' && outcomes'[|outcomes'|..] == [];
    OwedAppend(outcomes, last);
    assert outcomes[..n] + outcomes[n..] == outcomes;
    OwedSplits(outcomes[..n], outcomes[n..]);
    Regroup(written, pending, last.answer);
  }

  lemma OutcomesAppend(codec: Codec, log: seq<Served>, last: Served)
    ensures Outcomes(codec, log + [last]) == Outcomes(codec, log) + [Outcome(AnswerTo(codec, last), Flushes(codec, last))]
  {
  }

  /** The codec can always say that something went wrong. */
  ghost predicate EncodesErrors(codec: Codec) {
    forall code, message :: codec.encode(ErrorResponse(code, message)).Some?
  }

  predicate WantsReply(served: Served) {
    !served.frame.header.flags.noReply
  }

  function ReqIds(frames: seq<Frame>): seq<U32> {
    seq(|frames|, i requires 0 <= i < |frames| => frames[i].header.reqId)
  }

  function WantedId(served: Served): seq<U32> {
    if WantsReply(served) then [served.frame.header.reqId] else []
  }

  function WantedIds(log: seq<Served>): seq<U32> {
    if log == [] then [] else WantedIds(log[..|log| - 1]) + WantedId(log[|log| - 1])
  }

  lemma AnswersUnderItsId(codec: Codec, served: Served)
    requires EncodesErrors(codec)
    ensures ReqIds(AnswerTo(codec, served)) == WantedId(served)
  {
  }

  /** One response is owed for each frame that wants one, under its request id and in the order
      of service; none for the others. */
  lemma {:induction false} OneResponseEach(codec: Codec, log: seq<Served>)
    requires EncodesErrors(codec)
    ensures ReqIds(Owed(Outcomes(codec, log))) == WantedIds(log)
  {
    if log != [] {
      var before, last := log[..|log| - 1], log[|log| - 1];
      OneResponseEach(codec, before);
      AnswersUnderItsId(codec, last);
      assert before + [last] == log;
      OutcomesAppend(codec, before, last);
      OwedAppend(Outcomes(codec, before), Outcome(AnswerTo(codec, last), Flushes(codec, last)));
      ReqIdsAppend(Owed(Outcomes(codec, before)), AnswerTo(codec, last));
    }
  }

  lemma ReqIdsAppend(a: seq<Frame>, b: seq<Frame>)
    ensures ReqIds(a + b) == ReqIds(a) + ReqIds(b)
  {
  }

  /** Along a run without write faults the responses written, and then those buffered, are
      exactly one for each frame served that wants one. */
  lemma ExactlyOneResponse(codec: Codec, log: seq<Served>, written: seq<Frame>, pending: seq<Frame>)
    requires EncodesErrors(codec) && Delivered(Outcomes(codec, log), written, pending)
    ensures ReqIds(written + pending) == WantedIds(log)
  {
    hide Owed, Outcomes, LastFlush, ReqIds, WantedIds, EncodesErrors;
    var outcomes := Outcomes(codec, log);
    var n := LastFlush(outcomes);
    OwedSplits(outcomes[..n], outcomes[n..]);
    assert outcomes[..n] + outcomes[n..] == outcomes;
    OneResponseEach(codec, log);
  }

  // What the responses say

  /** The frame answers under the request's id, ends its stream, asks for nothing, and carries the
      encoded content: envelope first, raw documents second. */
  predicate Says(answer: Frame, opcode: Opcode, reqId: U32, content: (seq<Byte>, seq<Byte>)) {
    var flags := answer.header.flags;
    && answer.header.reqId == reqId && flags.opcode == opcode
    && flags.endOfStream && !flags.noReply && !flags.batchFollows && flags.priority == Normal
    && answer.envelope == content.0 && answer.rawDocs == content.1
  }

  /** The frame is the right answer: the reply under the request's opcode, or as an error; the reason
      why the envelope is invalid; or that the reply could not be encoded. */
  predicate Answers(codec: Codec, served: Served, answer: Frame) {
    var reqId, opcode := served.frame.header.reqId, served.frame.header.flags.opcode;
    var invalid, reply := codec.invalid(served.frame), codec.encode(served.reply);
    && (invalid.None? && reply.Some? && !served.reply.ErrorResponse? ==> Says(answer, opcode, reqId, reply.value))
    && (invalid.None? && reply.Some? && served.reply.ErrorResponse? ==> Says(answer, Error, reqId, reply.value))
    && (invalid.Some? ==>
          var content := codec.encode(ErrorResponse(1, "invalid envelope: " + invalid.value));
          content.Some? && Says(answer, Error, reqId, content.value))
    && (invalid.None? && reply.None? ==>
          var content := codec.encode(ErrorResponse(1, "internal encoding error"));
          content.Some? && Says(answer, Error, reqId, content.value))
  }

  lemma RightAnswer(codec: Codec, served: Served)
    requires EncodesErrors(codec)
    ensures |AnswerTo(codec, served)| == if WantsReply(served) then 1 else 0
    ensures WantsReply(served) ==> Answers(codec, served, AnswerTo(codec, served)[0])
  {
  }

  /** The frames served that want a reply, in order. */
  function Wanting(log: seq<Served>): seq<Served> {
    if log == [] then []
    else Wanting(log[..|log| - 1]) + if WantsReply(log[|log| - 1]) then [log[|log| - 1]] else []
  }

  predicate AllAnswered(codec: Codec, wanting: seq<Served>, answers: seq<Frame>) {
    |answers| == |wanting| && forall i | 0 <= i < |answers| :: Answers(codec, wanting[i], answers[i])
  }

  /** What is owed for a run is the right answer to each frame that wants one, in order. */
  lemma {:induction false} RightAnswers(codec: Codec, log: seq<Served>)
    requires EncodesErrors(codec)
    ensures AllAnswered(codec, Wanting(log), Owed(Outcomes(codec, log)))
  {
    hide Answers, AnswerTo, Outcomes, Flushes, EncodesErrors;
    if log == [] {
      assert Outcomes(codec, log) == [] by {
        NoOutcomes(codec);
      }
    } else {
      var before, last := log[..|log| - 1], log[|log| - 1];
      RightAnswers(codec, before);
      RightAnswer(codec, last);
      assert before + [last] == log;
      OutcomesAppend(codec, before, last);
      OwedAppend(Outcomes(codec, before), Outcome(AnswerTo(codec, last), Flushes(codec, last)));
      hide AllAnswered, Owed;
      OneMoreAnswer(codec, Wanting(before), Owed(Outcomes(codec, before)), last);
    }
  }

  lemma OneMoreAnswer(codec: Codec, wanting: seq<Served>, answers: seq<Frame>, last: Served)
    requires AllAnswered(codec, wanting, answers)
    requires |AnswerTo(codec, last)| == if WantsReply(last) then 1 else 0
    requires WantsReply(last) ==> Answers(codec, last, AnswerTo(codec, last)[0])
    ensures AllAnswered(codec, wanting + if WantsReply(last) then [last] else [], answers + AnswerTo(codec, last))
  {
    hide Answers, AnswerTo;
  }

  lemma NoOutcomes(codec: Codec)
    ensures Outcomes(codec, []) == []
  {
  }

  /** Along a run without write faults the responses written, and then those buffered, are the right
      answers to the frames served that want one. */
  lemma ExactlyTheRightResponses(codec: Codec, log: seq<Served>, written: seq<Frame>, pending: seq<Frame>)
    requires EncodesErrors(codec) && Delivered(Outcomes(codec, log), written, pending)
    ensures AllAnswered(codec, Wanting(log), written + pending)
  {
    hide Owed, Outcomes, LastFlush, AllAnswered, Wanting, EncodesErrors;
    var outcomes := Outcomes(codec, log);
    var n := LastFlush(outcomes);
    OwedSplits(outcomes[..n], outcomes[n..]);
    assert outcomes[..n] + outcomes[n..] == outcomes;
    RightAnswers(codec, log);
  }

  /** A frame pushes everything owed out exactly if it has no batch-follows and was not both
      undecodable and without reply; then nothing stays buffered. */
  lemma NothingBufferedAtBatchEnd(codec: Codec, log: seq<Served>, last: Served, written: seq<Frame>, pending: seq<Frame>)
    requires EncodesErrors(codec) && Delivered(Outcomes(codec, log + [last]), written, pending)
    ensures Flushes(codec, last) <==>
      !last.frame.header.flags.batchFollows && !(last.frame.header.flags.noReply && codec.invalid(last.frame).Some?)
    ensures Flushes(codec, last) ==> pending == [] && written == Owed(Outcomes(codec, log + [last]))
  {
    AnswersUnderItsId(codec, last);
    OutcomesAppend(codec, log, last);
    var outcomes := Outcomes(codec, log + [last]);
    assert outcomes[..|outcomes|] == outcomes;
  }

  /** At the end of a batch the buffer is empty exactly if the frame was not both undecodable and
      without reply, or if nothing was waiting to be flushed anyway. */
  lemma EmptyAtBatchEnd(codec: Codec, log: seq<Served>, last: Served, written: seq<Frame>, pending: seq<Frame>)
    requires EncodesErrors(codec) && Delivered(Outcomes(codec, log + [last]), written, pending)
    requires !last.frame.header.flags.batchFollows
    ensures pending == []
      <==> !(last.frame.header.flags.noReply && codec.invalid(last.frame).Some?)
           || Owed(Outcomes(codec, log)[LastFlush(Outcomes(codec, log))..]) == []
  {
    hide Owed, Outcomes, AnswerTo, Flushes, LastFlush;
    NothingBufferedAtBatchEnd(codec, log, last, written, pending);
    if !Flushes(codec, last) {
      UnflushedEnd(codec, log, last, written, pending);
    }
  }

  lemma UnflushedEnd(codec: Codec, log: seq<Served>, last: Served, written: seq<Frame>, pending: seq<Frame>)
    requires Delivered(Outcomes(codec, log + [last]), written, pending)
    requires !Flushes(codec, last) && last.frame.header.flags.noReply
    ensures pending == Owed(Outcomes(codec, log)[LastFlush(Outcomes(codec, log))..])
  {
    hide Outcomes, Flushes;
    var before, outcome := Outcomes(codec, log), Outcome(AnswerTo(codec, last), Flushes(codec, last));
    var n := LastFlush(before);
    OutcomesAppend(codec, log, last);
    assert Delivered(before, Owed(before[..n]), Owed(before[n..]));
    BufferedStep(before, Owed(before[..n]), Owed(before[n..]), outcome);
    assert Owed(before[n..]) + [] == Owed(before[n..]);
  }

  /** A run that strands a response: a frame whose answer is buffered, and then the end of its
      batch, undecodable and without reply. */
  lemma StrandedResponse() returns (codec: Codec, log: seq<Served>, last: Served, pending: seq<Frame>)
    ensures EncodesErrors(codec) && !last.frame.header.flags.batchFollows
    ensures Delivered(Outcomes(codec, log + [last]), [], pending) && |pending| == 1
  {
    codec := Codec((f: Frame) => if f.envelope == [] then Some("empty") else None, (r: Response) => Some(([0], [])));
    var a := Frame(FrameHeader(0, Flags(Find, true, false, true, Normal), 1), [0], []);
    var b := Frame(FrameHeader(0, Flags(Find, true, true, false, Normal), 2), [], []);
    log, last := [Served(a, Answer(""))], Served(b, Answer(""));
    var first, second := Outcome(AnswerTo(codec, log[0]), false), Outcome([], false);
    assert [] + log == log;
    OutcomesAppend(codec, [], log[0]);
    OutcomesAppend(codec, log, last);
    assert Delivered([], [], []);
    BufferedStep([], [], [], first);
    BufferedStep([first], [], first.answer, second);
    assert [] + first.answer == first.answer && first.answer + [] == first.answer;
    assert [] + [first] == [first];
    pending := first.answer;
  }

  // Delivery under faults: order is kept and nothing is sent twice, whatever is lost.

  predicate Subsequence(s: seq<Frame>, t: seq<Frame>) {
    if s == [] then true
    else
      && t != []
      && (|| (s[|s| - 1] == t[|t| - 1] && Subsequence(s[..|s| - 1], t[..|t| - 1]))
          || Subsequence(s, t[..|t| - 1]))
  }

  lemma {:induction false} SubsequenceAppend(s: seq<Frame>, t: seq<Frame>, more: seq<Frame>)
    requires Subsequence(s, t)
    ensures Subsequence(s + more, t + more)
  {
    if more == [] {
      assert s + more == s && t + more == t;
    } else {
      var n := |more| - 1;
      SubsequenceAppend(s, t, more[..n]);
      assert (s + more)[..|s| + n] == s + more[..n] && (t + more)[..|t| + n] == t + more[..n];
    }
  }

  lemma {:induction false} SubsequenceShorten(s: seq<Frame>, t: seq<Frame>)
    requires Subsequence(s, t) && s != []
    ensures Subsequence(s[..|s| - 1], t)
    decreases |t|
  {
    var s', t' := s[..|s| - 1], t[..|t| - 1];
    if s[|s| - 1] == t[|t| - 1] && Subsequence(s', t') {
    } else {
      SubsequenceShorten(s, t');
    }
  }

  lemma {:induction false} SubsequencePrefix(s: seq<Frame>, t: seq<Frame>, k: nat)
    requires Subsequence(s, t) && k <= |s|
    ensures Subsequence(s[..k], t)
    decreases |s|
  {
    if k == |s| {
      assert s[..k] == s;
    } else {
      SubsequenceShorten(s, t);
      SubsequencePrefix(s[..|s| - 1], t, k);
      assert s[..|s| - 1][..k] == s[..k];
    }
  }

  // Scheduling

  /** In each class, what was read is what was taken, in the same order, and then what is queued. */
  predicate Scheduled(arrived: seq<PendingRequest>, taken: seq<PendingRequest>, q: Queues) {
    && ScheduledIn(Urgent, arrived, taken, q)
    && ScheduledIn(Ordinary, arrived, taken, q)
    && ScheduledIn(Background, arrived, taken, q)
  }

  predicate ScheduledIn(c: Class, arrived: seq<PendingRequest>, taken: seq<PendingRequest>, q: Queues) {
    OfClass(arrived, c) == OfClass(taken, c) + q.At(c)
  }

  predicate Sorted(q: Queues) {
    SortedIn(Urgent, q.high) && SortedIn(Ordinary, q.normal) && SortedIn(Background, q.low)
  }

  predicate SortedIn(c: Class, requests: seq<PendingRequest>) {
    forall r | r in requests :: ClassOf(r) == c && r == Request(r.frame)
  }

  lemma ScheduledRead(arrived: seq<PendingRequest>, taken: seq<PendingRequest>, q: Queues, r: PendingRequest)
    requires Scheduled(arrived, taken, q) && q.Empty()
    ensures Scheduled(arrived + [r], taken + [r], q)
  {
    forall c ensures ScheduledIn(c, arrived, taken, q) ==> ScheduledIn(c, arrived + [r], taken + [r], q) {
      TakenAppend(arrived, r, c);
      TakenAppend(taken, r, c);
      assert q.At(c) == [];
    }
  }

  lemma MoveHead<T>(a: seq<T>, b: seq<T>)
    requires b != []
    ensures a + b == a + [b[0]] + b[1..]
  {
  }

  lemma TakenAppend(taken: seq<PendingRequest>, r: PendingRequest, c: Class)
    ensures OfClass(taken + [r], c) == OfClass(taken, c) + if ClassOf(r) == c then [r] else []
  {
    OfClassAppend(taken, [r], c);
    assert [r][1..] == [];
  }

  lemma ScheduledPop(arrived: seq<PendingRequest>, taken: seq<PendingRequest>, q: Queues)
    requires Scheduled(arrived, taken, q) && !q.Empty() && Sorted(q)
    ensures Scheduled(arrived, taken + [q.At(q.Front())[0]], q.Rest())
  {
    var r := q.At(q.Front())[0];
    hide OfClass;
    assert r in q.At(q.Front());
    forall c ensures ScheduledIn(c, arrived, taken, q) ==> ScheduledIn(c, arrived, taken + [r], q.Rest()) {
      TakenAppend(taken, r, c);
      if c == q.Front() {
        MoveHead(OfClass(taken, c), q.At(c));
      }
    }
  }

  lemma SortedRest(q: Queues)
    requires !q.Empty() && Sorted(q)
    ensures Sorted(q.Rest())
    ensures var r := q.At(q.Front())[0]; r == Request(r.frame) && ClassOf(r) == q.Front()
  {
    assert q.At(q.Front())[0] in q.At(q.Front());
  }

  lemma SortedPush(q: Queues, r: PendingRequest)
    requires Sorted(q) && r == Request(r.frame)
    ensures Sorted(q.Push(r))
  {
  }

  lemma ScheduledPush(arrived: seq<PendingRequest>, taken: seq<PendingRequest>, q: Queues, r: PendingRequest)
    requires Scheduled(arrived, taken, q) && Sorted(q) && r == Request(r.frame)
    ensures Scheduled(arrived + [r], taken, q.Push(r)) && Sorted(q.Push(r))
  {
    hide OfClass, Queues.Push;
    SortedPush(q, r);
    forall c ensures ScheduledIn(c, arrived, taken, q) ==> ScheduledIn(c, arrived + [r], taken, q.Push(r)) {
      TakenAppend(arrived, r, c);
      Regroup(OfClass(taken, c), q.At(c), [r]);
    }
  }

  /** Nothing read is lost or duplicated. */
  lemma NothingLost(arrived: seq<PendingRequest>, taken: seq<PendingRequest>, q: Queues)
    requires Scheduled(arrived, taken, q)
    ensures multiset(arrived) == multiset(taken) + multiset(q.high) + multiset(q.normal) + multiset(q.low)
  {
    ClassesCover(arrived);
    ClassesCover(taken);
  }
}
