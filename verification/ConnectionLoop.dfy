/** The connection handler's main loop, over any finite script of what its environment does. */
module ConnectionLoop {
  import opened FrameFormat
  import opened RequestQueue
  import opened Connection

  datatype Next = Take(frame: Frame) | Again | Stop(end: End)

  /** How many of `n` frames a fault lets out. */
  function Sent(fault: Fault, n: nat): nat {
    if fault.NoFault? || n <= fault.writes then n else fault.writes
  }

  function Requests(frames: seq<Frame>): seq<PendingRequest> {
    seq(|frames|, i requires 0 <= i < |frames| => Request(frames[i]))
  }

  lemma RequestsAppend(a: seq<Frame>, b: seq<Frame>)
    ensures Requests(a + b) == Requests(a) + Requests(b)
    ensures |a| == 1 ==> Requests(a) == [Request(a[0])]
    ensures |b| == 1 ==> Requests(b) == [Request(b[0])]
  {
  }

  lemma NothingToQueue(q: Queues)
    ensures Requests([]) == [] && PushAll(q, []) == q
  {
  }

  lemma ServeAppends(log: seq<Served>, served: Served)
    ensures Requests(Frames(log + [served])) == Requests(Frames(log)) + [Request(served.frame)]
  {
    assert Frames(log + [served]) == Frames(log) + [served.frame];
    RequestsAppend(Frames(log), [served.frame]);
  }

  function Frames(log: seq<Served>): seq<Frame> {
    seq(|log|, i requires 0 <= i < |log| => log[i].frame)
  }

  /** What one round reads and serves, apart from writing. */
  datatype RoundPlan = RoundPlan(served: seq<Served>, arrived: seq<Frame>, queues: Queues, end: End)

  function Plan(q: Queues, turn: Turn): RoundPlan {
    var queued := Requests(turn.extra);
    if !q.Empty() then
      RoundPlan([Served(q.At(q.Front())[0].frame, turn.reply)], turn.extra, PushAll(q.Rest(), queued), Open)
    else
      match turn.idle
      case Arrives(frame) => RoundPlan([Served(frame, turn.reply)], [frame] + turn.extra, PushAll(q, queued), Open)
      case ReadFails => RoundPlan([], [], q, Disconnected)
      case Shutdown(requested) => RoundPlan([], [], q, if requested then ShutDown else Open)
  }

  /** The frames a whole script serves, in order, as long as writing works. */
  function PlannedLog(q: Queues, script: seq<Turn>): seq<Served>
    decreases script
  {
    if script == [] then []
    else
      var plan := Plan(q, script[0]);
      plan.served + if plan.end == Open then PlannedLog(plan.queues, script[1..]) else []
  }

  class Handler {
    const codec: Codec
    const queue: PriorityQueue
    var pending: seq<Frame>
    var written: seq<Frame>
    var notified: bool
    ghost var arrived: seq<PendingRequest>
    ghost var taken: seq<PendingRequest>
    ghost var log: seq<Served>
    ghost var faulted: bool

    /** What holds at every head of the loop. */
    ghost predicate Valid()
      reads this, queue
    {
      && Sorted(queue.Contents())
      && Scheduled(arrived, taken, queue.Contents())
      && taken == Requests(Frames(log))
      && (!faulted ==> Delivered(Outcomes(codec, log), written, pending))
      && Subsequence(written + pending, Owed(Outcomes(codec, log)))
    }

    constructor (codec: Codec)
      ensures Valid() && fresh(queue) && this.codec == codec
      ensures log == [] && arrived == [] && !faulted && written == [] && !notified
    {
      this.codec := codec;
      queue := new PriorityQueue();
      pending, written, notified := [], [], false;
      arrived, taken, log, faulted := [], [], [], false;
    }

    /** At every head of the loop nothing read is lost, and without write faults the responses
        written, and then those buffered, are the right answers to the frames served that want one,
        one each. */
    lemma AtLoopHead()
      requires Valid()
      ensures var q := queue.Contents();
        multiset(arrived) == multiset(taken) + multiset(q.high) + multiset(q.normal) + multiset(q.low)
      ensures EncodesErrors(codec) && !faulted ==>
        ReqIds(written + pending) == WantedIds(log) && AllAnswered(codec, Wanting(log), written + pending)
    {
      hide Delivered, Outcomes, Subsequence, AllAnswered, Owed, Scheduled, Sorted;
      NothingLost(arrived, taken, queue.Contents());
      if EncodesErrors(codec) && !faulted {
        ExactlyOneResponse(codec, log, written, pending);
        ExactlyTheRightResponses(codec, log, written, pending);
      }
    }

    /** The next frame to serve: from the queue or, only if that is empty, from the socket. No
        frame of a more urgent class than the one taken is left in the queue. */
    method NextFrame(idle: Idle) returns (next: Next)
      requires Sorted(queue.Contents()) && Scheduled(arrived, taken, queue.Contents())
      modifies queue, this`arrived, this`taken, this`notified
      ensures Sorted(queue.Contents()) && Scheduled(arrived, taken, queue.Contents())
      ensures !old(queue.Contents()).Empty() ==>
        && next == Take(old(queue.Contents()).At(old(queue.Contents()).Front())[0].frame)
        && queue.Contents() == old(queue.Contents()).Rest() && arrived == old(arrived)
      ensures old(queue.Contents()).Empty() ==>
        && next == (match idle case Arrives(f) => Take(f) case ReadFails => Stop(Disconnected)
                               case Shutdown(r) => if r then Stop(ShutDown) else Again)
        && queue.Contents() == old(queue.Contents())
        && arrived == old(arrived) + if idle.Arrives? then [Request(idle.frame)] else []
      ensures taken == old(taken) + if next.Take? then [Request(next.frame)] else []
      ensures next.Take? ==>
        forall c: Class | c.MoreUrgentThan(ClassOf(Request(next.frame))) :: queue.Contents().At(c) == []
      ensures notified == (old(notified) || next == Stop(ShutDown))
    {
      var request := queue.Pop();
      if request.Some? {
        ScheduledPop(arrived, taken, old(queue.Contents()));
        SortedRest(old(queue.Contents()));
        taken := taken + [request.value];
        return Take(request.value.frame);
      }
      match idle {
        case Arrives(frame) =>
          ScheduledRead(arrived, taken, queue.Contents(), Request(frame));
          arrived := arrived + [Request(frame)];
          taken := taken + [Request(frame)];
          return Take(frame);
        case ReadFails =>
          return Stop(Disconnected);
        case Shutdown(requested) =>
          if requested {
            notified := true;
            return Stop(ShutDown);
          }
          return Again;
      }
    }

    /** Queues the frames that are there at once. */
    method Coalesce(extra: seq<Frame>)
      requires Sorted(queue.Contents()) && Scheduled(arrived, taken, queue.Contents())
      modifies queue, this`arrived
      ensures Sorted(queue.Contents()) && Scheduled(arrived, taken, queue.Contents())
      ensures arrived == old(arrived) + Requests(extra)
      ensures queue.Contents() == PushAll(old(queue.Contents()), Requests(extra))
    {
      hide Scheduled, Sorted, Requests, PushAll;
      NothingToQueue(queue.Contents());
      for i := 0 to |extra|
        invariant Sorted(queue.Contents()) && Scheduled(arrived, taken, queue.Contents())
        invariant arrived == old(arrived) + Requests(extra[..i])
        invariant queue.Contents() == PushAll(old(queue.Contents()), Requests(extra[..i]))
      {
        var request := Request(extra[i]);
        ScheduledPush(arrived, taken, queue.Contents(), request);
        PushAllLast(old(queue.Contents()), Requests(extra[..i]), request);
        assert extra[..i + 1] == extra[..i] + [extra[i]];
        RequestsAppend(extra[..i], [extra[i]]);
        queue.Push(request);
        arrived := arrived + [request];
      }
      assert extra[..|extra|] == extra;
    }

    /** Takes the frame to serve and then queues what is there at once: a more urgent frame is
        left waiting exactly if it comes in behind the one already taken. */
    method Admit(turn: Turn) returns (next: Next)
      requires Sorted(queue.Contents()) && Scheduled(arrived, taken, queue.Contents())
      modifies queue, this`arrived, this`taken, this`notified
      ensures Sorted(queue.Contents()) && Scheduled(arrived, taken, queue.Contents())
      ensures taken == old(taken) + if next.Take? then [Request(next.frame)] else []
      ensures var plan := Plan(old(queue.Contents()), turn);
        && queue.Contents() == plan.queues && arrived == old(arrived) + Requests(plan.arrived)
        && (next.Take? ==> plan.served == [Served(next.frame, turn.reply)] && plan.end == Open)
        && (next.Stop? ==> plan.served == [] && plan.end == next.end && next.end in {Disconnected, ShutDown})
        && (next.Again? ==> plan.served == [] && plan.end == Open)
      ensures next.Stop? ==> queue.Contents().Empty()
      ensures next.Take? ==> (Waiting(queue.Contents(), next.frame) <==> Brings(Requests(turn.extra), next.frame))
      ensures notified == (old(notified) || next == Stop(ShutDown))
    {
      hide Scheduled, Sorted, Requests, PushAll, Brings;
      NothingToQueue(queue.Contents());
      next := NextFrame(turn.idle);
      if next.Take? {
        ghost var before := queue.Contents();
        Coalesce(turn.extra);
        RequestsAppend([next.frame], turn.extra);
        Regroup(old(arrived), [Request(next.frame)], Requests(turn.extra));
        BroughtIsWaiting(before, Requests(turn.extra), next.frame);
      }
    }

    /** Writes frames one by one until a fault stops it. */
    method WriteFrames(frames: seq<Frame>, fault: Fault) returns (all: bool)
      modifies this`written
      ensures written == old(written) + frames[..Sent(fault, |frames|)]
      ensures all <==> Sent(fault, |frames|) == |frames|
    {
      for i := 0 to |frames|
        invariant i <= Sent(fault, |frames|)
        invariant written == old(written) + frames[..i]
      {
        if fault.Fault? && fault.writes == i {
          return false;
        }
        written := written + [frames[i]];
        assert frames[..i + 1] == frames[..i] + [frames[i]];
      }
      return true;
    }

    method FlushBatch(final: Frame, fault: Fault) returns (ok: bool)
      modifies this`written, this`pending
      ensures pending == []
      ensures var all := old(pending) + [final]; written == old(written) + all[..Sent(fault, |all|)]
      ensures ok <==> fault.NoFault? || (fault.writes > |old(pending)| && fault.flushes)
    {
      var buffered := pending;
      pending := [];
      ghost var all := buffered + [final];
      var out := WriteFrames(buffered, fault);
      if !out {
        assert all[..Sent(fault, |all|)] == buffered[..Sent(fault, |buffered|)];
        return false;
      }
      assert buffered[..|buffered|] == buffered;
      if fault.Fault? && fault.writes <= |buffered| {
        assert all[..Sent(fault, |all|)] == buffered;
        return false;
      }
      written := written + [final];
      assert all[..|all|] == all;
      assert old(written) + buffered + [final] == old(written) + all;
      return fault.NoFault? || fault.flushes;
    }

    /** Buffers a response, or sends it with everything buffered when the batch ends. */
    method Respond(response: Frame, batchFollows: bool, fault: Fault) returns (open: bool)
      modifies this`written, this`pending
      ensures var all := old(pending) + [response];
        if batchFollows then open && pending == all && written == old(written)
        else && pending == [] && written == old(written) + all[..Sent(fault, |all|)]
             && (open <==> fault.NoFault? || (fault.writes >= |all| && fault.flushes))
    {
      if batchFollows {
        pending := pending + [response];
        return true;
      }
      open := FlushBatch(response, fault);
    }

    /** Serves one frame: what is buffered and then its own answer stay buffered or go out. */
    method Process(frame: Frame, reply: Response, fault: Fault) returns (open: bool)
      modifies this`written, this`pending
      ensures var served := Served(frame, reply);
        var all := old(pending) + AnswerTo(codec, served);
        if Flushes(codec, served) then
          && pending == [] && written == old(written) + all[..Sent(fault, |all|)]
          && (open <==>
                || fault.NoFault? || (fault.flushes && (!WantsReply(served) || fault.writes >= |all|))
                || (!WantsReply(served) && all == []))
        else
          open && pending == all && written == old(written)
    {
      var flags := frame.header.flags;
      var reqId := frame.header.reqId;
      ghost var served := Served(frame, reply);
      assert pending + [] == pending;
      var invalid := codec.invalid(frame);
      if invalid.Some? {
        if !flags.noReply {
          var content := codec.encode(ErrorResponse(1, "invalid envelope: " + invalid.value));
          if content.Some? {
            open := Respond(ResponseFrame(Error, reqId, content.value), flags.batchFollows, fault);
            return;
          }
        }
        return true;
      }
      if flags.noReply {
        if !flags.batchFollows {
          if pending != [] {
            var buffered := pending;
            pending := [];
            var _ := WriteFrames(buffered, fault);
            if fault.Fault? && !fault.flushes {
              return false;
            }
          }
        }
        return true;
      }
      var opcode := if reply.ErrorResponse? then Error else flags.opcode;
      var content := codec.encode(reply);
      if content.None? {
        var errorContent := codec.encode(ErrorResponse(1, "internal encoding error"));
        if errorContent.Some? {
          open := Respond(ResponseFrame(Error, reqId, errorContent.value), flags.batchFollows, fault);
          return;
        }
        return true;
      }
      open := Respond(ResponseFrame(opcode, reqId, content.value), flags.batchFollows, fault);
    }

    /** One round of the loop. */
    method Round(turn: Turn) returns (end: End)
      requires Valid()
      modifies this, queue
      ensures Valid()
      ensures var plan := Plan(old(queue.Contents()), turn);
        && log == old(log) + plan.served && queue.Contents() == plan.queues
        && arrived == old(arrived) + Requests(plan.arrived)
        && end == if end == WriteFailed then WriteFailed else plan.end
      ensures end in {Disconnected, ShutDown} ==> queue.Contents().Empty()
      ensures end == WriteFailed ==> turn.fault.Fault?
      ensures faulted ==> old(faulted) || turn.fault.Fault?
      ensures notified == (old(notified) || end == ShutDown)
    {
      hide Scheduled, Sorted, Plan, Requests, Frames, Outcomes, Delivered, Subsequence, Owed;
      var next := Admit(turn);
      match next {
        case Stop(reason) =>
          return reason;
        case Again =>
          return Open;
        case Take(frame) =>
          var open := Process(frame, turn.reply, turn.fault);
          ghost var served := Served(frame, turn.reply);
          DeliveryStep(codec, log, old(written), old(pending), served, turn.fault, faulted, written, pending);
          ServeAppends(log, served);
          faulted := faulted || turn.fault.Fault?;
          log := log + [served];
          return if open then Open else WriteFailed;
      }
    }

    /** Runs the loop over a script. The contract is about every finite script, so it speaks of
        every head of the loop in every run. */
    method Serve(script: seq<Turn>) returns (end: End)
      requires Valid()
      modifies this, queue
      ensures Valid()
      ensures end in {Disconnected, ShutDown} ==> queue.Contents().Empty()
      ensures log <= old(log) + PlannedLog(old(queue.Contents()), script)
      ensures end != WriteFailed ==> log == old(log) + PlannedLog(old(queue.Contents()), script)
      ensures !old(faulted) && (forall turn | turn in script :: turn.fault.NoFault?) ==> !faulted && end != WriteFailed
    {
      hide Scheduled, Sorted, Plan, Requests, Frames, Outcomes, Delivered, Subsequence, Owed;
      end := Open;
      var i := 0;
      ghost var whole := log + PlannedLog(queue.Contents(), script);
      assert script[0..] == script;
      while i < |script| && end == Open
        invariant i <= |script| && Valid()
        invariant end in {Disconnected, ShutDown} ==> queue.Contents().Empty()
        invariant OnPlan(whole, log, queue.Contents(), script[i..], end)
        invariant !old(faulted) && (forall turn | turn in script[..i] :: turn.fault.NoFault?) ==> !faulted && end != WriteFailed
      {
        ghost var before, q := log, queue.Contents();
        end := Round(script[i]);
        OnPlanStep(whole, before, q, script[i..], log, end);
        assert script[i..][1..] == script[i + 1..] && script[..i + 1] == script[..i] + [script[i]];
        i := i + 1;
      }
      assert script[..i] <= script;
    }
  }

  /** How a log under way compares with the whole log planned. */
  ghost predicate OnPlan(whole: seq<Served>, log: seq<Served>, q: Queues, rest: seq<Turn>, end: End) {
    match end
    case Open => log + PlannedLog(q, rest) == whole
    case WriteFailed => log <= whole
    case _ => log == whole
  }

  lemma OnPlanStep(whole: seq<Served>, log: seq<Served>, q: Queues, rest: seq<Turn>, log': seq<Served>, end: End)
    requires rest != [] && OnPlan(whole, log, q, rest, Open)
    requires log' == log + Plan(q, rest[0]).served
    requires end == WriteFailed || end == Plan(q, rest[0]).end
    ensures OnPlan(whole, log', Plan(q, rest[0]).queues, rest[1..], end)
  {
    var plan := Plan(q, rest[0]);
    Regroup(log, plan.served, if plan.end == Open then PlannedLog(plan.queues, rest[1..]) else []);
  }

  /** Some queued frame is more urgent than this one. */
  predicate Waiting(q: Queues, frame: Frame) {
    exists c: Class :: c.MoreUrgentThan(ClassOf(Request(frame))) && q.At(c) != []
  }

  predicate Brings(extra: seq<PendingRequest>, frame: Frame) {
    exists r | r in extra :: ClassOf(r).MoreUrgentThan(ClassOf(Request(frame)))
  }

  /** A round that serves a background frame while an urgent one, read behind it, has to wait. */
  lemma UrgentFrameWaits(reply: Response) returns (turn: Turn)
    ensures var plan := Plan(Queues([], [], []), turn);
      && |plan.served| == 1 && ClassOf(Request(plan.served[0].frame)) == Background
      && Waiting(plan.queues, plan.served[0].frame)
  {
    var low := Frame(FrameHeader(0, Flags(Find, true, false, false, Low), 1), [], []);
    var high := Frame(FrameHeader(0, Flags(Find, true, false, false, High), 2), [], []);
    turn := Turn(Arrives(low), [high], reply, NoFault);
    var queued := Requests([high]);
    assert queued == [Request(high)];
    QueuedAfter(Queues([], [], []), queued, Urgent);
    assert Request(high) in queued && ClassOf(Request(high)) == Urgent;
  }

  lemma QueuedAfter(before: Queues, extra: seq<PendingRequest>, c: Class)
    requires before.At(c) == []
    ensures PushAll(before, extra).At(c) != [] <==> exists r | r in extra :: ClassOf(r) == c
  {
    PushAllAppends(before, extra, c);
    OfClassMembers(extra, c);
  }

  lemma BroughtIsWaiting(before: Queues, extra: seq<PendingRequest>, frame: Frame)
    requires !Waiting(before, frame)
    ensures Waiting(PushAll(before, extra), frame) <==> Brings(extra, frame)
  {
    var own := ClassOf(Request(frame));
    forall c: Class | c.MoreUrgentThan(own)
      ensures PushAll(before, extra).At(c) != [] <==> exists r | r in extra :: ClassOf(r) == c
    {
      QueuedAfter(before, extra, c);
    }
  }

  /** Whatever part of the output goes out, it is a prefix of what was due, so order is kept. */
  lemma OrderStep(outcomes: seq<Outcome>, written: seq<Frame>, pending: seq<Frame>, last: Outcome, k: nat)
    requires Subsequence(written + pending, Owed(outcomes))
    requires k <= |pending + last.answer|
    ensures Subsequence(written + (pending + last.answer)[..k], Owed(outcomes + [last]))
  {
    var all := pending + last.answer;
    OwedAppend(outcomes, last);
    SubsequenceAppend(written + pending, Owed(outcomes), last.answer);
    Regroup(written, pending, last.answer);
    SubsequencePrefix(written + all, Owed(outcomes + [last]), |written| + k);
    assert (written + all)[..|written| + k] == written + all[..k];
  }

  /** Serving one frame keeps the account of what was written, buffered and owed. */
  lemma DeliveryStep(codec: Codec, log: seq<Served>, written: seq<Frame>, pending: seq<Frame>, served: Served,
                     fault: Fault, faulted: bool, written': seq<Frame>, pending': seq<Frame>)
    requires !faulted ==> Delivered(Outcomes(codec, log), written, pending)
    requires Subsequence(written + pending, Owed(Outcomes(codec, log)))
    requires var all := pending + AnswerTo(codec, served);
      if Flushes(codec, served) then pending' == [] && written' == written + all[..Sent(fault, |all|)]
      else pending' == all && written' == written
    ensures !faulted && fault.NoFault? ==> Delivered(Outcomes(codec, log + [served]), written', pending')
    ensures Subsequence(written' + pending', Owed(Outcomes(codec, log + [served])))
  {
    var last := Outcome(AnswerTo(codec, served), Flushes(codec, served));
    DeliveryStepOf(Outcomes(codec, log), written, pending, last, fault, faulted, written', pending');
    OutcomesAppend(codec, log, served);
  }

  lemma DeliveryStepOf(outcomes: seq<Outcome>, written: seq<Frame>, pending: seq<Frame>, last: Outcome,
                       fault: Fault, faulted: bool, written': seq<Frame>, pending': seq<Frame>)
    requires !faulted ==> Delivered(outcomes, written, pending)
    requires Subsequence(written + pending, Owed(outcomes))
    requires var all := pending + last.answer;
      if last.flushes then pending' == [] && written' == written + all[..Sent(fault, |all|)]
      else pending' == all && written' == written
    ensures !faulted && fault.NoFault? ==> Delivered(outcomes + [last], written', pending')
    ensures Subsequence(written' + pending', Owed(outcomes + [last]))
  {
    var all := pending + last.answer;
    assert all[..|all|] == all;
    OrderStep(outcomes, written, pending, last, if last.flushes then Sent(fault, |all|) else |all|);
    assert written' + [] == written';
    if !faulted {
      if last.flushes {
        FlushedStep(outcomes, written, pending, last);
      } else {
        BufferedStep(outcomes, written, pending, last);
      }
    }
  }
}
