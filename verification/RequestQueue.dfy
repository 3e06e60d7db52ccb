/** The queue that reorders the requests of a connection by priority. */
module RequestQueue {
  import opened FrameFormat
  import opened Wrappers

  datatype PendingRequest = PendingRequest(frame: Frame, priority: Priority)

  /** Critical is honoured for a handshake only. */
  function ResolvePriority(frame: Frame): Priority {
    if frame.header.flags.priority == Critical && frame.header.flags.opcode != Handshake then High
    else frame.header.flags.priority
  }

  function Request(frame: Frame): PendingRequest {
    PendingRequest(frame, ResolvePriority(frame))
  }

  /** The three classes of service, most urgent first. */
  datatype Class = Urgent | Ordinary | Background {
    predicate MoreUrgentThan(other: Class) {
      (Urgent? && !other.Urgent?) || (Ordinary? && other.Background?)
    }
  }

  function ClassOf(request: PendingRequest): Class {
    match request.priority
    case High => Urgent
    case Critical => Urgent
    case Normal => Ordinary
    case Low => Background
  }

  /** Which class a frame is served in: critical and high ones first, then normal, then low ones; and
      only a handshake keeps the critical priority. */
  lemma ClassesOfFrames(frame: Frame)
    ensures var priority, served := frame.header.flags.priority, ClassOf(Request(frame));
      && (priority == Critical || priority == High ==> served == Urgent)
      && (priority == Normal ==> served == Ordinary)
      && (priority == Low ==> served == Background)
    ensures Request(frame).frame == frame
    ensures Request(frame).priority == Critical
      <==> frame.header.flags.priority == Critical && frame.header.flags.opcode == Handshake
    ensures frame.header.flags.priority != Critical ==> Request(frame).priority == frame.header.flags.priority
    ensures frame.header.flags.priority == Critical && frame.header.flags.opcode != Handshake ==>
      Request(frame).priority == High
  {
  }

  datatype Queues = Queues(high: seq<PendingRequest>, normal: seq<PendingRequest>, low: seq<PendingRequest>) {
    function At(c: Class): seq<PendingRequest> {
      match c
      case Urgent => high
      case Ordinary => normal
      case Background => low
    }

    predicate Empty() {
      high == [] && normal == [] && low == []
    }

    function Push(request: PendingRequest): (q: Queues)
      ensures forall c :: q.At(c) == if c == ClassOf(request) then At(c) + [request] else At(c)
    {
      match ClassOf(request)
      case Urgent => this.(high := high + [request])
      case Ordinary => this.(normal := normal + [request])
      case Background => this.(low := low + [request])
    }

    /** The most urgent class that is not empty. */
    function Front(): (c: Class)
      requires !Empty()
      ensures At(c) != [] && forall d: Class | d.MoreUrgentThan(c) :: At(d) == []
    {
      if high != [] then Urgent else if normal != [] then Ordinary else Background
    }

    function Size(): nat {
      |high| + |normal| + |low|
    }

    function Rest(): (q: Queues)
      requires !Empty()
      ensures forall c :: q.At(c) == if c == Front() then At(c)[1..] else At(c)
      ensures q.Size() == Size() - 1
    {
      match Front()
      case Urgent => this.(high := high[1..])
      case Ordinary => this.(normal := normal[1..])
      case Background => this.(low := low[1..])
    }
  }

  class PriorityQueue {
    var high: seq<PendingRequest>
    var normal: seq<PendingRequest>
    var low: seq<PendingRequest>

    function Contents(): Queues
      reads this
    {
      Queues(high, normal, low)
    }

    constructor ()
      ensures Contents().Empty()
    {
      high, normal, low := [], [], [];
    }

    method Push(request: PendingRequest)
      modifies this
      ensures Contents() == old(Contents()).Push(request)
    {
      match request.priority {
        case High | Critical => high := high + [request];
        case Normal => normal := normal + [request];
        case Low => low := low + [request];
      }
    }

    /** Takes the oldest request of the most urgent class there is. */
    method Pop() returns (request: Option<PendingRequest>)
      modifies this
      ensures request.None? <==> old(Contents()).Empty()
      ensures request.None? ==> Contents() == old(Contents())
      ensures request.Some? ==>
        && request.value == old(Contents()).At(old(Contents()).Front())[0]
        && Contents() == old(Contents()).Rest()
    {
      if high != [] {
        request := Some(high[0]);
        high := high[1..];
      } else if normal != [] {
        request := Some(normal[0]);
        normal := normal[1..];
      } else if low != [] {
        request := Some(low[0]);
        low := low[1..];
      } else {
        request := None;
      }
    }
  }

  // Draining

  function PushAll(q: Queues, requests: seq<PendingRequest>): Queues
    decreases requests
  {
    if requests == [] then q else PushAll(q.Push(requests[0]), requests[1..])
  }

  function Drain(q: Queues): seq<PendingRequest>
    decreases q.Size()
  {
    if q.Empty() then [] else [q.At(q.Front())[0]] + Drain(q.Rest())
  }

  /** The requests of one class, in their original order. */
  function OfClass(requests: seq<PendingRequest>, c: Class): seq<PendingRequest> {
    if requests == [] then []
    else (if ClassOf(requests[0]) == c then [requests[0]] else []) + OfClass(requests[1..], c)
  }

  lemma {:induction false} PushAllAppends(q: Queues, requests: seq<PendingRequest>, c: Class)
    ensures PushAll(q, requests).At(c) == q.At(c) + OfClass(requests, c)
    decreases requests
  {
    if requests != [] {
      PushAllAppends(q.Push(requests[0]), requests[1..], c);
    }
  }

  lemma TakeHead<T>(before: seq<T>, s: seq<T>, after: seq<T>)
    requires before == [] && s != []
    ensures before + s + after == [s[0]] + (before + s[1..] + after)
  {
  }

  lemma DrainStep(q: Queues)
    requires !q.Empty()
    ensures q.high + q.normal + q.low == [q.At(q.Front())[0]] + (q.Rest().high + q.Rest().normal + q.Rest().low)
  {
    if q.high != [] {
      TakeHead([], q.high, q.normal + q.low);
      assert q.high + q.normal + q.low == [] + q.high + (q.normal + q.low);
      assert q.high[1..] + q.normal + q.low == [] + q.high[1..] + (q.normal + q.low);
    } else if q.normal != [] {
      TakeHead(q.high, q.normal, q.low);
    } else {
      TakeHead(q.high + q.normal, q.low, []);
      assert q.high + q.normal + q.low == q.high + q.normal + q.low + [];
      assert q.high + q.normal + q.low[1..] == q.high + q.normal + q.low[1..] + [];
    }
  }

  lemma {:induction false} DrainConcatenates(q: Queues)
    ensures Drain(q) == q.high + q.normal + q.low
    decreases q.Size()
  {
    if !q.Empty() {
      DrainStep(q);
      DrainConcatenates(q.Rest());
    }
  }

  /** Whatever is queued comes out sorted by class and, within a class, in the order it went in. */
  lemma DrainIsStablePartition(requests: seq<PendingRequest>)
    ensures Drain(PushAll(Queues([], [], []), requests))
         == OfClass(requests, Urgent) + OfClass(requests, Ordinary) + OfClass(requests, Background)
  {
    var full := PushAll(Queues([], [], []), requests);
    forall c ensures full.At(c) == OfClass(requests, c) {
      PushAllAppends(Queues([], [], []), requests, c);
    }
    assert full == Queues(full.At(Urgent), full.At(Ordinary), full.At(Background));
    DrainConcatenates(full);
  }

  lemma {:induction false} OfClassAppend(requests: seq<PendingRequest>, more: seq<PendingRequest>, c: Class)
    ensures OfClass(requests + more, c) == OfClass(requests, c) + OfClass(more, c)
  {
    if requests == [] {
      assert requests + more == more;
    } else {
      hide ClassOf;
      OfClassAppend(requests[1..], more, c);
      assert (requests + more)[1..] == requests[1..] + more;
      var own := if ClassOf(requests[0]) == c then [requests[0]] else [];
      assert own + (OfClass(requests[1..], c) + OfClass(more, c)) == own + OfClass(requests[1..], c) + OfClass(more, c);
    }
  }

  lemma {:induction false} OfClassMembers(requests: seq<PendingRequest>, c: Class)
    ensures OfClass(requests, c) == [] <==> forall r | r in requests :: ClassOf(r) != c
  {
    if requests != [] {
      OfClassMembers(requests[1..], c);
      assert requests == [requests[0]] + requests[1..];
    }
  }

  lemma {:induction false} PushAllLast(q: Queues, requests: seq<PendingRequest>, last: PendingRequest)
    ensures PushAll(q, requests + [last]) == PushAll(q, requests).Push(last)
    decreases requests
  {
    if requests == [] {
      assert requests + [last] == [last];
    } else {
      PushAllLast(q.Push(requests[0]), requests[1..], last);
      assert (requests + [last])[1..] == requests[1..] + [last];
    }
  }

  /** A sequence is, as a multiset, the sum of its classes. */
  lemma {:induction false} ClassesCover(requests: seq<PendingRequest>)
    ensures multiset(requests)
         == multiset(OfClass(requests, Urgent)) + multiset(OfClass(requests, Ordinary)) + multiset(OfClass(requests, Background))
  {
    if requests != [] {
      ClassesCover(requests[1..]);
      assert requests == [requests[0]] + requests[1..];
    }
  }
}
