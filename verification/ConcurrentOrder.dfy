/** Order in a run of the concurrent path: batches are taken up as they were sent, and reports say
    what the counters said. */
module ConcurrentOrder {
  import opened ConcurrentIngest
  import opened Wrappers

  function HeldBy(w: Writer): seq<Batch> {
    match w
    case Inserting(b) => [b]
    case RecordingWrite(b, _) => [b]
    case _ => []
  }

  /** The queue holds the chunks sent last, in order, and every batch that a writer holds came
      before all of them. */
  predicate InOrder(s: State) {
    QueueInOrder(s) && forall w | 0 <= w < |s.writers| :: HeldBefore(s, s.writers[w])
  }

  predicate QueueInOrder(s: State) {
    && (forall i, j | 0 <= i < j < |s.queue| :: s.queue[i].hi <= s.queue[j].lo)
    && forall i | 0 <= i < |s.queue| :: s.queue[i].hi <= s.offset
  }

  predicate HeldBefore(s: State, w: Writer) {
    forall b | b in HeldBy(w) :: b.hi <= s.offset && forall i | 0 <= i < |s.queue| :: b.hi <= s.queue[i].lo
  }

  lemma QueueOrderStep(c: Config, s: State, a: Action)
    requires Enabled(c, s, a) && ProducerShape(c, s) && QueueInOrder(s)
    ensures QueueInOrder(Apply(c, s, a)) && s.offset <= Apply(c, s, a).offset
  {
    hide IsChunk;
    match a
    case Send => assert s.producer.batch.lo <= s.producer.batch.hi by { SentForward(c, s); }
    case _ =>
  }

  lemma SentForward(c: Config, s: State)
    requires ProducerShape(c, s) && s.producer.Sending?
    ensures s.producer.batch.lo <= s.producer.batch.hi
  {
  }

  lemma HeldStays(c: Config, s: State, a: Action, w: Writer)
    requires Enabled(c, s, a) && ProducerShape(c, s) && HeldBefore(s, w) && s.offset <= Apply(c, s, a).offset
    ensures HeldBefore(Apply(c, s, a), w)
  {
    hide IsChunk;
    var s' := Apply(c, s, a);
    forall b, i | b in HeldBy(w) && 0 <= i < |s'.queue| ensures b.hi <= s'.queue[i].lo {
      assert s'.queue[i] in s.queue || (a.Send? && s'.queue[i] == s.producer.batch);
    }
  }

  lemma OrderStep(c: Config, s: State, a: Action)
    requires Enabled(c, s, a) && ProducerShape(c, s) && QueueShape(c, s) && InOrder(s)
    ensures InOrder(Apply(c, s, a))
  {
    var s' := Apply(c, s, a);
    QueueOrderStep(c, s, a);
    if WriterOf(a).Some? {
      StepsInOrder(c, s, a);
      assert s'.writers == s.writers[WriterOf(a).value := s'.writers[WriterOf(a).value]];
    }
    hide Apply, Enabled, HeldBefore, QueueInOrder, ProducerShape, QueueShape;
    forall w | 0 <= w < |s'.writers| ensures HeldBefore(s', s'.writers[w]) {
      if Some(w) != WriterOf(a) {
        WritersStep(c, s, a, Held);
        HeldStays(c, s, a, s.writers[w]);
      }
    }
  }

  /** The batch that a writer takes is the oldest there is. */
  lemma StepsInOrder(c: Config, s: State, a: Action)
    requires Enabled(c, s, a) && WriterOf(a).Some? && QueueShape(c, s) && InOrder(s)
    ensures HeldBefore(Apply(c, s, a), Apply(c, s, a).writers[WriterOf(a).value])
  {
    hide IsChunk;
    assert HeldBefore(s, s.writers[WriterOf(a).value]);
  }

  /** In every state of every run, whatever is queued was sent after whatever a writer holds. */
  lemma {:induction false} FirstSentFirstTaken(c: Config, run: seq<State>, i: nat)
    requires IsRun(c, run) && i < |run|
    ensures InOrder(run[i])
  {
    hide Apply, Enabled, InOrder;
    if i == 0 {
      StartsInOrder(c);
    } else {
      FirstSentFirstTaken(c, run, i - 1);
      InvHoldsThroughout(c, run, i - 1);
      assert Next(c, run[i - 1], run[i - 1 + 1]);
      var a :| Enabled(c, run[i - 1], a) && run[i] == Apply(c, run[i - 1], a);
      OrderStep(c, run[i - 1], a);
    }
  }

  lemma StartsInOrder(c: Config)
    ensures InOrder(Init(c))
  {
  }

  // Reports

  /** The producer has read the first counter for a report. */
  predicate HalfRead(p: Producer) {
    p.ReportingFailed? || p.FinalReportingFailed?
  }

  lemma LoadStep(c: Config, s: State, a: Action)
    requires Enabled(c, s, a) && HalfRead(Apply(c, s, a).producer)
    ensures Apply(c, s, a).chunkNum == s.chunkNum
    ensures HalfRead(s.producer) ==> Apply(c, s, a).producer == s.producer
    ensures !HalfRead(s.producer) ==>
      (s.producer.Reporting? || s.producer.FinalReporting?) && Apply(c, s, a).producer.inserted == s.insertedCount
  {
  }

  /** The first number of a report under way is what the inserted counter was when it was begun. */
  lemma {:induction false} HalfReadFrom(c: Config, run: seq<State>, j: nat) returns (i: nat)
    requires IsRun(c, run) && j < |run| && HalfRead(run[j].producer)
    ensures i < j && (run[i].producer.Reporting? || run[i].producer.FinalReporting?)
    ensures run[i].insertedCount == run[j].producer.inserted && run[i].chunkNum == run[j].chunkNum
  {
    hide Apply, Enabled;
    assert Next(c, run[j - 1], run[j - 1 + 1]);
    var a :| Enabled(c, run[j - 1], a) && run[j] == Apply(c, run[j - 1], a);
    LoadStep(c, run[j - 1], a);
    if HalfRead(run[j - 1].producer) {
      i := HalfReadFrom(c, run, j - 1);
    } else {
      i := j - 1;
    }
  }

  lemma ReportsStep(c: Config, s: State, a: Action)
    requires Enabled(c, s, a)
    ensures Apply(c, s, a).reports == s.reports
         || (HalfRead(s.producer) && |Apply(c, s, a).reports| == |s.reports| + 1
             && Apply(c, s, a).reports[..|s.reports|] == s.reports
             && var report := Apply(c, s, a).reports[|s.reports|];
             report.inserted == s.producer.inserted && report.failed == s.failedCount && report.chunk == s.chunkNum)
  {
  }

  /** Each report gives the inserted counter as it was at one moment and the failed counter as it
      was at a later one, between which the producer did nothing else. */
  lemma {:induction false} ReportIsSnapshot(c: Config, run: seq<State>, j: nat, m: nat) returns (i: nat, k: nat)
    requires IsRun(c, run) && j < |run| && m < |run[j].reports|
    ensures i < k < j && (run[i].producer.Reporting? || run[i].producer.FinalReporting?) && HalfRead(run[k].producer)
    ensures run[i].chunkNum == run[k].chunkNum == run[j].reports[m].chunk
    ensures run[i].insertedCount == run[j].reports[m].inserted && run[k].failedCount == run[j].reports[m].failed
  {
    hide Apply, Enabled;
    assert Next(c, run[j - 1], run[j - 1 + 1]);
    var a :| Enabled(c, run[j - 1], a) && run[j] == Apply(c, run[j - 1], a);
    ReportsStep(c, run[j - 1], a);
    if m < |run[j - 1].reports| {
      assert run[j].reports[m] == run[j].reports[..|run[j - 1].reports|][m];
      i, k := ReportIsSnapshot(c, run, j - 1, m);
    } else {
      k := j - 1;
      i := HalfReadFrom(c, run, k);
    }
  }
}
