/** The concurrent ingestion path as a state machine: one producer, a bounded channel, several
    writers that share one locked receiver, two atomic counters and a dead letter queue. */
module ConcurrentIngest {
  import Chunks
  import opened Wrappers

  datatype Config = Config(total: nat, batchSize: nat, concurrency: nat) {
    function Capacity(): nat {
      2 * concurrency
    }

    function ChunkEnd(offset: nat): nat {
      Chunks.End(offset, batchSize, total)
    }
  }

  /** The rows lo..hi, converted. */
  datatype Batch = Batch(lo: nat, hi: nat)

  /** A dead letter that was attempted; the attempt may have failed. */
  datatype Letter = Letter(row: nat, stage: Chunks.Stage, delivered: bool)

  datatype Report = Report(processed: nat, inserted: nat, failed: nat, chunk: nat)

  datatype Producer =
    | AtHead
    | Sending(batch: Batch)
    | RecordingConversion(lo: nat, next: nat, hi: nat)
    | Reporting
    | ReportingFailed(inserted: nat)
    | Joining(cancelled: bool)
    | FinalReporting
    | FinalReportingFailed(inserted: nat)
    | Finished(cancelled: bool)

  datatype Writer =
    | Idle
    | Listening
    | Inserting(batch: Batch)
    | RecordingWrite(batch: Batch, next: nat)
    | Exited

  /** `inserted` holds the batches acknowledged, `refused` those whose insert failed, and `landed` the
      parts of these that are in the collection all the same; `unconverted` holds the chunks that
      could not be converted. */
  datatype State = State(
    offset: nat,
    chunkNum: nat,
    producer: Producer,
    queue: seq<Batch>,
    writers: seq<Writer>,
    insertedCount: nat,
    failedCount: nat,
    inserted: seq<Batch>,
    refused: seq<Batch>,
    landed: seq<Batch>,
    unconverted: seq<Batch>,
    letters: seq<Letter>,
    reports: seq<Report>)
  {
    /** The sending half of the channel has been dropped. */
    predicate Closed() {
      producer.Joining? || producer.FinalReporting? || producer.FinalReportingFailed? || producer.Finished?
    }

    predicate AllExited() {
      forall i | 0 <= i < |writers| :: writers[i].Exited?
    }

    predicate Unlocked() {
      forall i | 0 <= i < |writers| :: !writers[i].Listening?
    }
  }

  function Init(c: Config): State {
    State(0, 0, AtHead, [], seq(c.concurrency, i => Idle), 0, 0, [], [], [], [], [], [])
  }

  /** One atomic step; the environment chooses which, and how the calls it makes turn out. An
      ordered insert that fails may leave the first rows of its batch in the collection. */
  datatype Action =
    | Cancel
    | Convert(ok: bool)
    | Close
    | Send
    | RecordRow(delivered: bool)
    | FinishConversion
    | LoadInserted
    | LoadFailed
    | Join
    | Lock(w: nat)
    | Receive(w: nat)
    | HangUp(w: nat)
    | InsertSucceeds(w: nat)
    | InsertFails(w: nat, landed: nat)
    | RecordWrite(w: nat, delivered: bool)
    | FinishWrite(w: nat)

  predicate Enabled(c: Config, s: State, a: Action) {
    match a
    case Cancel => s.producer.AtHead? && s.offset < c.total
    case Convert(ok) => s.producer.AtHead? && s.offset < c.total && (ok || s.offset < c.ChunkEnd(s.offset))
    case Close => s.producer.AtHead? && s.offset >= c.total
    case Send => s.producer.Sending? && |s.queue| < c.Capacity()
    case RecordRow(_) => s.producer.RecordingConversion? && s.producer.next < s.producer.hi
    case FinishConversion => s.producer.RecordingConversion? && s.producer.next >= s.producer.hi
    case LoadInserted => s.producer.Reporting? || s.producer.FinalReporting?
    case LoadFailed => s.producer.ReportingFailed? || s.producer.FinalReportingFailed?
    case Join => s.producer.Joining? && s.AllExited()
    case Lock(w) => w < |s.writers| && s.writers[w].Idle? && s.Unlocked()
    case Receive(w) => w < |s.writers| && s.writers[w].Listening? && s.queue != []
    case HangUp(w) => w < |s.writers| && s.writers[w].Listening? && s.queue == [] && s.Closed()
    case InsertSucceeds(w) => w < |s.writers| && s.writers[w].Inserting?
    case InsertFails(w, k) => w < |s.writers| && s.writers[w].Inserting? && k <= Len(s.writers[w].batch.lo, s.writers[w].batch.hi)
    case RecordWrite(w, _) => w < |s.writers| && s.writers[w].RecordingWrite? && s.writers[w].next < s.writers[w].batch.hi
    case FinishWrite(w) => w < |s.writers| && s.writers[w].RecordingWrite? && s.writers[w].next >= s.writers[w].batch.hi
  }

  function Len(lo: nat, hi: nat): nat {
    if lo < hi then hi - lo else 0
  }

  /** The end of a chunk: count it, move on, and report after every fourth. */
  function NextChunk(s: State, end: nat): State {
    s.(offset := end, chunkNum := s.chunkNum + 1, producer := if (s.chunkNum + 1) % 4 == 0 then Reporting else AtHead)
  }

  function Apply(c: Config, s: State, a: Action): State
    requires Enabled(c, s, a)
  {
    match a
    case Cancel => s.(producer := Joining(true))
    case Convert(ok) =>
      var end := c.ChunkEnd(s.offset);
      if ok then s.(producer := Sending(Batch(s.offset, end)))
      else s.(producer := RecordingConversion(s.offset, s.offset, end), unconverted := s.unconverted + [Batch(s.offset, end)])
    case Close => s.(producer := Joining(false))
    case Send => NextChunk(s.(queue := s.queue + [s.producer.batch]), s.producer.batch.hi)
    case RecordRow(delivered) =>
      s.(letters := s.letters + [Letter(s.producer.next, Chunks.Conversion, delivered)],
         producer := s.producer.(next := s.producer.next + 1))
    case FinishConversion =>
      NextChunk(s.(failedCount := s.failedCount + Len(s.producer.lo, s.producer.hi)), s.producer.hi)
    case LoadInserted =>
      s.(producer := if s.producer.Reporting? then ReportingFailed(s.insertedCount) else FinalReportingFailed(s.insertedCount))
    case LoadFailed =>
      var processed := if s.producer.ReportingFailed? then s.offset else c.total;
      s.(reports := s.reports + [Report(processed, s.producer.inserted, s.failedCount, s.chunkNum)],
         producer := if s.producer.ReportingFailed? then AtHead else Finished(false))
    case Join => s.(producer := if s.producer.cancelled then Finished(true) else FinalReporting)
    case Lock(w) => s.(writers := s.writers[w := Listening])
    case Receive(w) => s.(writers := s.writers[w := Inserting(s.queue[0])], queue := s.queue[1..])
    case HangUp(w) => s.(writers := s.writers[w := Exited])
    case InsertSucceeds(w) =>
      var batch := s.writers[w].batch;
      s.(writers := s.writers[w := Idle], inserted := s.inserted + [batch],
         insertedCount := s.insertedCount + Len(batch.lo, batch.hi))
    case InsertFails(w, k) =>
      var batch := s.writers[w].batch;
      s.(writers := s.writers[w := RecordingWrite(batch, batch.lo)], refused := s.refused + [batch],
         landed := s.landed + [Batch(batch.lo, batch.lo + k)])
    case RecordWrite(w, delivered) =>
      var writer := s.writers[w];
      s.(writers := s.writers[w := writer.(next := writer.next + 1)],
         letters := s.letters + [Letter(writer.next, Chunks.Write, delivered)])
    case FinishWrite(w) =>
      var batch := s.writers[w].batch;
      s.(writers := s.writers[w := Idle], failedCount := s.failedCount + Len(batch.lo, batch.hi))
  }

  ghost predicate Next(c: Config, s: State, s': State) {
    exists a :: Enabled(c, s, a) && s' == Apply(c, s, a)
  }

  /** An execution, observed state by state, under any scheduling. */
  ghost predicate IsRun(c: Config, run: seq<State>) {
    && run != [] && run[0] == Init(c)
    && forall i | 0 <= i < |run| - 1 :: Next(c, run[i], run[i + 1])
  }

  // Measures of a state, all sums over its parts

  /** What is counted: the presence of one row, one row still to be recorded as failed, rows held,
      letters pushed but not yet counted as failures, or work left. */
  datatype Metric = Row(r: nat) | Unrecorded(u: nat) | Held | Uncounted | Work

  function Present(lo: nat, hi: nat, r: nat): nat {
    if lo <= r < hi then 1 else 0
  }

  function OfBatch(b: Batch, m: Metric): nat {
    match m
    case Row(r) => Present(b.lo, b.hi, r)
    case Unrecorded(_) => 0
    case Held => Len(b.lo, b.hi)
    case Uncounted => 0
    case Work => 10 * Len(b.lo, b.hi)
  }

  function OfWriter(w: Writer, m: Metric): nat {
    match w
    case Idle => if m.Work? then 3 else 0
    case Listening => if m.Work? then 2 else 0
    case Exited => 0
    case Inserting(b) => if m.Work? then 5 + Len(b.lo, b.hi) else OfBatch(b, m)
    case RecordingWrite(b, next) =>
      match m
      case Row(r) => Present(next, b.hi, r)
      case Unrecorded(r) => Present(next, b.hi, r)
      case Held => Len(next, b.hi)
      case Uncounted => Len(b.lo, next)
      case Work => 4 + Len(next, b.hi)
  }

  function OfProducer(p: Producer, m: Metric): nat {
    match p
    case AtHead => if m.Work? then 4 else 0
    case Sending(b) => if m.Work? then 7 + 10 * Len(b.lo, b.hi) else OfBatch(b, m)
    case RecordingConversion(lo, next, hi) =>
      (match m
       case Row(r) => Present(next, hi, r)
       case Unrecorded(r) => Present(next, hi, r)
       case Held => Len(next, hi)
       case Uncounted => Len(lo, next)
       case Work => 7 + Len(next, hi))
    case Reporting => if m.Work? then 6 else 0
    case ReportingFailed(_) => if m.Work? then 5 else 0
    case Joining(_) => if m.Work? then 3 else 0
    case FinalReporting => if m.Work? then 2 else 0
    case FinalReportingFailed(_) => if m.Work? then 1 else 0
    case Finished(_) => 0
  }

  function OfBatches(bs: seq<Batch>, m: Metric): nat {
    if bs == [] then 0 else OfBatches(bs[..|bs| - 1], m) + OfBatch(bs[|bs| - 1], m)
  }

  function OfWriters(ws: seq<Writer>, m: Metric): nat {
    if ws == [] then 0 else OfWriters(ws[..|ws| - 1], m) + OfWriter(ws[|ws| - 1], m)
  }

  /** The letters about a row, all of them or those of one stage. */
  function LettersOf(ls: seq<Letter>, r: nat): nat {
    if ls == [] then 0 else LettersOf(ls[..|ls| - 1], r) + if ls[|ls| - 1].row == r then 1 else 0
  }

  function LettersAt(ls: seq<Letter>, stage: Chunks.Stage, r: nat): nat {
    if ls == [] then 0
    else
      LettersAt(ls[..|ls| - 1], stage, r)
      + if ls[|ls| - 1].row == r && ls[|ls| - 1].stage == stage then 1 else 0
  }

  lemma OfBatchesAppend(bs: seq<Batch>, b: Batch, m: Metric)
    ensures OfBatches(bs + [b], m) == OfBatches(bs, m) + OfBatch(b, m)
  {
    assert (bs + [b])[..|bs|] == bs;
  }

  lemma {:induction false} OfBatchesTake(bs: seq<Batch>, m: Metric)
    requires bs != []
    ensures OfBatches(bs, m) == OfBatch(bs[0], m) + OfBatches(bs[1..], m)
  {
    var n := |bs| - 1;
    if n == 0 {
      assert bs[..0] == [] && bs[1..] == [];
    } else {
      OfBatchesTake(bs[..n], m);
      assert bs[..n][1..] == bs[1..][..n - 1];
    }
  }

  lemma {:induction false} OfWritersUpdate(ws: seq<Writer>, i: nat, w: Writer, m: Metric)
    requires i < |ws|
    ensures OfWriters(ws[i := w], m) + OfWriter(ws[i], m) == OfWriters(ws, m) + OfWriter(w, m)
  {
    var n := |ws| - 1;
    if i == n {
      assert ws[i := w][..n] == ws[..n];
    } else {
      OfWritersUpdate(ws[..n], i, w, m);
      assert ws[i := w][..n] == ws[..n][i := w];
    }
  }

  lemma {:induction false} OfWritersZero(ws: seq<Writer>, m: Metric)
    requires forall i | 0 <= i < |ws| :: OfWriter(ws[i], m) == 0
    ensures OfWriters(ws, m) == 0
  {
    if ws != [] {
      OfWritersZero(ws[..|ws| - 1], m);
    }
  }

  lemma LettersOfAppend(ls: seq<Letter>, l: Letter, r: nat)
    ensures LettersOf(ls + [l], r) == LettersOf(ls, r) + if l.row == r then 1 else 0
  {
    assert (ls + [l])[..|ls|] == ls;
  }

  lemma LettersAtAppend(ls: seq<Letter>, l: Letter, stage: Chunks.Stage, r: nat)
    ensures LettersAt(ls + [l], stage, r) == LettersAt(ls, stage, r) + if l.row == r && l.stage == stage then 1 else 0
  {
    assert (ls + [l])[..|ls|] == ls;
  }

  lemma {:induction false} LettersByStage(ls: seq<Letter>, r: nat)
    ensures LettersOf(ls, r) == LettersAt(ls, Chunks.Conversion, r) + LettersAt(ls, Chunks.Write, r)
  {
    if ls != [] {
      LettersByStage(ls[..|ls| - 1], r);
    }
  }

  /** Where the rows not yet taken up begin. */
  function Frontier(s: State): nat {
    match s.producer
    case Sending(b) => b.hi
    case RecordingConversion(_, _, hi) => hi
    case _ => s.offset
  }

  /** In how many places a row is: unsent, with the producer, queued, with a writer, inserted, or
      recorded as failed. */
  function Places(c: Config, s: State, r: nat): nat {
    Present(Frontier(s), c.total, r) + OfProducer(s.producer, Row(r)) + OfBatches(s.queue, Row(r))
    + OfWriters(s.writers, Row(r)) + OfBatches(s.inserted, Row(r)) + LettersOf(s.letters, r)
  }

  /** The work left in a state. */
  function WorkLeft(c: Config, s: State): nat {
    20 * Len(Frontier(s), c.total) + OfProducer(s.producer, Work) + OfBatches(s.queue, Work) + OfWriters(s.writers, Work)
  }

  // The invariant

  predicate IsMultiple(n: nat, m: nat) {
    n == 0 || (0 < m <= n && IsMultiple(n - m, m))
  }

  /** A chunk begins at a multiple of the batch size and has that many rows, but for the last one,
      which ends with the rows. */
  predicate IsChunk(c: Config, b: Batch) {
    && b.lo <= b.hi <= c.total && b.lo < c.total && b.hi - b.lo <= c.batchSize
    && (c.batchSize > 0 ==> b.lo < b.hi && IsMultiple(b.lo, c.batchSize))
    && (b.hi - b.lo < c.batchSize ==> b.hi == c.total)
  }

  predicate AreChunks(c: Config, batches: seq<Batch>) {
    forall i | 0 <= i < |batches| :: IsChunk(c, batches[i])
  }

  predicate ProducerShape(c: Config, s: State) {
    && Frontier(s) <= c.total
    && s.offset <= Frontier(s)
    && match s.producer
       case Sending(b) => b.lo == s.offset < c.total && IsChunk(c, b)
       case RecordingConversion(lo, next, hi) => lo == s.offset < c.total && lo <= next <= hi && IsChunk(c, Batch(lo, hi))
       case ReportingFailed(n) => n <= s.insertedCount
       case Joining(cancelled) => cancelled || s.offset == c.total
       case FinalReporting => s.offset == c.total
       case FinalReportingFailed(n) => s.offset == c.total && n == s.insertedCount
       case Finished(cancelled) => cancelled || s.offset == c.total
       case _ => true
  }

  predicate WriterShape(c: Config, w: Writer) {
    match w
    case Inserting(b) => IsChunk(c, b)
    case RecordingWrite(b, next) => b.lo <= next <= b.hi && IsChunk(c, b)
    case _ => true
  }

  predicate QueueShape(c: Config, s: State) {
    && |s.writers| == c.concurrency && |s.queue| <= c.Capacity()
    && AreChunks(c, s.queue)
  }

  /** What has become of batches and chunks. */
  predicate PastShape(c: Config, s: State) {
    AreChunks(c, s.inserted) && AreChunks(c, s.refused) && AreChunks(c, s.unconverted)
  }

  /** The offset is where the chunks counted so far end, and every fourth of them was reported. */
  predicate OnSchedule(c: Config, s: State) {
    var last := if s.producer == Finished(false) then 1 else 0;
    var due := if s.producer.Reporting? || s.producer.ReportingFailed? then 1 else 0;
    && s.offset == Chunks.Least(s.chunkNum * c.batchSize, c.total)
    && (due == 1 ==> 0 < s.chunkNum && s.chunkNum % 4 == 0)
    && |s.reports| == s.chunkNum / 4 - due + last
    && (forall i | 0 <= i < |s.reports| - last :: s.reports[i].chunk == 4 * (i + 1))
    && forall i | 0 <= i < |s.reports| :: s.reports[i].processed == Chunks.Least(s.reports[i].chunk * c.batchSize, c.total)
  }

  predicate WritersShape(c: Config, s: State) {
    forall i | 0 <= i < |s.writers| :: WriterShape(c, s.writers[i])
  }

  /** At most one writer holds the receiver. */
  predicate OneListener(s: State) {
    forall i, j | 0 <= i < j < |s.writers| :: !(s.writers[i].Listening? && s.writers[j].Listening?)
  }

  /** A writer leaves only when nothing can arrive any more. */
  predicate ExitShape(s: State) {
    && (forall i | 0 <= i < |s.writers| :: s.writers[i].Exited? ==> s.Closed() && s.queue == [])
    && (s.Closed() && !s.producer.Joining? ==> s.AllExited())
  }

  predicate Shape(c: Config, s: State) {
    QueueShape(c, s) && WritersShape(c, s) && OneListener(s) && ExitShape(s)
  }

  /** Every row taken up is held somewhere, inserted or recorded; the counters lag behind by the
      letters of the batches still being recorded. */
  predicate Balanced(s: State) {
    HeldBalance(s) && InsertedBalance(s) && FailedBalance(s)
  }

  predicate HeldBalance(s: State) {
    Frontier(s) == OfProducer(s.producer, Held) + OfBatches(s.queue, Held) + OfWriters(s.writers, Held)
                   + OfBatches(s.inserted, Held) + |s.letters|
  }

  predicate InsertedBalance(s: State) {
    s.insertedCount == OfBatches(s.inserted, Held)
  }

  predicate FailedBalance(s: State) {
    s.failedCount + OfProducer(s.producer, Uncounted) + OfWriters(s.writers, Uncounted) == |s.letters|
  }

  predicate Reported(c: Config, s: State) {
    && (forall i | 0 <= i < |s.reports| :: s.reports[i].inserted + s.reports[i].failed <= s.reports[i].processed <= c.total)
    && (s.producer == Finished(false) ==>
          s.reports != [] && s.reports[|s.reports| - 1] == Report(c.total, s.insertedCount, s.failedCount, s.chunkNum))
  }

  ghost predicate EachRowOnce(c: Config, s: State) {
    forall r: nat :: Places(c, s, r) == Present(0, c.total, r)
  }

  /** Each row of a chunk that was not converted, and of a batch that was refused, has a letter of
      that stage or is still to get one; no other row has. What landed of a refused batch is a part
      of it. */
  ghost predicate FailuresRecorded(s: State) {
    forall r: nat :: FailureRow(s, r)
  }

  predicate FailureRow(s: State, r: nat) {
    && OfBatches(s.unconverted, Row(r))
       == LettersAt(s.letters, Chunks.Conversion, r) + OfProducer(s.producer, Unrecorded(r))
    && OfBatches(s.refused, Row(r))
       == LettersAt(s.letters, Chunks.Write, r) + OfWriters(s.writers, Unrecorded(r))
    && OfBatches(s.landed, Row(r)) <= OfBatches(s.refused, Row(r))
  }

  ghost predicate Inv(c: Config, s: State) {
    && ProducerShape(c, s) && Shape(c, s) && Balanced(s) && Reported(c, s)
    && PastShape(c, s) && OnSchedule(c, s) && EachRowOnce(c, s) && FailuresRecorded(s)
  }

  // Every step keeps it

  /** The writer that takes the step, if one does. */
  function WriterOf(a: Action): Option<nat> {
    match a
    case Lock(w) => Some(w)
    case Receive(w) => Some(w)
    case HangUp(w) => Some(w)
    case InsertSucceeds(w) => Some(w)
    case InsertFails(w, _) => Some(w)
    case RecordWrite(w, _) => Some(w)
    case FinishWrite(w) => Some(w)
    case _ => None
  }

  /** A step changes a sum over the writers by the change of the one that takes it. */
  lemma WritersStep(c: Config, s: State, a: Action, m: Metric)
    requires Enabled(c, s, a)
    ensures WriterOf(a).None? ==> Apply(c, s, a).writers == s.writers
    ensures WriterOf(a).Some? ==>
      var w, s' := WriterOf(a).value, Apply(c, s, a);
      && w < |s.writers| == |s'.writers|
      && OfWriters(s'.writers, m) + OfWriter(s.writers[w], m) == OfWriters(s.writers, m) + OfWriter(s'.writers[w], m)
  {
    if WriterOf(a).Some? {
      var w, s' := WriterOf(a).value, Apply(c, s, a);
      assert s'.writers == s.writers[w := s'.writers[w]];
      OfWritersUpdate(s.writers, w, s'.writers[w], m);
    }
  }

  /** Batches are only added to the queue by a send, taken by a receive, and inserted by an insert. */
  lemma BatchesStep(c: Config, s: State, a: Action, m: Metric)
    requires Enabled(c, s, a)
    ensures OfBatches(Apply(c, s, a).queue, m) + (if a.Receive? then OfBatch(s.queue[0], m) else 0)
         == OfBatches(s.queue, m) + (if a.Send? then OfBatch(s.producer.batch, m) else 0)
    ensures OfBatches(Apply(c, s, a).inserted, m)
         == OfBatches(s.inserted, m) + (if a.InsertSucceeds? then OfBatch(s.writers[a.w].batch, m) else 0)
  {
    match a
    case Send => OfBatchesAppend(s.queue, s.producer.batch, m);
    case Receive(w) => OfBatchesTake(s.queue, m);
    case InsertSucceeds(w) => OfBatchesAppend(s.inserted, s.writers[w].batch, m);
    case _ =>
  }

  /** A step moves a row from one place to another but never loses or copies it. */
  lemma RowStep(c: Config, s: State, a: Action, r: nat)
    requires Enabled(c, s, a) && ProducerShape(c, s) && WritersShape(c, s)
    ensures Places(c, Apply(c, s, a), r) == Places(c, s, r)
  {
    if WriterOf(a).Some? {
      WriterRowStep(c, s, a, r);
    } else {
      ProducerRowStep(c, s, a, r);
    }
  }

  lemma ProducerRowStep(c: Config, s: State, a: Action, r: nat)
    requires Enabled(c, s, a) && ProducerShape(c, s) && WriterOf(a).None?
    ensures Places(c, Apply(c, s, a), r) == Places(c, s, r)
  {
    hide OfBatches, OfWriters, LettersOf;
    BatchesStep(c, s, a, Row(r));
    if a.RecordRow? {
      LettersOfAppend(s.letters, Letter(s.producer.next, Chunks.Conversion, a.delivered), r);
    }
  }

  lemma WriterRowStep(c: Config, s: State, a: Action, r: nat)
    requires Enabled(c, s, a) && WriterOf(a).Some? && WritersShape(c, s)
    ensures Places(c, Apply(c, s, a), r) == Places(c, s, r)
  {
    hide OfBatches, OfWriters, LettersOf, WritersShape, OfProducer;
    WritersStep(c, s, a, Row(r));
    BatchesStep(c, s, a, Row(r));
    WriterShapeOf(c, s, WriterOf(a).value);
    if a.RecordWrite? {
      LettersOfAppend(s.letters, Letter(s.writers[a.w].next, Chunks.Write, a.delivered), r);
    }
  }

  lemma WriterShapeOf(c: Config, s: State, w: nat)
    requires WritersShape(c, s) && w < |s.writers|
    ensures WriterShape(c, s.writers[w])
  {
  }

  /** Every row that fails is recorded once under the stage it failed at. */
  lemma FailureStep(c: Config, s: State, a: Action, r: nat)
    requires Enabled(c, s, a) && ProducerShape(c, s) && WritersShape(c, s) && FailureRow(s, r)
    ensures FailureRow(Apply(c, s, a), r)
  {
    if WriterOf(a).Some? {
      WriterFailureStep(c, s, a, r);
    } else {
      ProducerFailureStep(c, s, a, r);
    }
  }

  lemma ProducerFailureStep(c: Config, s: State, a: Action, r: nat)
    requires Enabled(c, s, a) && ProducerShape(c, s) && WriterOf(a).None? && FailureRow(s, r)
    ensures FailureRow(Apply(c, s, a), r)
  {
    hide OfBatches, OfWriters, LettersAt;
    match a
    case Convert(ok) => OfBatchesAppend(s.unconverted, Batch(s.offset, c.ChunkEnd(s.offset)), Row(r));
    case RecordRow(delivered) =>
      var letter := Letter(s.producer.next, Chunks.Conversion, delivered);
      LettersAtAppend(s.letters, letter, Chunks.Conversion, r);
      LettersAtAppend(s.letters, letter, Chunks.Write, r);
    case _ =>
  }

  lemma WriterFailureStep(c: Config, s: State, a: Action, r: nat)
    requires Enabled(c, s, a) && WritersShape(c, s) && WriterOf(a).Some? && FailureRow(s, r)
    ensures FailureRow(Apply(c, s, a), r)
  {
    hide OfBatches, OfWriters, LettersAt, WritersShape, OfProducer;
    WritersStep(c, s, a, Unrecorded(r));
    WriterShapeOf(c, s, WriterOf(a).value);
    match a
    case InsertFails(w, k) =>
      var batch := s.writers[w].batch;
      OfBatchesAppend(s.landed, Batch(batch.lo, batch.lo + k), Row(r));
      OfBatchesAppend(s.refused, batch, Row(r));
    case RecordWrite(w, delivered) =>
      var letter := Letter(s.writers[w].next, Chunks.Write, delivered);
      LettersAtAppend(s.letters, letter, Chunks.Conversion, r);
      LettersAtAppend(s.letters, letter, Chunks.Write, r);
    case _ =>
  }

  // Chunks and reports

  lemma {:induction false} NextMultiple(k: nat, m: nat)
    ensures (k + 1) * m == k * m + m
    ensures IsMultiple(k * m, m)
  {
    if k > 0 {
      NextMultiple(k - 1, m);
    }
  }

  /** What the producer cuts off next is a chunk. */
  lemma CutsAChunk(c: Config, s: State)
    requires s.offset == Chunks.Least(s.chunkNum * c.batchSize, c.total) && s.offset < c.total
    ensures IsChunk(c, Batch(s.offset, c.ChunkEnd(s.offset)))
    ensures c.ChunkEnd(s.offset) == Chunks.Least((s.chunkNum + 1) * c.batchSize, c.total)
  {
    NextMultiple(s.chunkNum, c.batchSize);
  }

  lemma ScheduleStep(c: Config, s: State, a: Action)
    requires Enabled(c, s, a) && ProducerShape(c, s) && OnSchedule(c, s)
    ensures OnSchedule(c, Apply(c, s, a))
  {
    NextMultiple(s.chunkNum, c.batchSize);
    hide IsChunk;
    match a
    case Send => ChunkEndsOnSchedule(c, s, s.producer.batch);
    case FinishConversion => ChunkEndsOnSchedule(c, s, Batch(s.producer.lo, s.producer.hi));
    case _ =>
  }

  lemma ChunkEndsOnSchedule(c: Config, s: State, b: Batch)
    requires s.offset == Chunks.Least(s.chunkNum * c.batchSize, c.total) && s.offset < c.total
    requires IsChunk(c, b) && b.lo == s.offset
    ensures b.hi == Chunks.Least((s.chunkNum + 1) * c.batchSize, c.total)
  {
    NextMultiple(s.chunkNum, c.batchSize);
  }

  lemma PastStep(c: Config, s: State, a: Action)
    requires Enabled(c, s, a) && ProducerShape(c, s) && WritersShape(c, s) && OnSchedule(c, s) && PastShape(c, s)
    ensures PastShape(c, Apply(c, s, a))
  {
    hide IsChunk, WritersShape;
    if WriterOf(a).Some? {
      WriterShapeOf(c, s, WriterOf(a).value);
    } else if a.Convert? {
      CutsAChunk(c, s);
    }
  }

  lemma HeldStep(c: Config, s: State, a: Action)
    requires Enabled(c, s, a) && ProducerShape(c, s) && WritersShape(c, s) && HeldBalance(s)
    ensures HeldBalance(Apply(c, s, a))
  {
    if WriterOf(a).Some? {
      WriterHeldStep(c, s, a);
    } else {
      ProducerHeldStep(c, s, a);
    }
  }

  lemma ProducerHeldStep(c: Config, s: State, a: Action)
    requires Enabled(c, s, a) && ProducerShape(c, s) && HeldBalance(s) && WriterOf(a).None?
    ensures HeldBalance(Apply(c, s, a))
  {
    hide OfBatches, OfWriters;
    WritersStep(c, s, a, Held);
    BatchesStep(c, s, a, Held);
  }

  lemma WriterHeldStep(c: Config, s: State, a: Action)
    requires Enabled(c, s, a) && WritersShape(c, s) && HeldBalance(s) && WriterOf(a).Some?
    ensures HeldBalance(Apply(c, s, a))
  {
    hide OfBatches, OfWriters, WritersShape, OfProducer;
    WritersStep(c, s, a, Held);
    BatchesStep(c, s, a, Held);
    WriterShapeOf(c, s, WriterOf(a).value);
  }

  lemma InsertedStep(c: Config, s: State, a: Action)
    requires Enabled(c, s, a) && InsertedBalance(s)
    ensures InsertedBalance(Apply(c, s, a))
  {
    hide OfBatches;
    BatchesStep(c, s, a, Held);
  }

  lemma FailedStep(c: Config, s: State, a: Action)
    requires Enabled(c, s, a) && ProducerShape(c, s) && WritersShape(c, s) && FailedBalance(s)
    ensures FailedBalance(Apply(c, s, a))
  {
    if WriterOf(a).Some? {
      WriterFailedStep(c, s, a);
    } else {
      ProducerFailedStep(c, s, a);
    }
  }

  lemma ProducerFailedStep(c: Config, s: State, a: Action)
    requires Enabled(c, s, a) && ProducerShape(c, s) && FailedBalance(s) && WriterOf(a).None?
    ensures FailedBalance(Apply(c, s, a))
  {
    hide OfBatches, OfWriters, IsChunk;
    WritersStep(c, s, a, Uncounted);
  }

  lemma WriterFailedStep(c: Config, s: State, a: Action)
    requires Enabled(c, s, a) && WritersShape(c, s) && FailedBalance(s) && WriterOf(a).Some?
    ensures FailedBalance(Apply(c, s, a))
  {
    hide OfBatches, OfWriters, WritersShape, OfProducer, IsChunk;
    WritersStep(c, s, a, Uncounted);
    WriterShapeOf(c, s, WriterOf(a).value);
  }

  lemma QueueStep(c: Config, s: State, a: Action)
    requires Enabled(c, s, a) && ProducerShape(c, s) && QueueShape(c, s)
    ensures QueueShape(c, Apply(c, s, a))
  {
  }

  lemma WriterStep(c: Config, s: State, a: Action)
    requires Enabled(c, s, a) && QueueShape(c, s) && WritersShape(c, s)
    ensures WritersShape(c, Apply(c, s, a))
  {
    var s' := Apply(c, s, a);
    if WriterOf(a).Some? {
      var w := WriterOf(a).value;
      assert s'.writers == s.writers[w := s'.writers[w]];
      WriterShapeOf(c, s, w);
      assert a.Receive? ==> IsChunk(c, s.queue[0]);
      assert WriterShape(c, s'.writers[w]);
    }
  }

  lemma ListenerStep(c: Config, s: State, a: Action)
    requires Enabled(c, s, a) && OneListener(s)
    ensures OneListener(Apply(c, s, a))
  {
    var s' := Apply(c, s, a);
    if WriterOf(a).Some? {
      var w := WriterOf(a).value;
      assert s'.writers == s.writers[w := s'.writers[w]];
      assert s'.writers[w].Listening? ==> s.Unlocked();
    }
  }

  lemma ExitStep(c: Config, s: State, a: Action)
    requires Enabled(c, s, a) && ExitShape(s)
    ensures ExitShape(Apply(c, s, a))
  {
    var s' := Apply(c, s, a);
    if WriterOf(a).Some? {
      var w := WriterOf(a).value;
      assert s'.writers == s.writers[w := s'.writers[w]];
      assert !s.writers[w].Exited?;
      assert !s.AllExited();
    }
  }

  lemma ProducerStep(c: Config, s: State, a: Action)
    requires Enabled(c, s, a) && ProducerShape(c, s) && Shape(c, s) && OnSchedule(c, s)
    ensures ProducerShape(c, Apply(c, s, a))
  {
    hide IsChunk, OnSchedule, QueueShape, WritersShape, OneListener;
    match a
    case Convert(_) =>
      assert s.offset == Chunks.Least(s.chunkNum * c.batchSize, c.total) by {
        OffsetOnSchedule(c, s);
      }
      CutsAChunk(c, s);
      ChunkEndInRange(c, s);
    case InsertSucceeds(w) => assert !s.AllExited();
    case _ =>
  }

  lemma OffsetOnSchedule(c: Config, s: State)
    requires OnSchedule(c, s)
    ensures s.offset == Chunks.Least(s.chunkNum * c.batchSize, c.total)
  {
  }

  lemma ChunkEndInRange(c: Config, s: State)
    ensures s.offset <= c.total ==> s.offset <= c.ChunkEnd(s.offset) <= c.total
  {
  }

  /** The two counters never run ahead of the rows taken up. */
  lemma CountersBounded(s: State)
    requires Balanced(s)
    ensures s.insertedCount + s.failedCount <= Frontier(s)
  {
  }

  lemma ReportStep(c: Config, s: State, a: Action)
    requires Enabled(c, s, a) && ProducerShape(c, s) && ExitShape(s) && Balanced(s) && Reported(c, s)
    ensures Reported(c, Apply(c, s, a))
  {
    hide OfBatches, OfWriters;
    CountersBounded(s);
  }

  lemma PartsStep(c: Config, s: State, a: Action)
    requires Enabled(c, s, a) && ProducerShape(c, s) && Shape(c, s) && Balanced(s) && Reported(c, s)
    requires PastShape(c, s) && OnSchedule(c, s)
    ensures var s' := Apply(c, s, a);
      && ProducerShape(c, s') && Shape(c, s') && Balanced(s') && Reported(c, s')
      && PastShape(c, s') && OnSchedule(c, s')
  {
    hide Apply, Enabled, ProducerShape, HeldBalance, InsertedBalance, FailedBalance, Reported;
    hide QueueShape, WritersShape, OneListener, ExitShape, PastShape, OnSchedule;
    PastStep(c, s, a);
    ScheduleStep(c, s, a);
    ProducerStep(c, s, a);
    QueueStep(c, s, a);
    WriterStep(c, s, a);
    ListenerStep(c, s, a);
    ExitStep(c, s, a);
    HeldStep(c, s, a);
    InsertedStep(c, s, a);
    FailedStep(c, s, a);
    ReportStep(c, s, a);
  }

  lemma InvStep(c: Config, s: State, a: Action)
    requires Enabled(c, s, a) && Inv(c, s)
    ensures Inv(c, Apply(c, s, a))
  {
    hide Apply, Enabled, Places, FailureRow, ProducerShape, Balanced, Reported, PastShape, OnSchedule;
    PartsStep(c, s, a);
    forall r: nat ensures Places(c, Apply(c, s, a), r) == Present(0, c.total, r) {
      RowStep(c, s, a, r);
    }
    forall r: nat ensures FailureRow(Apply(c, s, a), r) {
      assert FailureRow(s, r);
      FailureStep(c, s, a, r);
    }
  }

  lemma InvInit(c: Config)
    ensures Inv(c, Init(c))
  {
    OfWritersZero(Init(c).writers, Held);
    OfWritersZero(Init(c).writers, Uncounted);
    forall r: nat ensures Places(c, Init(c), r) == Present(0, c.total, r) {
      OfWritersZero(Init(c).writers, Row(r));
    }
    forall r: nat ensures FailureRow(Init(c), r) {
      OfWritersZero(Init(c).writers, Unrecorded(r));
    }
  }

  /** Every state of every run satisfies the invariant: whatever the interleaving, each row below
      the total is in exactly one place and each report is within the rows processed. */
  lemma {:induction false} InvHoldsThroughout(c: Config, run: seq<State>, i: nat)
    requires IsRun(c, run) && i < |run|
    ensures Inv(c, run[i])
  {
    if i == 0 {
      InvInit(c);
    } else {
      InvHoldsThroughout(c, run, i - 1);
      assert Next(c, run[i - 1], run[i - 1 + 1]);
      var a :| Enabled(c, run[i - 1], a) && run[i] == Apply(c, run[i - 1], a);
      InvStep(c, run[i - 1], a);
    }
  }

  // Where a run ends

  /** At the end each row below the offset is inserted or has exactly one dead letter, no row from
      the offset on has been touched, and the counters say how many rows went which way. */
  lemma AccountedAtTheEnd(c: Config, s: State)
    requires 0 < c.concurrency && Inv(c, s) && s.producer.Finished?
    ensures forall r: nat :: OfBatches(s.inserted, Row(r)) + LettersOf(s.letters, r) == Present(0, s.offset, r)
    ensures s.insertedCount + s.failedCount == s.offset && s.failedCount == |s.letters|
    ensures s.insertedCount == OfBatches(s.inserted, Held)
    ensures !s.producer.cancelled ==>
      s.offset == c.total && s.reports != []
      && s.reports[|s.reports| - 1] == Report(c.total, s.insertedCount, s.failedCount, s.chunkNum)
  {
    assert s.AllExited() && s.writers[0].Exited? && s.queue == [];
    OfWritersZero(s.writers, Held);
    OfWritersZero(s.writers, Uncounted);
    forall r: nat ensures OfBatches(s.inserted, Row(r)) + LettersOf(s.letters, r) == Present(0, s.offset, r) {
      OfWritersZero(s.writers, Row(r));
      assert Places(c, s, r) == Present(0, c.total, r);
    }
  }

  /** At the end the letters of each stage are about exactly the rows that failed there: those of the
      chunks that were not converted, and those of the batches whose insert failed. */
  lemma LettersByCause(c: Config, s: State, r: nat)
    requires 0 < c.concurrency && Inv(c, s) && s.producer.Finished?
    ensures LettersAt(s.letters, Chunks.Conversion, r) == OfBatches(s.unconverted, Row(r))
    ensures LettersAt(s.letters, Chunks.Write, r) == OfBatches(s.refused, Row(r))
  {
    hide OfBatches, OfWriters, LettersAt;
    assert FailureRow(s, r) && s.AllExited();
    OfWritersZero(s.writers, Unrecorded(r));
  }

  /** In every state of every run whatever is sent, queued, held, inserted, refused or given up is a
      chunk of the batch size, cut at a multiple of it. */
  lemma BatchesAreChunks(c: Config, run: seq<State>, i: nat, b: Batch)
    requires IsRun(c, run) && i < |run|
    requires var s := run[i];
      || s.producer == Sending(b) || b in s.queue || b in s.inserted || b in s.refused || b in s.unconverted
      || exists w | 0 <= w < |s.writers| :: s.writers[w] == Inserting(b) || (s.writers[w].RecordingWrite? && s.writers[w].batch == b)
    ensures 0 <= b.hi - b.lo <= c.batchSize && b.hi <= c.total
    ensures 0 < c.batchSize ==> 0 < b.hi - b.lo && IsMultiple(b.lo, c.batchSize)
    ensures b.hi - b.lo < c.batchSize ==> b.hi == c.total
  {
    InvHoldsThroughout(c, run, i);
    var s := run[i];
    if w :| 0 <= w < |s.writers| && (s.writers[w] == Inserting(b) || (s.writers[w].RecordingWrite? && s.writers[w].batch == b)) {
      WriterShapeOf(c, s, w);
    }
  }

  /** How often a row is in the collection. */
  function Stored(s: State, r: nat): nat {
    OfBatches(s.inserted, Row(r)) + OfBatches(s.landed, Row(r))
  }

  /** At the end each row below the offset is in the collection once or has one dead letter; it
      has both exactly if it landed although its batch failed. The others have neither. */
  lemma StoredOrRecorded(c: Config, s: State, r: nat)
    requires 0 < c.concurrency && Inv(c, s) && s.producer.Finished?
    ensures r < s.offset ==> Stored(s, r) == 1 || LettersOf(s.letters, r) == 1
    ensures Stored(s, r) <= 1 && LettersOf(s.letters, r) <= 1
    ensures Stored(s, r) == 1 && LettersOf(s.letters, r) == 1 <==> OfBatches(s.landed, Row(r)) > 0
    ensures s.offset <= r ==> Stored(s, r) == 0 && LettersOf(s.letters, r) == 0
  {
    hide OfBatches, LettersOf, OfWriters;
    AccountedAtTheEnd(c, s);
    assert s.AllExited();
    OfWritersZero(s.writers, Unrecorded(r));
    assert FailureRow(s, r);
    LettersByStage(s.letters, r);
    assert OfBatches(s.inserted, Row(r)) + LettersOf(s.letters, r) == Present(0, s.offset, r);
  }

  lemma OneMore(c: Config, run: seq<State>, a: Action) returns (longer: seq<State>)
    requires IsRun(c, run) && Enabled(c, run[|run| - 1], a)
    ensures IsRun(c, longer) && |longer| == |run| + 1 && longer[|run|] == Apply(c, run[|run| - 1], a)
  {
    hide Enabled, Apply, Init;
    longer := run + [Apply(c, run[|run| - 1], a)];
    forall i | 0 <= i < |longer| - 1 ensures Next(c, longer[i], longer[i + 1]) {
      if i < |run| - 1 {
        assert Next(c, run[i], run[i + 1]);
      }
    }
  }

  /** A failed insert can leave a row both stored and recorded: a job of one batch whose insert
      fails after the first row. */
  lemma LandedTwice(c: Config) returns (run: seq<State>)
    requires 0 < c.total <= c.batchSize && 0 < c.concurrency
    ensures IsRun(c, run)
    ensures var s := run[|run| - 1]; Stored(s, 0) == 1 && LettersOf(s.letters, 0) == 1
  {
    hide IsRun, Next, Stored, LettersOf, OfBatches;
    run := SentBatch(c);
    run := OneMore(c, run, Lock(0));
    run := OneMore(c, run, Receive(0));
    run := OneMore(c, run, InsertFails(0, 1));
    run := OneMore(c, run, RecordWrite(0, true));
    StoredAndRecorded(run[|run| - 1]);
  }

  lemma SentBatch(c: Config) returns (run: seq<State>)
    requires 0 < c.total <= c.batchSize && 0 < c.concurrency
    ensures IsRun(c, run)
    ensures var s := run[|run| - 1];
      && s.queue == [Batch(0, c.total)] && s.writers == Init(c).writers
      && s.inserted == [] && s.landed == [] && s.letters == []
  {
    run := [Init(c)];
    run := OneMore(c, run, Convert(true));
    run := OneMore(c, run, Send);
  }

  lemma StoredAndRecorded(s: State)
    requires s.inserted == [] && s.landed == [] + [Batch(0, 1)]
    requires s.letters == [] + [Letter(0, Chunks.Write, true)]
    ensures Stored(s, 0) == 1 && LettersOf(s.letters, 0) == 1
  {
    OfBatchesAppend([], Batch(0, 1), Row(0));
    LettersOfAppend([], Letter(0, Chunks.Write, true), 0);
  }

  lemma CancelledStep(c: Config, s: State, a: Action)
    requires Enabled(c, s, a) && s.producer in {Joining(true), Finished(true)}
    ensures Apply(c, s, a).producer in {Joining(true), Finished(true)} && Apply(c, s, a).offset == s.offset
  {
  }

  /** Once the job is cancelled it stays so, and the offset it was cancelled at does not move. */
  lemma {:induction false} CancelledAtAnOffset(c: Config, run: seq<State>, i: nat, j: nat)
    requires IsRun(c, run) && i <= j < |run| && run[i].producer == Joining(true)
    ensures run[j].producer in {Joining(true), Finished(true)} && run[j].offset == run[i].offset
  {
    hide Apply, Enabled;
    if i < j {
      CancelledAtAnOffset(c, run, i, j - 1);
      assert Next(c, run[j - 1], run[j - 1 + 1]);
      var a :| Enabled(c, run[j - 1], a) && run[j] == Apply(c, run[j - 1], a);
      CancelledStep(c, run[j - 1], a);
    }
  }

  /** When a cancelled job has ended, exactly the rows before the offset it was cancelled at have
      been inserted or recorded as failed, each once. */
  lemma CancelledRunAccounts(c: Config, run: seq<State>, i: nat)
    requires 0 < c.concurrency && IsRun(c, run) && i < |run| && run[i].producer == Joining(true)
    requires run[|run| - 1].producer.Finished?
    ensures var end := run[|run| - 1];
      && end.producer == Finished(true)
      && (forall r: nat :: OfBatches(end.inserted, Row(r)) + LettersOf(end.letters, r) == Present(0, run[i].offset, r))
      && (forall r: nat :: (Stored(end, r) > 0 || LettersOf(end.letters, r) > 0) <==> r < run[i].offset)
      && forall r: nat :: Stored(end, r) > 0 && LettersOf(end.letters, r) > 0 <==> OfBatches(end.landed, Row(r)) > 0
  {
    hide Inv, IsRun, OfBatches, LettersOf, Present, Stored;
    CancelledAtAnOffset(c, run, i, |run| - 1);
    assert run != [];
    InvHoldsThroughout(c, run, |run| - 1);
    AccountedAtTheEnd(c, run[|run| - 1]);
    var end, offset := run[|run| - 1], run[i].offset;
    forall r: nat
      ensures (Stored(end, r) > 0 || LettersOf(end.letters, r) > 0) <==> r < offset
      ensures Stored(end, r) > 0 && LettersOf(end.letters, r) > 0 <==> OfBatches(end.landed, Row(r)) > 0
    {
      StoredOrRecorded(c, end, r);
    }
  }

  // Progress

  /** Some writer can step: there is work for it, or it may leave. */
  lemma WriterCanStep(c: Config, s: State, w: nat) returns (a: Action)
    requires w < |s.writers| && !s.writers[w].Exited?
    requires s.queue != [] || s.Closed()
    ensures Enabled(c, s, a) && WriterOf(a).Some?
  {
    match s.writers[w]
    case Idle =>
      if s.Unlocked() {
        a := Lock(w);
      } else {
        var v :| 0 <= v < |s.writers| && s.writers[v].Listening?;
        a := if s.queue != [] then Receive(v) else HangUp(v);
      }
    case Listening => a := if s.queue != [] then Receive(w) else HangUp(w);
    case Inserting(_) => a := InsertSucceeds(w);
    case RecordingWrite(b, next) => a := if next < b.hi then RecordWrite(w, true) else FinishWrite(w);
    case Exited => a := Join;
  }

  /** There is no deadlock: until the job has ended some step can be taken, and one that needs no
      cancellation. */
  lemma NoDeadlock(c: Config, s: State) returns (a: Action)
    requires 0 < c.concurrency && Inv(c, s) && !s.producer.Finished?
    ensures Enabled(c, s, a) && !a.Cancel?
  {
    match s.producer
    case AtHead => a := if s.offset < c.total then Convert(true) else Close;
    case Sending(_) =>
      if |s.queue| < c.Capacity() {
        a := Send;
      } else {
        assert !s.writers[0].Exited?;
        a := WriterCanStep(c, s, 0);
      }
    case RecordingConversion(_, next, hi) => a := if next < hi then RecordRow(true) else FinishConversion;
    case Reporting | FinalReporting => a := LoadInserted;
    case ReportingFailed(_) | FinalReportingFailed(_) => a := LoadFailed;
    case Joining(_) =>
      if s.AllExited() {
        a := Join;
      } else {
        var w :| 0 <= w < |s.writers| && !s.writers[w].Exited?;
        a := WriterCanStep(c, s, w);
      }
  }

  // Termination

  /** Each chunk takes up at least one row. */
  predicate Productive(c: Config) {
    c.batchSize > 0 || c.total == 0
  }

  lemma WorkFalls(c: Config, s: State, a: Action)
    requires Productive(c) && Enabled(c, s, a) && ProducerShape(c, s) && QueueShape(c, s) && WritersShape(c, s)
    ensures WorkLeft(c, Apply(c, s, a)) < WorkLeft(c, s)
  {
    if WriterOf(a).Some? {
      WriterWorkFalls(c, s, a);
    } else {
      ProducerWorkFalls(c, s, a);
    }
  }

  lemma ProducerWorkFalls(c: Config, s: State, a: Action)
    requires Productive(c) && Enabled(c, s, a) && ProducerShape(c, s) && WriterOf(a).None?
    ensures WorkLeft(c, Apply(c, s, a)) < WorkLeft(c, s)
  {
    hide OfBatches, OfWriters;
    BatchesStep(c, s, a, Work);
  }

  lemma WriterWorkFalls(c: Config, s: State, a: Action)
    requires Productive(c) && Enabled(c, s, a) && QueueShape(c, s) && WritersShape(c, s) && WriterOf(a).Some?
    ensures WorkLeft(c, Apply(c, s, a)) < WorkLeft(c, s)
  {
    hide OfBatches, OfWriters, WritersShape, OfProducer;
    WritersStep(c, s, a, Work);
    BatchesStep(c, s, a, Work);
    WriterShapeOf(c, s, WriterOf(a).value);
    assert a.Receive? ==> IsChunk(c, s.queue[0]);
  }

  lemma {:induction false} RunsGetShorter(c: Config, run: seq<State>, i: nat)
    requires Productive(c) && IsRun(c, run) && i < |run|
    ensures i + WorkLeft(c, run[i]) <= WorkLeft(c, Init(c))
  {
    if i != 0 {
      RunsGetShorter(c, run, i - 1);
      InvHoldsThroughout(c, run, i - 1);
      assert Next(c, run[i - 1], run[i - 1 + 1]);
      var a :| Enabled(c, run[i - 1], a) && run[i] == Apply(c, run[i - 1], a);
      WorkFalls(c, run[i - 1], a);
    }
  }

  ghost predicate Halted(c: Config, s: State) {
    forall s' :: !Next(c, s, s')
  }

  /** A run that cannot be continued has ended the job. */
  lemma MaximalRunsFinish(c: Config, run: seq<State>)
    requires 0 < c.concurrency && IsRun(c, run) && Halted(c, run[|run| - 1])
    ensures run[|run| - 1].producer.Finished?
  {
    var last := run[|run| - 1];
    InvHoldsThroughout(c, run, |run| - 1);
    if !last.producer.Finished? {
      var a := NoDeadlock(c, last);
      assert Next(c, last, Apply(c, last, a));
    }
  }

  ghost predicate RunsBounded(c: Config, bound: nat) {
    forall run :: IsRun(c, run) ==> |run| <= bound
  }

  /** With a batch size of zero the producer sends one empty batch after the other, and a writer
      takes each of them and records none of its rows. */
  predicate Stuck(c: Config, s: State) {
    && s.offset == 0 && 0 < c.concurrency == |s.writers| && (forall i | 1 <= i < |s.writers| :: s.writers[i].Idle?)
    && (s.producer.AtHead? || s.producer.Reporting? || s.producer.ReportingFailed? || s.producer == Sending(Batch(0, 0)))
    && (if s.queue == [] then s.writers[0] in {Idle, Inserting(Batch(0, 0)), RecordingWrite(Batch(0, 0), 0)}
        else s.queue == [Batch(0, 0)] && s.writers[0] in {Idle, Listening})
  }

  /** The step a stuck state takes: the writer first, then the producer. */
  function StuckAction(s: State): Action
    requires s.writers != []
  {
    match s.writers[0]
    case Listening => Receive(0)
    case Inserting(_) => InsertFails(0, 0)
    case RecordingWrite(_, _) => FinishWrite(0)
    case _ =>
      if s.queue != [] then Lock(0)
      else
        match s.producer
        case Sending(_) => Send
        case Reporting => LoadInserted
        case ReportingFailed(_) => LoadFailed
        case _ => Convert(true)
  }

  lemma StuckStep(c: Config, s: State)
    requires c.batchSize == 0 && 0 < c.total && 0 < c.concurrency && Stuck(c, s)
    ensures Enabled(c, s, StuckAction(s)) && Stuck(c, Apply(c, s, StuckAction(s)))
  {
    assert s.writers[0] in {Idle, Listening, Inserting(Batch(0, 0)), RecordingWrite(Batch(0, 0), 0)};
  }

  lemma {:induction false} StuckRun(c: Config, n: nat) returns (run: seq<State>)
    requires c.batchSize == 0 && 0 < c.total && 0 < c.concurrency
    ensures IsRun(c, run) && |run| == n + 1 && Stuck(c, run[n])
  {
    hide Apply, Enabled, StuckAction;
    if n == 0 {
      run := [Init(c)];
    } else {
      var before := StuckRun(c, n - 1);
      StuckStep(c, before[n - 1]);
      run := OneMore(c, before, StuckAction(before[n - 1]));
    }
  }

  /** The job is sure to end exactly if its batch size is positive or there is nothing to load. */
  lemma TerminatesExactlyWhenProductive(c: Config)
    requires 0 < c.concurrency
    ensures (exists bound: nat :: RunsBounded(c, bound)) <==> Productive(c)
  {
    if Productive(c) {
      var bound := WorkLeft(c, Init(c)) + 1;
      forall run | IsRun(c, run) ensures |run| <= bound {
        RunsGetShorter(c, run, |run| - 1);
      }
      assert RunsBounded(c, bound);
    } else {
      forall bound: nat ensures !RunsBounded(c, bound) {
        var run := StuckRun(c, bound);
      }
    }
  }
}
