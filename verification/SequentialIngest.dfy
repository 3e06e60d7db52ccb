/** The sequential ingestion path: chunk by chunk, with deduplication and four counters. */
module SequentialIngest {
  import opened Chunks
  import opened Dedup
  import opened Wrappers

  datatype DeadLetter<B> = DeadLetter(row: nat, stage: Stage, doc: Doc<B>)

  datatype Totals = Totals(processed: nat, inserted: nat, skipped: nat, failed: nat) {
    predicate Conserved() {
      inserted + skipped + failed == processed
    }
  }

  /** How an ordered insert of many documents ends: acknowledged, or failed with the first few of
      them in the collection all the same. */
  datatype Insertion = Acknowledged | Failed(landed: nat)

  /** What the world does to chunk number c: its rows as documents, the collection it is checked
      against, and how its calls end. */
  datatype World<!B> = World(
    convert: (nat, nat) -> Option<seq<Doc<B>>>,
    collection: nat -> seq<Doc<B>>,
    cancelled: nat -> bool,
    queryOk: nat -> bool,
    insert: nat -> Insertion,
    replaceOk: (nat, nat) -> bool)

  datatype Job<!B(!new)> = Job(total: nat, batchSize: nat, checker: Checker<B>, world: World<B>) {
    /** A conversion yields one document for each row. */
    ghost predicate ConvertsRows() {
      forall lo: nat, hi: nat | lo <= hi <= total && world.convert(lo, hi).Some? :: |world.convert(lo, hi).value| == hi - lo
    }

    function ChunkEnd(offset: nat): nat {
      Chunks.End(offset, batchSize, total)
    }

    /** Where chunk number c begins. */
    function Offset(c: nat): nat {
      if c == 0 then 0 else ChunkEnd(Offset(c - 1))
    }
  }

  // Sorting the verdicts of a chunk

  function Inserts<B>(results: seq<DedupResult<B>>): seq<Doc<B>> {
    if results == [] then []
    else Inserts(results[..|results| - 1]) + if results[|results| - 1].Insert? then [results[|results| - 1].doc] else []
  }

  /** The positions the inserts come from. */
  function InsertPositions<B>(results: seq<DedupResult<B>>): seq<nat> {
    if results == [] then []
    else InsertPositions(results[..|results| - 1]) + if results[|results| - 1].Insert? then [|results| - 1] else []
  }

  function Replacements<B>(results: seq<DedupResult<B>>): seq<Doc<B>> {
    if results == [] then []
    else
      var last := results[|results| - 1];
      Replacements(results[..|results| - 1]) + if last.Replace? || last.MergeWith? then [Replacement(last)] else []
  }

  function Skips<B>(results: seq<DedupResult<B>>): nat {
    if results == [] then 0
    else Skips(results[..|results| - 1]) + if results[|results| - 1].Skipped? then 1 else 0
  }

  lemma {:induction false} EachVerdictOnce<B>(results: seq<DedupResult<B>>)
    ensures |Inserts(results)| + |Replacements(results)| + Skips(results) == |results|
    ensures |InsertPositions(results)| == |Inserts(results)|
  {
    if results != [] {
      EachVerdictOnce(results[..|results| - 1]);
    }
  }

  lemma {:induction false} InsertsStandAtTheirPositions<B>(results: seq<DedupResult<B>>, j: nat)
    requires j < |InsertPositions(results)| == |Inserts(results)|
    ensures var p := InsertPositions(results)[j];
      j <= p < |results| && results[p] == Insert(Inserts(results)[j])
  {
    EachVerdictOnce(results[..|results| - 1]);
    if j < |InsertPositions(results[..|results| - 1])| {
      InsertsStandAtTheirPositions(results[..|results| - 1], j);
    } else {
      EachVerdictOnce(results[..|results| - 1]);
    }
  }

  /** The row a failed write is recorded under is the row it came from exactly when no document
      before it in the chunk was skipped or set aside for replacement. */
  lemma {:induction false} RecordedRowIsSourceRow<B>(results: seq<DedupResult<B>>, offset: nat, j: nat)
    requires j < |InsertPositions(results)|
    ensures offset + j == offset + InsertPositions(results)[j] <==> forall i | 0 <= i < |results| && i <= j :: results[i].Insert?
  {
    var n := |results| - 1;
    EachVerdictOnce(results[..n]);
    if j < |InsertPositions(results[..n])| {
      RecordedRowIsSourceRow(results[..n], offset, j);
    } else {
      AllInsertsWhenAsMany(results[..n], n);
      if forall i | 0 <= i < |results| && i <= j :: results[i].Insert? {
        AllInsertsWhenAsMany(results[..n], if j < n then j + 1 else n);
      }
    }
  }

  /** A failed write filed under the wrong row: the chunk's first document was skipped. */
  lemma MisfiledRow<B>(doc: Doc<B>, offset: nat)
    ensures var results := [Skipped, Insert(doc)];
      Inserts(results) == [doc] && InsertPositions(results) == [1] && offset + 0 != offset + InsertPositions(results)[0]
  {
    var first: seq<DedupResult<B>> := [Skipped];
    assert [Skipped, Insert(doc)][..1] == first && first[..0] == [];
    assert Inserts(first) == [] && InsertPositions(first) == [];
  }

  lemma {:induction false} AllInsertsWhenAsMany<B>(results: seq<DedupResult<B>>, k: nat)
    requires k <= |results|
    ensures |InsertPositions(results)| <= |results|
    ensures |InsertPositions(results)| == |results| ==> forall i | 0 <= i < |results| :: results[i].Insert?
    ensures (forall i | 0 <= i < k :: results[i].Insert?) ==> |InsertPositions(results)| >= k
  {
    if results != [] {
      AllInsertsWhenAsMany(results[..|results| - 1], if k < |results| then k else k - 1);
    }
  }

  method SortVerdicts<B>(results: seq<DedupResult<B>>)
    returns (toInsert: seq<Doc<B>>, toReplace: seq<Doc<B>>, skipped: nat)
    ensures toInsert == Inserts(results) && toReplace == Replacements(results) && skipped == Skips(results)
  {
    toInsert, toReplace, skipped := [], [], 0;
    for i := 0 to |results|
      invariant toInsert == Inserts(results[..i])
      invariant toReplace == Replacements(results[..i])
      invariant skipped == Skips(results[..i])
    {
      assert results[..i + 1][..i] == results[..i];
      match results[i] {
        case Insert(d) => toInsert := toInsert + [d];
        case Skipped => skipped := skipped + 1;
        case Replace(d) => toReplace := toReplace + [d];
        case MergeWith(incoming, existing) =>
          var merged := MergeDocuments(incoming, existing);
          toReplace := toReplace + [merged];
      }
    }
    assert results[..|results|] == results;
  }

  lemma {:induction false} InsertsSplit<B>(a: seq<DedupResult<B>>, b: seq<DedupResult<B>>)
    ensures Inserts(a + b) == Inserts(a) + Inserts(b)
  {
    if b == [] {
      assert a + b == a;
    } else {
      var n := |b| - 1;
      InsertsSplit(a, b[..n]);
      assert (a + b)[..|a| + n] == a + b[..n];
      Regroup(Inserts(a), Inserts(b[..n]), if b[n].Insert? then [b[n].doc] else []);
    }
  }

  lemma {:induction false} ReplacementsSplit<B>(a: seq<DedupResult<B>>, b: seq<DedupResult<B>>)
    ensures Replacements(a + b) == Replacements(a) + Replacements(b)
  {
    if b == [] {
      assert a + b == a;
    } else {
      var n := |b| - 1;
      ReplacementsSplit(a, b[..n]);
      assert (a + b)[..|a| + n] == a + b[..n];
      Regroup(Replacements(a), Replacements(b[..n]), if b[n].Replace? || b[n].MergeWith? then [Replacement(b[n])] else []);
    }
  }

  /** Sorting two batches of verdicts one after the other is sorting them together: inserts and
      replacements keep the order of their documents. */
  lemma SortingKeepsOrder<B>(a: seq<DedupResult<B>>, b: seq<DedupResult<B>>)
    ensures Inserts(a + b) == Inserts(a) + Inserts(b)
    ensures Replacements(a + b) == Replacements(a) + Replacements(b)
  {
    InsertsSplit(a, b);
    ReplacementsSplit(a, b);
  }

  /** A replacement writes the incoming document, or the stored one with the incoming one's fields. */
  lemma SortingOne<B>(r: DedupResult<B>)
    ensures Inserts([r]) == if r.Insert? then [r.doc] else []
    ensures r.Replace? ==> Replacements([r]) == [r.doc]
    ensures r.MergeWith? ==> Replacements([r]) == [r.existing + r.incoming]
    ensures r.Insert? || r.Skipped? ==> Replacements([r]) == []
  {
    var one := [r];
    assert one[..0] == [];
  }

  lemma Regroup<T>(a: seq<T>, b: seq<T>, c: seq<T>)
    ensures a + (b + c) == a + b + c
  {
  }

  // One chunk

  /** The counts of one chunk and its dead letters; and, for the account only, the rows those really
      come from, the rows of the inserts that reached the collection, and the replacements that
      failed. */
  datatype ChunkOutcome<B> = ChunkOutcome(
    rows: nat, inserted: nat, skipped: nat, failed: nat,
    letters: seq<DeadLetter<B>>, sources: seq<nat>, stored: seq<nat>, lost: nat)

  function Succeeded(ok: nat -> bool, n: nat): (k: nat)
    ensures k <= n
  {
    if n == 0 then 0 else Succeeded(ok, n - 1) + if ok(n - 1) then 1 else 0
  }

  lemma {:induction false} AllSucceeded(ok: nat -> bool, n: nat)
    ensures Succeeded(ok, n) == n <==> forall j: nat | j < n :: ok(j)
  {
    if n != 0 {
      AllSucceeded(ok, n - 1);
    }
  }

  lemma SucceededSteps(ok: nat -> bool, n: nat)
    ensures Succeeded(ok, 0) == 0 && Succeeded(ok, n + 1) == Succeeded(ok, n) + if ok(n) then 1 else 0
  {
  }

  function Verdicts<B(!new)>(job: Job<B>, c: nat, docs: seq<Doc<B>>): seq<DedupResult<B>> {
    seq(|docs|, i requires 0 <= i < |docs| => Lookup(job.checker, job.world.collection(c), docs[i]))
  }

  function ConversionLetters<B>(lo: nat, hi: nat): seq<DeadLetter<B>>
    requires lo <= hi
  {
    seq(hi - lo, i requires 0 <= i < hi - lo => DeadLetter(lo + i, Conversion, map[]))
  }

  function WriteLetters<B>(offset: nat, docs: seq<Doc<B>>): seq<DeadLetter<B>> {
    seq(|docs|, i requires 0 <= i < |docs| => DeadLetter(offset + i, Write, docs[i]))
  }

  function Rows(lo: nat, hi: nat): seq<nat>
    requires lo <= hi
  {
    seq(hi - lo, i requires 0 <= i < hi - lo => lo + i)
  }

  /** The rows that the inserts of a chunk come from. */
  function InsertRows<B>(lo: nat, results: seq<DedupResult<B>>): seq<nat> {
    var positions := InsertPositions(results);
    seq(|positions|, j requires 0 <= j < |positions| => lo + positions[j])
  }

  /** What an insert leaves in the collection. */
  function Landed<T>(insertion: Insertion, inserts: seq<T>): seq<T> {
    if insertion.Acknowledged? || insertion.landed >= |inserts| then inserts else inserts[..insertion.landed]
  }

  function ReplaceOk<B(!new)>(job: Job<B>, c: nat): nat -> bool {
    (j: nat) => job.world.replaceOk(c, j)
  }

  /** What becomes of the rows of chunk number c when it is carried out. */
  function Outcome<B(!new)>(job: Job<B>, c: nat): ChunkOutcome<B>
    requires job.Offset(c) <= job.total
  {
    var lo := job.Offset(c);
    var hi := job.ChunkEnd(lo);
    match job.world.convert(lo, hi)
    case None => ChunkOutcome(hi - lo, 0, 0, hi - lo, ConversionLetters(lo, hi), Rows(lo, hi), [], 0)
    case Some(docs) =>
      var results := Verdicts(job, c, docs);
      var inserts, replaced := Inserts(results), |Replacements(results)|;
      var ok := Succeeded(ReplaceOk(job, c), replaced);
      var acknowledged := job.world.insert(c).Acknowledged?;
      ChunkOutcome(
        hi - lo,
        (if acknowledged then |inserts| else 0) + ok,
        Skips(results),
        (if acknowledged then 0 else |inserts|) + (replaced - ok),
        if acknowledged then [] else WriteLetters(lo, inserts),
        if acknowledged then [] else InsertRows(lo, results),
        Landed(job.world.insert(c), InsertRows(lo, results)),
        replaced - ok)
  }

  /** The filter is the complete key of one of the first n documents. */
  ghost predicate AddressesOne<B>(key: seq<string>, docs: seq<Doc<B>>, n: nat, filter: Option<Doc<B>>)
    requires n <= |docs|
  {
    filter.Some? && exists i | 0 <= i < n :: KeyFields(key, docs[i]) == filter
  }

  lemma ReplacementsStep<B>(results: seq<DedupResult<B>>, n: nat)
    requires n < |results|
    ensures Replacements(results[..n + 1])
         == Replacements(results[..n])
            + if results[n].Replace? || results[n].MergeWith? then [Replacement(results[n])] else []
  {
    assert results[..n + 1][..n] == results[..n];
  }

  /** Where the chunks begin: at the multiples of the batch size, up to the last row. */
  lemma {:induction false} OffsetIsMultiple<B(!new)>(job: Job<B>, c: nat)
    ensures job.Offset(c) == Least(c * job.batchSize, job.total)
  {
    if c != 0 {
      OffsetIsMultiple(job, c - 1);
      assert c * job.batchSize == (c - 1) * job.batchSize + job.batchSize;
    }
  }

  /** Each replacement of a chunk is addressed by the key of the incoming document it stands for. */
  lemma {:induction false} ReplacementAddressed<B(!new)>(job: Job<B>, c: nat, docs: seq<Doc<B>>, n: nat, j: nat)
    requires n <= |docs| && j < |Replacements(Verdicts(job, c, docs)[..n])|
    ensures AddressesOne(job.checker.key, docs, n,
                         KeyFields(job.checker.key, Replacements(Verdicts(job, c, docs)[..n])[j]))
  {
    var results := Verdicts(job, c, docs);
    assert n > 0;
    var last := n - 1;
    assert results[last] == Lookup(job.checker, job.world.collection(c), docs[last]);
    hide Replacements, Verdicts, KeyFields, Lookup, Replacement;
    ReplacementsStep(results, last);
    if j < |Replacements(results[..last])| {
      ReplacementAddressed(job, c, docs, last, j);
    } else {
      ReplacementKeepsKey(job.checker, job.world.collection(c), docs[last]);
    }
  }

  lemma {:induction false} OffsetInRange<B(!new)>(job: Job<B>, c: nat)
    ensures job.Offset(c) <= job.total
    ensures 0 < job.batchSize ==> job.Offset(c) >= (if c < job.total then c else job.total)
    ensures job.batchSize == 0 ==> job.Offset(c) == 0
  {
    if c != 0 {
      OffsetInRange(job, c - 1);
    }
  }

  // The whole run

  datatype Progress<B> = Progress(
    totals: Totals, letters: seq<DeadLetter<B>>, sources: seq<nat>, stored: seq<nat>, lost: nat)

  function Nothing<B>(): Progress<B> {
    Progress(Totals(0, 0, 0, 0), [], [], [], 0)
  }

  /** What is reported after a chunk: the counters and the number of chunks. */
  datatype Report = Report(totals: Totals, chunk: nat)

  /** The reports of the first c chunks: one after each that was converted. */
  function Reports<B(!new)>(job: Job<B>, c: nat): seq<Report> {
    if c == 0 then []
    else
      Reports(job, c - 1)
      + if Converted(job, c - 1).Some? then [Report(After(job, c).totals, c)] else []
  }

  function Converted<B(!new)>(job: Job<B>, k: nat): Option<seq<Doc<B>>> {
    job.world.convert(job.Offset(k), job.ChunkEnd(job.Offset(k)))
  }

  /** The check of the chunk needs its query, and the query fails. */
  predicate QueryFails<B(!new)>(job: Job<B>, k: nat) {
    && !job.world.queryOk(k) && job.checker.key != [] && Converted(job, k).Some?
    && exists i | 0 <= i < |Converted(job, k).value| :: KeyFields(job.checker.key, Converted(job, k).value[i]).Some?
  }

  /** Adds one chunk's outcome to the counters. */
  function Advance<B>(before: Progress<B>, now: ChunkOutcome<B>): Progress<B> {
    Progress(
      Totals(before.totals.processed + now.rows, before.totals.inserted + now.inserted,
             before.totals.skipped + now.skipped, before.totals.failed + now.failed),
      before.letters + now.letters, before.sources + now.sources, before.stored + now.stored, before.lost + now.lost)
  }

  /** The counters and dead letters after the first c chunks. */
  function After<B(!new)>(job: Job<B>, c: nat): Progress<B> {
    if c == 0 then Nothing()
    else
      OffsetInRange(job, c - 1);
      Advance(After(job, c - 1), Outcome(job, c - 1))
  }

  lemma OutcomeConserves<B(!new)>(job: Job<B>, c: nat)
    requires job.ConvertsRows() && job.Offset(c) <= job.total
    ensures var o := Outcome(job, c);
      o.inserted + o.skipped + o.failed == o.rows == job.Offset(c + 1) - job.Offset(c)
  {
    var lo := job.Offset(c);
    var hi := job.ChunkEnd(lo);
    if job.world.convert(lo, hi).Some? {
      EachVerdictOnce(Verdicts(job, c, job.world.convert(lo, hi).value));
    }
  }

  /** At every chunk boundary each row before the offset has been counted exactly once. */
  lemma {:induction false} RowsConserved<B(!new)>(job: Job<B>, c: nat)
    requires job.ConvertsRows()
    ensures After(job, c).totals.Conserved()
    ensures After(job, c).totals.processed == job.Offset(c) <= job.total
  {
    hide After, Outcome;
    AfterSteps(job, c);
    OffsetInRange(job, c);
    if c != 0 {
      OffsetInRange(job, c - 1);
      RowsConserved(job, c - 1);
      OutcomeConserves(job, c - 1);
    }
  }

  lemma AfterSteps<B(!new)>(job: Job<B>, c: nat)
    requires c != 0 ==> job.Offset(c - 1) <= job.total
    ensures After(job, c) == if c == 0 then Nothing() else Advance(After(job, c - 1), Outcome(job, c - 1))
  {
  }

  // The methods

  /** The write half of a chunk whose rows were converted. */
  method WriteChunk<B(!new)>(job: Job<B>, c: nat, lo: nat, docs: seq<Doc<B>>)
    returns (checked: bool, outcome: ChunkOutcome<B>)
    requires job.ConvertsRows() && MatchesCover(job.checker)
    requires lo == job.Offset(c) <= job.total && job.world.convert(lo, job.ChunkEnd(lo)) == Some(docs)
    ensures !checked <==> QueryFails(job, c)
    ensures !checked ==> lo < job.ChunkEnd(lo)
    ensures checked ==> outcome == Outcome(job, c)
  {
    hide Inserts, Replacements, Skips, Succeeded, InsertRows, Landed, WriteLetters, Lookup;
    var inserted: nat, skipped: nat, failed: nat := 0, 0, 0;
    outcome := ChunkOutcome(job.ChunkEnd(lo) - lo, 0, 0, 0, [], [], [], 0);
    var verdicts := CheckBatch(job.checker, job.world.collection(c), docs, job.world.queryOk(c));
    if verdicts.Failure? {
      checked := false;
      return;
    }
    checked := true;
    var results := verdicts.value;
    assert results == Verdicts(job, c, docs);
    var toInsert, toReplace, newSkips := SortVerdicts(results);
    skipped := newSkips;
    var letters, sources, stored;
    inserted, failed, letters, sources, stored := WriteInserts(job, c, lo, results, toInsert);
    assert results[..|docs|] == results;
    var replaced, filters := WriteReplacements(job, c, docs, toReplace);
    inserted, failed := inserted + replaced, failed + (|toReplace| - replaced);
    outcome := ChunkOutcome(job.ChunkEnd(lo) - lo, inserted, skipped, failed, letters, sources, stored, |toReplace| - replaced);
  }

  /** The inserts of a chunk, as one call: all acknowledged, or all counted and recorded as failed. */
  method WriteInserts<B(!new)>(job: Job<B>, c: nat, lo: nat, results: seq<DedupResult<B>>, toInsert: seq<Doc<B>>)
    returns (inserted: nat, failed: nat, letters: seq<DeadLetter<B>>, sources: seq<nat>, stored: seq<nat>)
    requires toInsert == Inserts(results)
    ensures stored == Landed(job.world.insert(c), InsertRows(lo, results))
    ensures job.world.insert(c).Acknowledged? ==> inserted == |toInsert| && failed == 0 && letters == [] && sources == []
    ensures job.world.insert(c).Failed? ==>
      inserted == 0 && failed == |toInsert| && letters == WriteLetters(lo, toInsert) && sources == InsertRows(lo, results)
  {
    hide Inserts;
    EachVerdictOnce(results);
    inserted, failed, letters, sources, stored := 0, 0, [], [], [];
    if toInsert != [] {
      stored := Landed(job.world.insert(c), InsertRows(lo, results));
      if job.world.insert(c).Acknowledged? {
        inserted := |toInsert|;
      } else {
        letters, sources := WriteLetters(lo, toInsert), InsertRows(lo, results);
        failed := |toInsert|;
      }
    }
  }

  /** Each replacement is sent with a filter of its own complete key fields, never the empty
      default, and these are the key fields of an incoming document. */
  method WriteReplacements<B(!new)>(job: Job<B>, c: nat, docs: seq<Doc<B>>, toReplace: seq<Doc<B>>)
    returns (replaced: nat, filters: seq<Doc<B>>)
    requires toReplace == Replacements(Verdicts(job, c, docs)[..|docs|])
    ensures |filters| == |toReplace|
    ensures forall j | 0 <= j < |filters| :: KeyFields(job.checker.key, toReplace[j]) == Some(filters[j])
    ensures forall j | 0 <= j < |filters| :: AddressesOne(job.checker.key, docs, |docs|, Some(filters[j]))
    ensures replaced == Succeeded(ReplaceOk(job, c), |toReplace|)
  {
    hide Verdicts, Replacements, KeyFields, Succeeded;
    SucceededSteps(ReplaceOk(job, c), 0);
    replaced, filters := 0, [];
    for j := 0 to |toReplace|
      invariant replaced == Succeeded(ReplaceOk(job, c), j)
      invariant |filters| == j
      invariant forall k | 0 <= k < j :: KeyFields(job.checker.key, toReplace[k]) == Some(filters[k])
      invariant forall k | 0 <= k < j :: AddressesOne(job.checker.key, docs, |docs|, Some(filters[k]))
    {
      var filter := BuildDedupFilter(job.checker.key, toReplace[j]);
      ReplacementAddressed(job, c, docs, |docs|, j);
      SucceededSteps(ReplaceOk(job, c), j);
      filters := filters + [if filter.Some? then filter.value else map[]];
      if job.world.replaceOk(c, j) {
        replaced := replaced + 1;
      }
    }
  }

  lemma ConversionOutcome<B(!new)>(job: Job<B>, c: nat)
    requires job.Offset(c) <= job.total && job.world.convert(job.Offset(c), job.ChunkEnd(job.Offset(c))).None?
    ensures var lo := job.Offset(c); var hi := job.ChunkEnd(lo);
      Outcome(job, c) == ChunkOutcome(hi - lo, 0, 0, hi - lo, ConversionLetters(lo, hi), Rows(lo, hi), [], 0)
  {
  }

  datatype Carried = Written | NotConverted | NotChecked

  /** Carries out one chunk: converts its rows and writes them, or gives them up together. */
  method CarryOut<B(!new)>(job: Job<B>, c: nat, lo: nat) returns (carried: Carried, outcome: ChunkOutcome<B>)
    requires job.ConvertsRows() && MatchesCover(job.checker)
    requires lo == job.Offset(c) <= job.total
    ensures carried.NotChecked? <==> QueryFails(job, c)
    ensures carried.NotChecked? ==> lo < job.ChunkEnd(lo)
    ensures !carried.NotChecked? ==> outcome == Outcome(job, c)
    ensures carried.NotConverted? <==> Converted(job, c).None?
  {
    hide Outcome, MatchesCover, Job.Offset, Job.ConvertsRows;
    var hi := job.ChunkEnd(lo);
    var docs := job.world.convert(lo, hi);
    if docs.None? {
      ConversionOutcome(job, c);
      return NotConverted, ChunkOutcome(hi - lo, 0, 0, hi - lo, ConversionLetters(lo, hi), Rows(lo, hi), [], 0);
    }
    var checked, written := WriteChunk(job, c, lo, docs.value);
    return if checked then Written else NotChecked, written;
  }

  datatype End = Finished | Cancelled | QueryFailed | OutOfSteps

  lemma OffsetStep<B(!new)>(job: Job<B>, c: nat)
    ensures job.Offset(0) == 0 && job.Offset(c + 1) == job.ChunkEnd(job.Offset(c))
    ensures job.Offset(c) <= job.Offset(c + 1) <= job.total
    ensures job.batchSize == 0 ==> job.Offset(c + 1) == 0
  {
    OffsetInRange(job, c);
    OffsetInRange(job, c + 1);
  }

  lemma AtBoundary<B(!new)>(job: Job<B>, c: nat, totals: Totals)
    requires job.ConvertsRows() && totals == After(job, c).totals
    ensures totals.Conserved() && totals.processed == job.Offset(c) <= job.total
    ensures 0 < job.batchSize && job.total <= c ==> job.Offset(c) == job.total
    ensures job.batchSize == 0 ==> job.Offset(c) == 0
  {
    RowsConserved(job, c);
    OffsetInRange(job, c);
  }

  /** Runs the job for at most `steps` chunks. A job with a positive batch size finishes within as
      many chunks as it has rows; one with batch size zero and rows to load never finishes. */
  method RunSequentialWrites<B(!new)>(job: Job<B>, steps: nat)
    returns (end: End, totals: Totals, letters: seq<DeadLetter<B>>, reports: seq<Report>, chunks: nat,
             ghost sources: seq<nat>, ghost stored: seq<nat>, ghost lost: nat)
    requires job.ConvertsRows() && MatchesCover(job.checker)
    ensures Progress(totals, letters, sources, stored, lost) == After(job, chunks)
    ensures totals.Conserved() && totals.processed == job.Offset(chunks) <= job.total
    ensures reports == Reports(job, chunks)
    ensures forall k: nat | k < chunks :: !job.world.cancelled(k) && !QueryFails(job, k)
    ensures end == Finished ==> totals.processed == job.total
    ensures end == Cancelled ==> job.world.cancelled(chunks) && totals.processed < job.total
    ensures end == QueryFailed ==> !job.world.cancelled(chunks) && QueryFails(job, chunks) && totals.processed < job.total
    ensures end == OutOfSteps ==> chunks == steps && totals.processed < job.total
    ensures 0 < job.batchSize && job.total <= steps ==> end != OutOfSteps
    ensures job.batchSize == 0 && 0 < job.total && (forall c: nat :: !job.world.cancelled(c)) ==> end == OutOfSteps
  {
    hide After, Outcome, MatchesCover, Job.Offset, Job.ConvertsRows, Job.ChunkEnd, QueryFails, Converted;
    AfterSteps(job, 0);
    OffsetStep(job, 0);
    var processed: nat, inserted: nat, skipped: nat, failed: nat := 0, 0, 0, 0;
    var offset: nat := 0;
    letters, reports, chunks := [], [], 0;
    sources, stored, lost := [], [], 0;
    while offset < job.total && chunks < steps
      invariant offset == job.Offset(chunks) <= job.total && chunks <= steps
      invariant Progress(Totals(processed, inserted, skipped, failed), letters, sources, stored, lost) == After(job, chunks)
      invariant reports == Reports(job, chunks)
      invariant forall k: nat | k < chunks :: !job.world.cancelled(k) && !QueryFails(job, k)
      decreases steps - chunks
    {
      AtBoundary(job, chunks, Totals(processed, inserted, skipped, failed));
      AfterSteps(job, chunks + 1);
      OffsetStep(job, chunks);
      if job.world.cancelled(chunks) {
        end, totals := Cancelled, Totals(processed, inserted, skipped, failed);
        return;
      }
      var carried, now := CarryOut(job, chunks, offset);
      if carried.NotChecked? {
        end, totals := QueryFailed, Totals(processed, inserted, skipped, failed);
        return;
      }
      processed, inserted := processed + now.rows, inserted + now.inserted;
      skipped, failed := skipped + now.skipped, failed + now.failed;
      letters := letters + now.letters;
      sources, stored, lost := sources + now.sources, stored + now.stored, lost + now.lost;
      chunks := chunks + 1;
      offset := job.ChunkEnd(offset);
      if carried.Written? {
        AtBoundary(job, chunks, Totals(processed, inserted, skipped, failed));
        reports := reports + [Report(Totals(processed, inserted, skipped, failed), chunks)];
      }
    }
    totals := Totals(processed, inserted, skipped, failed);
    AtBoundary(job, chunks, totals);
    end := if offset < job.total then OutOfSteps else Finished;
  }
}
