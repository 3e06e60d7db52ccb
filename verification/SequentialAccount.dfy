/** What a whole run of the sequential path leaves behind: which rows are stored, which have a dead
    letter, and what later chunks make of it. */
module SequentialAccount {
  import opened Chunks
  import opened Dedup
  import opened SequentialIngest
  import opened Wrappers

  // Failures and dead letters

  /** All replacements of the chunk succeed. */
  predicate ReplacesAll<B(!new)>(job: Job<B>, k: nat) {
    var lo := job.Offset(k);
    match job.world.convert(lo, job.ChunkEnd(lo))
    case None => true
    case Some(docs) => forall j: nat | j < |Replacements(Verdicts(job, k, docs))| :: ReplaceOk(job, k)(j)
  }

  lemma OutcomeAccount<B(!new)>(job: Job<B>, k: nat)
    requires job.Offset(k) <= job.total
    ensures var o := Outcome(job, k); o.failed == |o.letters| + o.lost && |o.sources| == |o.letters|
    ensures Outcome(job, k).lost == 0 <==> ReplacesAll(job, k)
  {
    var lo := job.Offset(k);
    var converted := job.world.convert(lo, job.ChunkEnd(lo));
    if converted.Some? {
      var results := Verdicts(job, k, converted.value);
      hide Inserts, InsertPositions, Replacements, Skips, Verdicts, Succeeded;
      EachVerdictOnce(results);
      AllSucceeded(ReplaceOk(job, k), |Replacements(results)|);
    }
  }

  /** Over a whole run every failure has a dead letter, except for the replacements that failed: the
      two agree if and only if no replacement did. */
  lemma {:induction false} FailuresAreRecorded<B(!new)>(job: Job<B>, c: nat)
    ensures var p := After(job, c); p.totals.failed == |p.letters| + p.lost && |p.sources| == |p.letters|
    ensures After(job, c).totals.failed == |After(job, c).letters| <==> forall k: nat | k < c :: ReplacesAll(job, k)
  {
    hide After, Outcome, ReplacesAll;
    if c == 0 {
      AfterSteps(job, 0);
    } else {
      OffsetInRange(job, c - 1);
      AfterSteps(job, c);
      FailuresAreRecorded(job, c - 1);
      OutcomeAccount(job, c - 1);
    }
  }

  // The rows of a run: stored, recorded, or both

  /** Different rows in order, within bounds. */
  predicate Ordered(rows: seq<nat>, lo: nat, hi: nat) {
    && (forall i | 0 <= i < |rows| :: lo <= rows[i] < hi)
    && forall i, j | 0 <= i < j < |rows| :: rows[i] < rows[j]
  }

  lemma {:induction false} PositionsAreInserts<B>(results: seq<DedupResult<B>>, p: nat, n: nat)
    requires n <= |InsertPositions(results)|
    ensures Ordered(InsertPositions(results), 0, |results|)
    ensures p in InsertPositions(results)[..n]
      <==> p < |results| && results[p].Insert? && |Inserts(results[..p])| < n
  {
    if results != [] {
      var before := results[..|results| - 1];
      var m := |InsertPositions(before)|;
      EachVerdictOnce(before);
      PositionsAreInserts(before, p, if n <= m then n else m);
      if n > m {
        assert InsertPositions(results)[..n] == InsertPositions(before)[..m] + [|results| - 1];
      } else {
        assert InsertPositions(results)[..n] == InsertPositions(before)[..n];
      }
      if p < |before| {
        assert before[..p] == results[..p];
        InsertsGrow(before, p);
      } else if p == |before| {
        assert results[..p] == before;
      }
    }
  }

  lemma {:induction false} InsertsGrow<B>(results: seq<DedupResult<B>>, p: nat)
    requires p < |results|
    ensures |Inserts(results[..p])| + (if results[p].Insert? then 1 else 0) <= |Inserts(results)|
  {
    var before := results[..|results| - 1];
    if p < |before| {
      InsertsGrow(before, p);
      assert before[..p] == results[..p];
    } else {
      assert results[..p] == before;
    }
  }

  /** The verdict on a row of chunk number k, if the chunk was converted. */
  function VerdictOn<B(!new)>(job: Job<B>, k: nat, r: nat): Option<DedupResult<B>>
    requires job.ConvertsRows() && job.Offset(k) <= r < job.Offset(k + 1) <= job.total
  {
    var lo := job.Offset(k);
    match job.world.convert(lo, job.ChunkEnd(lo))
    case None => None
    case Some(docs) => Some(Verdicts(job, k, docs)[r - lo])
  }

  /** How many inserts stand before the row in its chunk. */
  function Rank<B(!new)>(job: Job<B>, k: nat, r: nat): nat
    requires job.ConvertsRows() && job.Offset(k) <= r < job.Offset(k + 1) <= job.total
  {
    var lo := job.Offset(k);
    match job.world.convert(lo, job.ChunkEnd(lo))
    case None => 0
    case Some(docs) => |Inserts(Verdicts(job, k, docs)[..r - lo])|
  }

  lemma ChunkRows<B(!new)>(job: Job<B>, k: nat, r: nat)
    requires job.ConvertsRows() && job.Offset(k) <= r < job.Offset(k + 1) <= job.total
    ensures var verdict, insertion := VerdictOn(job, k, r), job.world.insert(k);
      && (r in Outcome(job, k).stored
          <==> verdict.Some? && verdict.value.Insert? && (insertion.Acknowledged? || Rank(job, k, r) < insertion.landed))
      && (r in Outcome(job, k).sources <==> verdict.None? || (verdict.value.Insert? && insertion.Failed?))
  {
    var lo := job.Offset(k);
    var converted := job.world.convert(lo, job.ChunkEnd(lo));
    if converted.Some? {
      InsertedRows(job, k, converted.value, r);
    } else {
      assert Rows(lo, job.ChunkEnd(lo))[r - lo] == r;
    }
  }

  lemma InsertedRows<B(!new)>(job: Job<B>, k: nat, docs: seq<Doc<B>>, r: nat)
    requires job.ConvertsRows() && job.Offset(k) <= r < job.Offset(k + 1) <= job.total
    requires job.world.convert(job.Offset(k), job.ChunkEnd(job.Offset(k))) == Some(docs)
    ensures var lo, results, insertion := job.Offset(k), Verdicts(job, k, docs), job.world.insert(k);
      && r - lo < |results|
      && (r in Outcome(job, k).stored
          <==> results[r - lo].Insert? && (insertion.Acknowledged? || |Inserts(results[..r - lo])| < insertion.landed))
      && (r in Outcome(job, k).sources <==> results[r - lo].Insert? && insertion.Failed?)
  {
    hide Outcome, Inserts, InsertPositions, InsertRows;
    var lo, results, insertion := job.Offset(k), Verdicts(job, k, docs), job.world.insert(k);
    assert |results| == |docs| == job.Offset(k + 1) - lo;
    hide Verdicts, Job.Offset, Job.ConvertsRows;
    var all := |InsertPositions(results)|;
    var n := if insertion.Acknowledged? || insertion.landed >= all then all else insertion.landed;
    RowsOfOutcome(job, k, docs, n);
    InsertRowsOf(lo, results, r, all);
    InsertRowsOf(lo, results, r, n);
    RankBelowAll(results, r - lo);
  }

  lemma RowsOfOutcome<B(!new)>(job: Job<B>, k: nat, docs: seq<Doc<B>>, n: nat)
    requires job.Offset(k) <= job.total
    requires job.world.convert(job.Offset(k), job.ChunkEnd(job.Offset(k))) == Some(docs)
    requires var insertion, all := job.world.insert(k), |InsertPositions(Verdicts(job, k, docs))|;
      n == if insertion.Acknowledged? || insertion.landed >= all then all else insertion.landed
    ensures var rows := InsertRows(job.Offset(k), Verdicts(job, k, docs));
      && n <= |InsertPositions(Verdicts(job, k, docs))| == |rows|
      && Outcome(job, k).stored == rows[..n]
      && Outcome(job, k).sources == if job.world.insert(k).Failed? then rows[..|rows|] else []
  {
    hide Inserts, InsertPositions, Verdicts, Replacements, Skips, Job.Offset, Succeeded, WriteLetters;
  }

  lemma RankBelowAll<B>(results: seq<DedupResult<B>>, p: nat)
    requires p < |results|
    ensures results[p].Insert? ==> |Inserts(results[..p])| < |InsertPositions(results)|
  {
    EachVerdictOnce(results);
    InsertsGrow(results, p);
  }

  lemma InsertRowsOf<B>(lo: nat, results: seq<DedupResult<B>>, r: nat, n: nat)
    requires n <= |InsertPositions(results)| && lo <= r
    ensures r in InsertRows(lo, results)[..n]
      <==> r - lo < |results| && results[r - lo].Insert? && |Inserts(results[..r - lo])| < n
  {
    PositionsAreInserts(results, r - lo, n);
    hide Inserts, InsertPositions;
    var positions, rows := InsertPositions(results)[..n], InsertRows(lo, results)[..n];
    assert forall j | 0 <= j < n :: rows[j] == lo + positions[j];
    if r in rows {
      var j :| 0 <= j < n && rows[j] == r;
      assert positions[j] == r - lo;
    }
    if r - lo in positions {
      var j :| 0 <= j < n && positions[j] == r - lo;
      assert rows[j] == r;
    }
  }

  lemma ChunkOrdered<B(!new)>(job: Job<B>, k: nat)
    requires job.ConvertsRows() && job.Offset(k) <= job.total
    ensures Ordered(Outcome(job, k).stored, job.Offset(k), job.Offset(k + 1))
    ensures Ordered(Outcome(job, k).sources, job.Offset(k), job.Offset(k + 1))
  {
    hide Outcome, InsertRows, InsertPositions, Verdicts, Ordered;
    var lo, hi := job.Offset(k), job.ChunkEnd(job.Offset(k));
    var converted := job.world.convert(lo, hi);
    OffsetStep(job, k);
    if converted.Some? {
      var results, insertion := Verdicts(job, k, converted.value), job.world.insert(k);
      var all := |InsertPositions(results)|;
      assert |results| == hi - lo by {
        VerdictEach(job, k, converted.value);
      }
      RowsOfOutcome(job, k, converted.value, if insertion.Acknowledged? || insertion.landed >= all then all else insertion.landed);
      InsertRowsOrdered(lo, results);
      PrefixOrdered(InsertRows(lo, results), |Outcome(job, k).stored|, lo, hi);
      PrefixOrdered(InsertRows(lo, results), |Outcome(job, k).sources|, lo, hi);
    } else {
      ConversionOutcome(job, k);
      RowsOrdered(lo, hi);
    }
  }

  lemma VerdictEach<B(!new)>(job: Job<B>, k: nat, docs: seq<Doc<B>>)
    ensures |Verdicts(job, k, docs)| == |docs|
  {
  }

  lemma InsertRowsOrdered<B>(lo: nat, results: seq<DedupResult<B>>)
    ensures Ordered(InsertRows(lo, results), lo, lo + |results|)
  {
    PositionsAreInserts(results, 0, 0);
    hide InsertPositions;
  }

  lemma PrefixOrdered(rows: seq<nat>, n: nat, lo: nat, hi: nat)
    requires Ordered(rows, lo, hi) && n <= |rows|
    ensures Ordered(rows[..n], lo, hi) && Ordered([], lo, hi)
  {
  }

  lemma RowsOrdered(lo: nat, hi: nat)
    requires lo <= hi
    ensures Ordered(Rows(lo, hi), lo, hi) && Ordered([], lo, hi)
  {
  }

  lemma OrderedAppend(a: seq<nat>, b: seq<nat>, lo: nat, mid: nat, hi: nat)
    requires Ordered(a, lo, mid) && Ordered(b, mid, hi) && lo <= mid <= hi
    ensures Ordered(a + b, lo, hi)
    ensures forall r: nat | r < mid :: r in a + b <==> r in a
    ensures forall r: nat | mid <= r :: r in a + b <==> r in b
  {
  }

  lemma {:induction false} RunOrdered<B(!new)>(job: Job<B>, c: nat)
    requires job.ConvertsRows()
    ensures Ordered(After(job, c).stored, 0, job.Offset(c)) && Ordered(After(job, c).sources, 0, job.Offset(c))
  {
    hide After, Outcome, Ordered;
    if c == 0 {
      AfterSteps(job, 0);
      assert Ordered([], 0, 0) by {
        NoRows();
      }
    } else {
      var k := c - 1;
      OffsetInRange(job, k);
      OffsetStep(job, k);
      AfterSteps(job, c);
      RunOrdered(job, k);
      ChunkOrdered(job, k);
      OrderedAppend(After(job, k).stored, Outcome(job, k).stored, 0, job.Offset(k), job.Offset(c));
      OrderedAppend(After(job, k).sources, Outcome(job, k).sources, 0, job.Offset(k), job.Offset(c));
    }
  }

  lemma NoRows()
    ensures Ordered([], 0, 0)
  {
  }

  lemma {:induction false} RowFate<B(!new)>(job: Job<B>, c: nat, k: nat, r: nat)
    requires job.ConvertsRows() && k < c && job.Offset(k) <= r < job.Offset(k + 1)
    ensures r in After(job, c).stored <==> r in Outcome(job, k).stored
    ensures r in After(job, c).sources <==> r in Outcome(job, k).sources
  {
    hide After, Outcome, Ordered;
    var last := c - 1;
    OffsetInRange(job, last);
    OffsetStep(job, last);
    AfterSteps(job, c);
    RunOrdered(job, last);
    ChunkOrdered(job, last);
    OrderedAppend(After(job, last).stored, Outcome(job, last).stored, 0, job.Offset(last), job.Offset(c));
    OrderedAppend(After(job, last).sources, Outcome(job, last).sources, 0, job.Offset(last), job.Offset(c));
    if k < last {
      RowFate(job, last, k, r);
      OffsetsGrow(job, k + 1, last);
    }
  }

  lemma {:induction false} OffsetsGrow<B(!new)>(job: Job<B>, j: nat, k: nat)
    requires j <= k
    ensures job.Offset(j) <= job.Offset(k) <= job.total
  {
    OffsetInRange(job, k);
    if j < k {
      OffsetsGrow(job, j, k - 1);
      OffsetStep(job, k - 1);
    }
  }

  /** Over a whole run a row taken up has its document in the collection by an insert or a dead letter
      exactly if its chunk was not converted or its verdict is to insert it; it has both exactly if
      it landed although the insert of its chunk failed. No row has two letters. */
  lemma StoredOrRecorded<B(!new)>(job: Job<B>, c: nat, k: nat, r: nat)
    requires job.ConvertsRows() && k < c && job.Offset(k) <= r < job.Offset(k + 1) <= job.total
    ensures var p, verdict, insertion := After(job, c), VerdictOn(job, k, r), job.world.insert(k);
      && (r in p.stored || r in p.sources <==> verdict.None? || verdict.value.Insert?)
      && (r in p.stored && r in p.sources
          <==> verdict.Some? && verdict.value.Insert? && insertion.Failed? && Rank(job, k, r) < insertion.landed)
      && Ordered(p.sources, 0, job.Offset(c)) && Ordered(p.stored, 0, job.Offset(c))
  {
    hide After, Outcome, VerdictOn, Rank, Ordered;
    RowFate(job, c, k, r);
    ChunkRows(job, k, r);
    RunOrdered(job, c);
  }

  /** The letter is about the row: its conversion failed, or the letter holds its document. */
  ghost predicate LetterOf<B(!new)>(job: Job<B>, letter: DeadLetter<B>, r: nat, c: nat) {
    exists k: nat | k < c && job.Offset(k) <= r < job.Offset(k + 1) ::
      var docs := job.world.convert(job.Offset(k), job.ChunkEnd(job.Offset(k)));
      if docs.None? then letter == DeadLetter(r, Conversion, map[])
      else
        && letter.stage == Write && r - job.Offset(k) < |docs.value| && letter.doc == docs.value[r - job.Offset(k)]
        && letter.row == job.Offset(k) + |Inserts(Verdicts(job, k, docs.value)[..r - job.Offset(k)])|
  }

  lemma {:induction false} PositionRank<B>(results: seq<DedupResult<B>>, m: nat)
    requires m < |InsertPositions(results)|
    ensures InsertPositions(results)[m] < |results| && |Inserts(results[..InsertPositions(results)[m]])| == m
  {
    var before := results[..|results| - 1];
    EachVerdictOnce(before);
    if m < |InsertPositions(before)| {
      PositionRank(before, m);
      assert before[..InsertPositions(before)[m]] == results[..InsertPositions(before)[m]];
    } else {
      assert results[..|results| - 1] == before;
    }
  }

  lemma ChunkLetters<B(!new)>(job: Job<B>, k: nat, m: nat)
    requires job.ConvertsRows() && job.Offset(k) <= job.total
    requires m < |Outcome(job, k).letters| == |Outcome(job, k).sources|
    ensures LetterOf(job, Outcome(job, k).letters[m], Outcome(job, k).sources[m], k + 1)
  {
    hide Outcome;
    var lo := job.Offset(k);
    var converted := job.world.convert(lo, job.ChunkEnd(lo));
    OffsetStep(job, k);
    if converted.Some? {
      InsertLetter(job, k, converted.value, m);
    } else {
      ConversionOutcome(job, k);
      assert ConversionLetters<B>(lo, job.ChunkEnd(lo))[m].row == lo + m;
    }
    var source := Outcome(job, k).sources[m];
    assert k < k + 1 && lo <= source < job.Offset(k + 1);
  }

  lemma InsertLetter<B(!new)>(job: Job<B>, k: nat, docs: seq<Doc<B>>, m: nat)
    requires job.ConvertsRows() && job.Offset(k) <= job.total
    requires job.world.convert(job.Offset(k), job.ChunkEnd(job.Offset(k))) == Some(docs)
    requires m < |Outcome(job, k).letters| == |Outcome(job, k).sources|
    ensures var lo, letter := job.Offset(k), Outcome(job, k).letters[m];
      var p := Outcome(job, k).sources[m] - lo;
      && 0 <= p < |docs| && letter.stage == Write && letter.doc == docs[p]
      && letter.row == lo + |Inserts(Verdicts(job, k, docs)[..p])|
  {
    var results := Verdicts(job, k, docs);
    hide Inserts, InsertPositions, Replacements, Skips, Verdicts, Succeeded, Lookup;
    EachVerdictOnce(results);
    InsertsStandAtTheirPositions(results, m);
    PositionRank(results, m);
    InsertedIsIncoming(job, k, docs, InsertPositions(results)[m]);
  }

  lemma InsertedIsIncoming<B(!new)>(job: Job<B>, k: nat, docs: seq<Doc<B>>, p: nat)
    requires p < |Verdicts(job, k, docs)| && Verdicts(job, k, docs)[p].Insert?
    ensures p < |docs| && Verdicts(job, k, docs)[p].doc == docs[p]
  {
  }

  /** A letter about a failed write is filed under the row it is about exactly if every document before
      that one in its chunk was an insert. */
  lemma FiledUnderItsRow<B>(results: seq<DedupResult<B>>, lo: nat, p: nat)
    requires p <= |results|
    ensures lo + |Inserts(results[..p])| == lo + p <==> forall i | 0 <= i < p :: results[i].Insert?
  {
    var before := results[..p];
    EachVerdictOnce(before);
    AllInsertsWhenAsMany(before, p);
    assert forall i | 0 <= i < p :: before[i] == results[i];
  }

  /** Every dead letter of a run is about the row it came from: a conversion letter under its number, a
      write letter with its document, under the number of inserts before it in the chunk. */
  lemma {:induction false} LettersHoldTheirDocuments<B(!new)>(job: Job<B>, c: nat, m: nat)
    requires job.ConvertsRows() && m < |After(job, c).letters|
    ensures |After(job, c).sources| == |After(job, c).letters|
    ensures LetterOf(job, After(job, c).letters[m], After(job, c).sources[m], c)
  {
    hide After, Outcome, ReplacesAll;
    FailuresAreRecorded(job, c);
    if c == 0 {
      AfterSteps(job, 0);
    } else {
      var k := c - 1;
      OffsetInRange(job, k);
      AfterSteps(job, c);
      FailuresAreRecorded(job, k);
      OutcomeAccount(job, k);
      var n := |After(job, k).letters|;
      if m < n {
        LettersHoldTheirDocuments(job, k, m);
      } else {
        ChunkLetters(job, k, m - n);
      }
    }
  }

  // The counters, from the documents themselves

  function InsertsIn<B>(results: seq<DedupResult<B>>): set<int> {
    set i | 0 <= i < |results| && results[i].Insert?
  }

  function SkipsIn<B>(results: seq<DedupResult<B>>): set<int> {
    set i | 0 <= i < |results| && results[i].Skipped?
  }

  function ReplacementsIn<B>(results: seq<DedupResult<B>>): set<int> {
    set i | 0 <= i < |results| && (results[i].Replace? || results[i].MergeWith?)
  }

  lemma {:induction false} InsertsCounted<B>(results: seq<DedupResult<B>>)
    ensures |Inserts(results)| == |InsertsIn(results)|
  {
    if results != [] {
      var n := |results| - 1;
      var before := results[..n];
      InsertsCounted(before);
      assert InsertsIn(results) == if results[n].Insert? then InsertsIn(before) + {n} else InsertsIn(before);
    }
  }

  lemma {:induction false} SkipsCounted<B>(results: seq<DedupResult<B>>)
    ensures Skips(results) == |SkipsIn(results)|
  {
    if results != [] {
      var n := |results| - 1;
      var before := results[..n];
      SkipsCounted(before);
      assert SkipsIn(results) == if results[n].Skipped? then SkipsIn(before) + {n} else SkipsIn(before);
    }
  }

  lemma {:induction false} ReplacementsCounted<B>(results: seq<DedupResult<B>>)
    ensures |Replacements(results)| == |ReplacementsIn(results)|
  {
    if results != [] {
      var n := |results| - 1;
      var before := results[..n];
      ReplacementsCounted(before);
      assert ReplacementsIn(results) == if results[n].Replace? || results[n].MergeWith? then ReplacementsIn(before) + {n} else ReplacementsIn(before);
    }
  }

  lemma CountedByVerdict<B>(results: seq<DedupResult<B>>)
    ensures |Inserts(results)| == |InsertsIn(results)|
    ensures Skips(results) == |SkipsIn(results)|
    ensures |Replacements(results)| == |ReplacementsIn(results)|
  {
    InsertsCounted(results);
    SkipsCounted(results);
    ReplacementsCounted(results);
  }

  function Good(ok: nat -> bool, n: nat): set<nat> {
    set j: nat | j < n && ok(j)
  }

  lemma GoodStep(ok: nat -> bool, n: nat)
    ensures Good(ok, 0) == {} && n !in Good(ok, n)
    ensures Good(ok, n + 1) == if ok(n) then Good(ok, n) + {n} else Good(ok, n)
  {
  }

  lemma {:induction false} SucceededCounts(ok: nat -> bool, n: nat)
    ensures Succeeded(ok, n) == |Good(ok, n)|
  {
    hide Good;
    if n == 0 {
      GoodStep(ok, 0);
    } else {
      SucceededCounts(ok, n - 1);
      GoodStep(ok, n - 1);
    }
  }

  /** What chunk number k adds to each counter, counted on the verdicts of its documents. */
  lemma ChunkAdds<B(!new)>(job: Job<B>, k: nat)
    requires job.Offset(k) <= job.total
    ensures var before, after := After(job, k).totals, After(job, k + 1).totals;
      var lo, hi := job.Offset(k), job.ChunkEnd(job.Offset(k));
      && after.processed == before.processed + (hi - lo)
      && match job.world.convert(lo, hi)
         case None =>
           after.failed == before.failed + (hi - lo) && after.inserted == before.inserted && after.skipped == before.skipped
         case Some(docs) =>
           var results := Verdicts(job, k, docs);
           var inserts, replacements := |InsertsIn(results)|, |ReplacementsIn(results)|;
           var replaced := |set j: nat | j < replacements && job.world.replaceOk(k, j)|;
           var acknowledged := job.world.insert(k).Acknowledged?;
           && after.skipped == before.skipped + |SkipsIn(results)|
           && after.inserted == before.inserted + (if acknowledged then inserts else 0) + replaced
           && after.failed == before.failed + (if acknowledged then 0 else inserts) + (replacements - replaced)
  {
    var lo, hi := job.Offset(k), job.ChunkEnd(job.Offset(k));
    AfterSteps(job, k + 1);
    match job.world.convert(lo, hi)
    case None => ConversionOutcome(job, k);
    case Some(docs) =>
      var results := Verdicts(job, k, docs);
      hide Inserts, Skips, Replacements, InsertPositions, Succeeded, Verdicts, After, InsertsIn, SkipsIn, ReplacementsIn;
      CountedByVerdict(results);
      SucceededCounts(ReplaceOk(job, k), |Replacements(results)|);
      var n := |Replacements(results)|;
      assert Good(ReplaceOk(job, k), n) == set j: nat | j < n && job.world.replaceOk(k, j);
  }

  /** A report gives the counters after its chunk, which was converted, with the rows before the next
      one processed; later reports are about later chunks. */
  lemma {:induction false} ReportsAreCurrent<B(!new)>(job: Job<B>, c: nat, i: nat)
    requires job.ConvertsRows() && i < |Reports(job, c)|
    ensures var report := Reports(job, c)[i];
      && 1 <= report.chunk <= c && Converted(job, report.chunk - 1).Some?
      && report.totals == After(job, report.chunk).totals && report.totals.processed == job.Offset(report.chunk)
    ensures forall j | i < j < |Reports(job, c)| :: Reports(job, c)[i].chunk < Reports(job, c)[j].chunk
  {
    hide After, Converted, Job.Offset, Job.ConvertsRows;
    var before, now := Reports(job, c - 1), Reports(job, c);
    RowsConserved(job, c);
    if i < |before| {
      ReportsAreCurrent(job, c - 1, i);
      assert now[i] == before[i];
      forall j | i < j < |now| ensures now[i].chunk < now[j].chunk {
        if j < |before| {
          assert now[j] == before[j];
        }
      }
    }
  }

  /** Every chunk that was converted is reported. */
  lemma {:induction false} ConvertedIsReported<B(!new)>(job: Job<B>, c: nat, k: nat) returns (i: nat)
    requires k < c && Converted(job, k).Some?
    ensures i < |Reports(job, c)| && Reports(job, c)[i].chunk == k + 1
  {
    hide After, Converted;
    if k == c - 1 {
      i := |Reports(job, c - 1)|;
    } else {
      i := ConvertedIsReported(job, c - 1, k);
    }
  }

  // Deduplication from one chunk to the next

  /** The inserts of chunk number k that are in the collection. */
  function LandedDocs<B(!new)>(job: Job<B>, k: nat): seq<Doc<B>> {
    match job.world.convert(job.Offset(k), job.ChunkEnd(job.Offset(k)))
    case None => []
    case Some(docs) => Landed(job.world.insert(k), Inserts(Verdicts(job, k, docs)))
  }

  predicate HasKey<B(!new)>(checker: Checker<B>, filter: Doc<B>, collection: seq<Doc<B>>) {
    exists i | 0 <= i < |collection| :: SameKey(checker, filter, collection[i])
  }

  /** What a chunk stored is there for the next one, and keys that are there stay. */
  ghost predicate Remembers<B(!new)>(job: Job<B>) {
    forall k: nat :: RemembersChunk(job, k)
  }

  ghost predicate RemembersChunk<B(!new)>(job: Job<B>, k: nat) {
    var now, next := job.world.collection(k), job.world.collection(k + 1);
    && (forall d | d in LandedDocs(job, k) :: d in next)
    && forall filter :: HasKey(job.checker, filter, now) ==> HasKey(job.checker, filter, next)
  }

  lemma {:induction false} KeysStay<B(!new)>(job: Job<B>, filter: Doc<B>, j: nat, k: nat)
    requires Remembers(job) && j <= k && HasKey(job.checker, filter, job.world.collection(j))
    ensures HasKey(job.checker, filter, job.world.collection(k))
  {
    hide HasKey, LandedDocs;
    if j < k {
      KeysStay(job, filter, j, k - 1);
      assert RemembersChunk(job, k - 1);
    }
  }

  /** A document whose complete key an earlier chunk stored is not inserted again. */
  lemma StoredKeyIsNotInsertedAgain<B(!new)>(job: Job<B>, j: nat, k: nat, stored: Doc<B>, doc: Doc<B>)
    requires Remembers(job) && (forall x :: job.checker.cmp.same(x, x)) && job.checker.key != []
    requires j < k && stored in LandedDocs(job, j)
    requires KeyFields(job.checker.key, stored).Some? && KeyFields(job.checker.key, doc) == KeyFields(job.checker.key, stored)
    ensures !Lookup(job.checker, job.world.collection(k), doc).Insert?
  {
    hide LandedDocs;
    var filter := KeyFields(job.checker.key, doc).value;
    assert RemembersChunk(job, j);
    assert stored in job.world.collection(j + 1);
    assert SameKey(job.checker, filter, stored);
    KeysStay(job, filter, j + 1, k);
    FirstIsFirst(job.checker, filter, job.world.collection(k));
  }
}
