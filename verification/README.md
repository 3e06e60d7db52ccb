# A verified model of the ingestion engine, the transactional pipeline and the binary transport

This project models the parts of the repository whose behaviour is hardest to see from one body of
code, and proves what they promise.

* **Concurrent ingestion** (`ConcurrentIngest`, `ConcurrentOrder`): one producer, a bounded channel of twice the
  concurrency, writers that share one locked receiver, two atomic counters and a dead letter queue, as
  a step relation. Its results hold of every interleaving and of every way the calls turn out.
* **Sequential ingestion** (`SequentialIngest`, `SequentialAccount`, `Dedup`, with `Chunks` shared by both paths): the chunk loop with its four counters, and
  the batched duplicate check, proved against a lookup of each document on its own.
* **The transactional pipeline**: the reference language `step.field[0].other[*]` (`References`),
  paths into JSON values (`Resolution`, `PathLaws`), placeholders in text (`Interpolation`, `TameTexts`), references
  anywhere in a value (`ValueResolution`, `Visibility`), the static check (`PipelineValidation`), the
  executor with its retries (`TransactionPipeline`) and what the check promises for every run
  (`PipelineSoundness`).
* **The binary transport**: bit-packed headers (`FrameFormat`, over `Bytes`), writing and reading
  frames (`FrameIo`, with the pool of `BufferPool`), concatenated BSON documents (`BsonDocs`, after the
  `document` production of the BSON specification, version 1.1), the priority queue (`RequestQueue`)
  and the request loop of a connection (`Connection` for what is owed, `ConnectionLoop` for the loop).
* **Small stateful pieces**: the rate limiter (`Quota`), the partitioned cache (`TenantIsolation`) and
  type widening (`Schema`).

Code that changes state in place is a class or a method with a loop, proved against a function of the
old state; the theorems are then about that function, over whole runs. Calls into the driver, the
socket, the clock and the data frame are parameters: functions, or scripts of what happens next.

What the code does is kept where an obvious claim about it is false, and the exact condition is proved:

* The limiter's comment at `src/tenant/quota.rs:6` promises a sliding window. The window is a fixed one:
  a second can hold twice the maximum, and never more. The promise itself is kept only by a limiter
  that grants nothing (`SlidingWindowKeptOnlyByZero`).
* A pipeline step that refers to itself passes the check, because its name is recorded before its
  references are checked, and then can never run (`SelfReferenceIsAccepted`,
  `KnownExactlyWithoutSelfReference`, `SelfReferenceNeverSucceeds`).
* Strings such as `{{a}b}}` and `{{}}` are invisible to the check and yet are looked up at run time
  (`SeenExactlyWhenVisible`, `UnseenReferenceIsAccepted`, `UnseenPipelineIsAccepted`).
* `.length` on an array ignores the rest of its path, so a path composes exactly if its first part asks no
  array for its length (`ComposesExactlyWhenDirect`).
* A failed write in the sequential path is recorded under its place among the inserts, which is its row
  exactly if every document before it in the chunk is inserted too (`RecordedRowIsSourceRow`,
  `MisfiledRow`).
* A failed insert of many documents may have stored a prefix of them, and all of them are recorded as
  failed: those rows, and only those, are both stored and recorded
  (`ConcurrentIngest.StoredOrRecorded`, `SequentialAccount.StoredOrRecorded`, `LandedTwice`).
* Documents of one batch are not checked against each other (`BatchDuplicatesBothInsert`).
* With a batch size of zero the concurrent job has unboundedly long runs
  (`TerminatesExactlyWhenProductive`).
* An undecodable frame that wants no reply does not flush what is buffered
  (`EmptyAtBatchEnd`, `StrandedResponse`).
* A text that is filled in may be looked at again by the next replacement: exactly the texts in which a
  placeholder begins, whole or still to be completed, are (`TameExactlyWhenHarmless`).
* A failed replacement is counted but gets no dead letter (`FailuresAreRecorded`).
* The frame in hand is not compared with those read behind it (`Handler.Admit`, `UrgentFrameWaits`).
* The shutdown notice is not a readable frame of its own format (`ShutdownFrameIsMalformed`).

## Model

| member | source | states |
|---|---|---|
| ConcurrentIngest.InvHoldsThroughout | src/ingestion/engine.rs:214-347 | In every state of every run each row below the total is in exactly one of six places (unsent, with the producer, queued, with a writer, acknowledged as inserted, recorded as failed) and no other row is anywhere; every batch is a chunk of the batch size; failed rows have, or will get, one letter of the stage they failed at; the queue holds at most twice the concurrency; the counters equal the rows of acknowledged batches and the letters of batches recorded to the end; the offset is the chunk count times the batch size, up to the total, every fourth chunk is reported, and every report has inserted + failed <= processed <= total |
| ConcurrentIngest.BatchesAreChunks | src/ingestion/engine.rs:289-296 | In every state of every run whatever is sent, queued, held, inserted, refused or given up begins at a multiple of the batch size and has that many rows, unless it ends with the last row |
| ConcurrentIngest.InvInit | src/ingestion/engine.rs:225-275 | The job starts in a state with those properties |
| ConcurrentIngest.InvStep | src/ingestion/engine.rs:229-344 | Whatever step of the producer or a writer comes next, and however its call turns out (a failed ordered insert may leave any prefix of its batch in the collection), those properties are kept |
| ConcurrentIngest.RowStep | src/ingestion/engine.rs:244-315 | A step moves a row from one place to another but never loses or copies it |
| ConcurrentIngest.HeldStep | src/ingestion/engine.rs:244-315 | A step keeps the sum: rows taken up = rows held + rows inserted + letters |
| ConcurrentIngest.InsertedStep | src/ingestion/engine.rs:252-255 | The inserted counter always equals the rows of the batches inserted |
| ConcurrentIngest.FailedStep | src/ingestion/engine.rs:256-271 | The failed counter lags behind the letters by exactly those of batches still being recorded |
| ConcurrentIngest.FailureStep | src/ingestion/engine.rs:256-310 | A step keeps, for each row, one letter recorded or still to come for a chunk that was not converted or a batch that was refused, of that stage, and none otherwise |
| ConcurrentIngest.QueueStep | src/ingestion/engine.rs:230-231 | The channel never holds more than twice the concurrency, and only non-empty batches when the batch size is positive |
| ConcurrentIngest.ScheduleStep | src/ingestion/engine.rs:314-327 | A step keeps the offset at the chunk count times the batch size, up to the total, and exactly every fourth chunk reported, with the rows processed by then |
| ConcurrentIngest.ListenerStep | src/ingestion/engine.rs:245-248 | At most one writer waits on the shared receiver at a time |
| ConcurrentIngest.ExitStep | src/ingestion/engine.rs:249-249 | A writer leaves only when the channel is closed and empty |
| ConcurrentIngest.ReportStep | src/ingestion/engine.rs:317-344 | Reports never claim more rows than have been taken up, although the two counters are read at different moments; the last report is exact |
| ConcurrentIngest.CountersBounded | src/ingestion/engine.rs:226-227 | The two counters together never run ahead of the rows taken up |
| ConcurrentIngest.AccountedAtTheEnd | src/ingestion/engine.rs:330-347 | When the job has ended each row below the offset was either acknowledged as inserted or has exactly one dead letter, and no other row has either; inserted + failed = offset, which is the total unless the job was cancelled, and the last report says so |
| ConcurrentIngest.LettersByCause | src/ingestion/engine.rs:256-310 | At the end the conversion letters are about exactly the rows of the chunks that could not be converted, and the write letters about exactly the rows of the batches whose insert failed, one each |
| ConcurrentIngest.StoredOrRecorded | src/ingestion/engine.rs:252-271 | When the job has ended each row below the offset is in the collection once or has one dead letter, and has both if and only if it lies in the prefix that landed of a failed batch; no other row has either |
| ConcurrentIngest.LandedTwice | src/ingestion/engine.rs:252-271 | Such a row exists: a run of every job of one batch whose insert fails after its first row |
| ConcurrentIngest.CancelledAtAnOffset | src/ingestion/engine.rs:280-287 | Once cancelled, the job stays cancelled and its offset does not move, whatever the writers still do |
| ConcurrentIngest.CancelledRunAccounts | src/ingestion/engine.rs:280-287 | A job cancelled at some offset ends with exactly the rows before that offset in the collection or recorded as failed; each was acknowledged or recorded once, and is both stored and recorded exactly if it landed with a failed batch |
| ConcurrentIngest.NoDeadlock | src/ingestion/engine.rs:229-334 | With at least one writer, every reachable state in which the job has not ended has an enabled step other than a cancellation |
| ConcurrentIngest.WriterCanStep | src/ingestion/engine.rs:243-274 | While there is a batch or the channel is closed, and some writer has not left, a step of a writer is enabled |
| ConcurrentIngest.WorkFalls | src/ingestion/engine.rs:280-334 | With a positive batch size every step lowers the work left |
| ConcurrentIngest.RunsGetShorter | src/ingestion/engine.rs:280-334 | A run of n steps has at least n units of work behind it |
| ConcurrentIngest.MaximalRunsFinish | src/ingestion/engine.rs:277-347 | A run that cannot be continued has ended the job |
| ConcurrentIngest.StuckRun | src/ingestion/engine.rs:289-315 | With batch size zero and rows to load there is a run of any length that never takes up a row: empty batches are converted, sent, received and refused for ever |
| ConcurrentIngest.TerminatesExactlyWhenProductive | src/ingestion/engine.rs:289-315 | With at least one writer the lengths of runs are bounded if and only if the batch size is positive or there is nothing to load |
| ConcurrentOrder.FirstSentFirstTaken | src/ingestion/engine.rs:245-249 | In every state of every run the queue is in the order of the rows and every batch a writer holds was sent before all that are queued |
| ConcurrentOrder.ReportIsSnapshot | src/ingestion/engine.rs:317-344 | Each report gives the inserted counter as it was at one moment and the failed counter as it was at a later one, of the same chunk |
| SequentialIngest.RunSequentialWrites | src/ingestion/engine.rs:361-453 | The loop's counters and dead letters are those of the chunks carried out; each chunk that was converted is reported with the counters after it; inserted + skipped + failed = processed = the offset; no chunk is carried out after a cancellation or a failed query, which are the only ends before the last row; a positive batch size needs at most one chunk per row |
| SequentialIngest.OffsetIsMultiple | src/ingestion/engine.rs:370-377 | Chunk number c begins at row c times the batch size, up to the total |
| SequentialIngest.CarryOut | src/ingestion/engine.rs:376-446 | A chunk could not be checked if and only if some document of it has a complete key and the query fails; otherwise it has exactly the outcome its rows call for |
| SequentialIngest.WriteChunk | src/ingestion/engine.rs:401-442 | The write half of a chunk: each verdict counted once; a failed insert counts and records all inserts of the chunk as failed, whatever prefix of them landed; replacements succeed or fail one by one |
| SequentialIngest.WriteInserts | src/ingestion/engine.rs:416-435 | The inserts of a chunk are all acknowledged, or all counted and recorded as failed, whatever prefix of them landed |
| SequentialAccount.StoredOrRecorded | src/ingestion/engine.rs:371-450 | Over a whole run a row taken up reached the collection by an insert or has a dead letter if and only if its chunk could not be converted or its verdict was to insert it; it has both if and only if its chunk's insert failed and it was among the documents that landed; no row is stored or recorded twice |
| SequentialAccount.FailuresAreRecorded | src/ingestion/engine.rs:383-442 | Over a whole run the failed counter is the number of dead letters plus the replacements that failed; the two agree if and only if no replacement failed |
| SequentialAccount.ChunkAdds | src/ingestion/engine.rs:361-446 | What a chunk adds to each of the four counters, counted on the verdicts of its documents and the outcomes of its calls |
| SequentialAccount.ReportsAreCurrent | src/ingestion/engine.rs:444-450 | A report gives the counters after its chunk, with all rows before the next one processed; only converted chunks are reported, once each and in order |
| SequentialAccount.ConvertedIsReported | src/ingestion/engine.rs:444-450 | Every chunk that was converted is reported |
| SequentialAccount.LettersHoldTheirDocuments | src/ingestion/engine.rs:383-433 | Every dead letter of a run is about the row it came from: a conversion letter under that number, a write letter with that row's document under the chunk's offset plus the number of inserts before it |
| SequentialAccount.FiledUnderItsRow | src/ingestion/engine.rs:421-431 | That number is the row itself if and only if every document before it in the chunk is an insert |
| SequentialAccount.StoredKeyIsNotInsertedAgain | src/ingestion/engine.rs:401-414 | If the collection keeps its keys from chunk to chunk and values equal themselves, a document whose complete key an earlier chunk stored is never inserted by a later one |
| SequentialIngest.WriteReplacements | src/ingestion/engine.rs:436-442 | Every replacement is sent with a filter of its own complete key fields, which are those of an incoming document, and never with the empty default; those that succeed are counted |
| SequentialIngest.SortVerdicts | src/ingestion/engine.rs:402-414 | Inserts and replacements keep the order of the documents; the skipped are counted |
| SequentialIngest.SortingKeepsOrder | src/ingestion/engine.rs:402-414 | Sorting verdicts keeps the order of the documents among inserts and among replacements |
| SequentialIngest.SortingOne | src/ingestion/engine.rs:405-414 | What each single verdict contributes: the document itself, the overwriting document, the stored one with the incoming fields, or nothing |
| SequentialIngest.EachVerdictOnce | src/ingestion/engine.rs:405-414 | Inserts, replacements and skips add up to the documents checked |
| SequentialIngest.RowsConserved | src/ingestion/engine.rs:366-450 | At every chunk boundary of every job inserted + skipped + failed = processed = offset <= total |
| SequentialIngest.OutcomeConserves | src/ingestion/engine.rs:376-446 | Each chunk accounts for exactly the rows between its offset and the next |
| SequentialIngest.InsertsStandAtTheirPositions | src/ingestion/engine.rs:405-414 | The j-th insert is the document at the j-th insert position, never before place j |
| SequentialIngest.RecordedRowIsSourceRow | src/ingestion/engine.rs:421-431 | A failed insert is recorded under the row it came from if and only if all documents up to it in the chunk were inserts |
| SequentialIngest.MisfiledRow | src/ingestion/engine.rs:421-431 | A failed insert after a skipped document is filed under the wrong row |
| SequentialIngest.ReplacementAddressed | src/ingestion/engine.rs:436-438 | Each replacement of a chunk is addressed by the complete key fields of one of its incoming documents |
| Dedup.CheckBatch | src/ingestion/dedup.rs:48-112 | One disjunctive query for the batch gives each document the verdict a lookup of its own would, one verdict per document; it fails only if the query is needed and fails |
| Dedup.WithConflict | src/ingestion/dedup.rs:85-151 | The first stored document that has all key fields with equal values decides: under Skip the document is skipped, under Overwrite it replaces, under Merge it is merged with that one |
| Dedup.WithoutConflict | src/ingestion/dedup.rs:49-110 | A document is inserted when there is no key, when it misses a key field, or when no stored document has its key fields with equal values |
| Dedup.BatchedQueryFindsTheSame | src/ingestion/dedup.rs:54-101 | In the answer to many filters the first document with a given key is the first one with that key in the collection |
| Dedup.FirstIsFirst | src/ingestion/dedup.rs:97-101 | The document found has the same key fields and no earlier one does; nothing is found only if none does |
| Dedup.BuildDedupFilter | src/ingestion/dedup.rs:127-138 | The filter holds exactly the key fields with the document's values, and exists if and only if none is missing |
| Dedup.FilterIsTheKey | src/ingestion/dedup.rs:127-138 | The filter exists exactly if no key field is missing, and has those fields and no others, with the document's values |
| Dedup.MergeDocuments | src/ingestion/dedup.rs:154-160 | The merge has the fields of both documents and incoming values win |
| Dedup.ReplacementKeepsKey | src/ingestion/engine.rs:409-438 | Overwriting or merging leaves the key fields those of the incoming document, so its filter is never missing |
| Dedup.BatchDuplicatesBothInsert | src/ingestion/dedup.rs:87-109 | The check does not look inside the batch: two documents with the same complete key are both inserted if and only if no document of the collection has that key |
| Dedup.DuplicatePair | src/ingestion/dedup.rs:87-109 | Two different documents that are both inserted under one key, under every strategy |
| References.ParseReference | src/operations/pipeline_refs.rs:15-72 | The scanning loop ends on every input and computes what the recursive reading of the language gives, with the same error |
| References.ParseUndoesRender | src/operations/pipeline_refs.rs:15-72 | Printing a step and a path and parsing it gives both back if and only if the names are non-empty and free of `.` and `[` and the indices are machine words |
| References.ParsedIsWellFormed | src/operations/pipeline_refs.rs:15-72 | Whatever parses is a well-formed step and path |
| References.ReferenceErrors | src/operations/pipeline_refs.rs:18-55 | Which malformed reference is rejected for what: empty, no step name, an empty field name, an unclosed bracket |
| References.BracketErrors | src/operations/pipeline_refs.rs:56-68 | A bracket whose text is no index is rejected with that text, and anything but a field or bracket after one is unexpected |
| References.SegmentsRoundTrip | src/operations/pipeline_refs.rs:37-69 | Printed path segments parse back, through decimal indices |
| References.PrintedIndexParses | src/operations/pipeline_refs.rs:56-63 | A printed index is read as that index and never as a wildcard |
| References.ParsedNumber | src/operations/pipeline_refs.rs:60-62 | An index is plain digits below 2^64, with at most one plus sign before them |
| References.DecimalByDigits | src/operations/pipeline_refs.rs:60-62 | Digits are read from the most significant one on |
| Resolution.TraverseComposes | src/operations/pipeline_refs.rs:193-259 | Following p and then q is following p + q for every q, errors included, if p has no wildcard and asks no array for its length |
| Resolution.ComposesExactlyWhenDirect | src/operations/pipeline_refs.rs:193-259 | For p without wildcards and a non-empty q, following p + q equals following p and then q if and only if p asks no array for its length; at an array length the two always differ |
| Resolution.LengthIgnoresTheRest | src/operations/pipeline_refs.rs:207-212 | `.length` on an array gives its length, whatever path follows |
| Resolution.WildcardIsPointwise | src/operations/pipeline_refs.rs:245-252 | A wildcard follows the rest of the path in each item, keeps number and order, and succeeds if and only if every item does |
| Resolution.TraverseAllIsPointwise | src/operations/pipeline_refs.rs:247-251 | Collecting over the items succeeds exactly if each does, item by item |
| Resolution.TraverseFailsByPath | src/operations/pipeline_refs.rs:193-259 | Traversal fails only with one of the five path errors |
| Resolution.ResolveStringInPlace | src/operations/pipeline_refs.rs:140-171 | The loop that rewrites the string gives, at every step, what remains to be interpolated |
| Resolution.SingleReferenceKeepsType | src/operations/pipeline_refs.rs:145-154 | A string that is one reference, with white space around and inside, becomes the referenced value itself, whatever its type |
| Resolution.SingleExactly | src/operations/pipeline_refs.rs:146-150 | A string is taken as a single reference if and only if it is one placeholder between white space with no double brace inside |
| Resolution.InterpolateReplacesAll | src/operations/pipeline_refs.rs:156-168 | Interpolation succeeds if and only if every placeholder's reference resolves, and is then the repeated replacement |
| Resolution.InterpolationIsSimultaneous | src/operations/pipeline_refs.rs:156-170 | For strings of brace-free placeholders between literals that have no two opening braces in a row and do not end in one, and for tame texts, interpolation fills all placeholders in one simultaneous pass, or fails because some reference does |
| PathLaws.PutThenRead | src/operations/pipeline_refs.rs:193-244 | A path reads exactly what was put in the place it leads to |
| PathLaws.ReadThenPut | src/operations/pipeline_refs.rs:193-244 | Putting back what a path reads gives the same value |
| PathLaws.PutElsewhere | src/operations/pipeline_refs.rs:193-259 | What is put in one place is not seen along any path that parts from it at a field or index |
| PathLaws.FieldLeadsToItsMember | src/operations/pipeline_refs.rs:206-229 | A field of an object leads to the member of that key wherever it stands, and is reported missing if and only if no member has the key or the path below it says the same |
| PathLaws.IndexLeadsToItsItem | src/operations/pipeline_refs.rs:230-244 | An index leads to the item at that place, or is out of bounds |
| PathLaws.WrongKindFails | src/operations/pipeline_refs.rs:224-256 | A field of a non-object, an index or a wildcard of a non-array fails with the error of that kind |
| PathLaws.OnePlaceholderText | src/operations/pipeline_refs.rs:156-170 | A placeholder inside text becomes the string it refers to as it is, the word null, or the printed value |
| PathLaws.PrintedReferenceReads | src/operations/pipeline_refs.rs:145-191 | A printed reference standing alone in a string reads its path in the result of its step; without that step it is reported missing by name |
| Interpolation.ReplacementIsSimultaneous | src/operations/pipeline_refs.rs:156-168 | Repeated whole-string replacement equals one simultaneous pass for such strings and tame texts, including repeated placeholders, empty texts and braces: a text is tame if at no place in it a placeholder begins that is complete or that following text could complete |
| TameTexts.TameExactlyWhenHarmless | src/operations/pipeline_refs.rs:156-168 | Repeated replacement equals one simultaneous pass in every such string filled with given texts (or empty ones) if and only if each of the texts is tame |
| TameTexts.WildTextIsHarmful | src/operations/pipeline_refs.rs:156-168 | A text that is not tame is looked at again after it was filled in: some string with it comes out differently |
| TameTexts.RemovalAtTwoPlaces | src/operations/pipeline_refs.rs:167-167 | Replacing a pattern by nothing shortens a text by every one of its disjoint occurrences |
| Interpolation.ReplaceFillsOne | src/operations/pipeline_refs.rs:167-167 | One replacement fills exactly the placeholders with that text and nothing else |
| Interpolation.CapturesOfText | src/operations/pipeline_refs.rs:76-76 | The pattern search finds exactly the placeholders of a template, in order |
| Interpolation.PlaceholderExactly | src/operations/pipeline_refs.rs:76-76 | The pattern matches at a place if and only if two opening braces, a non-empty text without a closing brace and two closing braces stand there |
| Interpolation.CapturesSkip | src/operations/pipeline_refs.rs:76-76 | The search passes over every place where the pattern does not match |
| Interpolation.CapturesTake | src/operations/pipeline_refs.rs:76-76 | A match is taken whole and the search goes on behind it |
| Interpolation.SubstituteOfText | src/operations/pipeline_refs.rs:156-168 | The simultaneous pass fills each placeholder where it stands and copies every literal |
| Interpolation.FilledTextIsFilledAgain | src/operations/pipeline_refs.rs:156-168 | When a filled-in text is itself a later placeholder the engine fills it again, which one simultaneous pass would not |
| Interpolation.TrimSplits | src/operations/pipeline_refs.rs:146-146 | A string is its trimmed text between white space |
| ValueResolution.ResolutionFillsInPlace | src/operations/pipeline_refs.rs:107-138 | A value resolves to another if and only if that one is the same tree with each string replaced by its own resolution: same keys, same lengths, same order, everything else untouched |
| ValueResolution.ResolutionMonotone | src/operations/pipeline_refs.rs:107-138 | What resolves gives the same value when more steps have results |
| ValueResolution.ExtractReferences | src/operations/pipeline_refs.rs:75-104 | The references collected are exactly those of all strings in the value, each once |
| ValueResolution.ExtractInto | src/operations/pipeline_refs.rs:82-104 | Collecting keeps what was found before, in order, and adds only what is new |
| Visibility.SeenExactlyWhenVisible | src/operations/pipeline_refs.rs:76-171 | The collector sees the references a string looks up if and only if a whole-string reference is non-empty and has no closing brace; then it sees exactly those |
| Visibility.SingleCaptures | src/operations/pipeline_refs.rs:76-154 | What the pattern captures in a string that is one reference |
| Visibility.VisibleValuesAreSeen | src/operations/pipeline_refs.rs:82-138 | In a visible value the collected references are those the resolver looks up |
| Visibility.ResolutionIsGoverned | src/operations/pipeline_refs.rs:107-191 | A value resolves if and only if every reference it looks up does; when all of them name known steps it can fail only because of a path |
| PipelineValidation.ValidatePipeline | src/operations/transaction_pipeline.rs:28-125 | A pipeline passes if and only if it has 1 to 50 steps with valid unique names, a database, a collection, an allowed operation and limit, and only references that name the step itself or an earlier one; otherwise the first step at fault and the first rule it breaks are reported |
| PipelineValidation.CheckStep | src/operations/transaction_pipeline.rs:47-122 | The rules are applied in order: the one reported is broken and none before it is |
| PipelineValidation.CheckReferences | src/operations/transaction_pipeline.rs:100-118 | A reference is rejected as malformed, as pointing forward, or as unknown, whichever it is |
| PipelineValidation.FitsExactlyWhenNothingIsBroken | src/operations/transaction_pipeline.rs:47-122 | A step is accepted exactly if it breaks no rule |
| PipelineValidation.ValidName | src/operations/transaction_pipeline.rs:127-134 | A name is valid if and only if it is letters, digits and underscores and does not begin with a digit |
| PipelineValidation.NameForm | src/operations/transaction_pipeline.rs:127-134 | A valid name is an ASCII letter or underscore followed by ASCII letters, digits and underscores |
| TransactionPipeline.Execute | src/operations/transaction_pipeline.rs:186-338 | All or nothing: success means the database is the state after all steps in order, committed once, after at most three attempts of which all but the last ran completely and failed to commit transiently; failure leaves it unchanged and names the step, its index, the names completed before it and whether a rollback is claimed, for each of the eight reasons |
| TransactionPipeline.RunSteps | src/operations/transaction_pipeline.rs:232-297 | One attempt: every step ran in time on the state before it, with references resolved from the results of earlier steps of this attempt only; it stops at the first step that is late, unresolved or failing |
| TransactionPipeline.TransientText | src/operations/transaction_pipeline.rs:310-315 | A commit error is retried exactly if its text contains the name of the transient error |
| PipelineSoundness.TracesAgree | src/operations/transaction_pipeline.rs:232-297 | Two traces of the same attempt agree as far as both go |
| PipelineSoundness.SuccessIsDetermined | src/operations/transaction_pipeline.rs:204-338 | A successful run can have one outcome only: one attempt number, one list of results, one committed state |
| PipelineSoundness.TimeLimit | src/operations/transaction_pipeline.rs:238-250 | A step is stopped for time if and only if it begins after the limit; one that begins exactly at it goes on |
| PipelineSoundness.EarlierStepsHaveResults | src/operations/transaction_pipeline.rs:269-277 | Before each step the results map holds exactly the names of the steps before it |
| PipelineSoundness.EarlierResultsByName | src/operations/transaction_pipeline.rs:252-277 | What a step resolves against holds, under the name of each earlier step, the very result of that step in this attempt |
| PipelineSoundness.ReferenceRunsWhatItReads | src/operations/transaction_pipeline.rs:252-277 | A step whose operation is one printed reference to an earlier step runs what the path reads in that step's result |
| PipelineSoundness.KnownExactlyWithoutSelfReference | src/operations/transaction_pipeline.rs:100-118 | In an accepted pipeline a visible step finds every step it looks up if and only if it does not refer to itself |
| PipelineSoundness.OnlyPathsFail | src/operations/transaction_pipeline.rs:252-266 | When no step refers to itself and all references are visible, a run never ends with a missing step or a malformed reference |
| PipelineSoundness.UnknownReferenceNeverRuns | src/operations/transaction_pipeline.rs:252-266 | No attempt gets past a step that looks up a malformed reference or one that names no earlier step, whether the static check saw it or not |
| PipelineSoundness.SelfReferenceNeverRuns | src/operations/transaction_pipeline.rs:74-118 | No attempt gets past a step that refers to itself |
| PipelineSoundness.SelfReferenceNeverSucceeds | src/operations/transaction_pipeline.rs:74-118 | A pipeline with a step that refers to itself never succeeds |
| PipelineSoundness.SelfReferenceIsAccepted | src/operations/transaction_pipeline.rs:74-118 | A pipeline of one step that asks for its own result passes the check |
| PipelineSoundness.OperationsAgreeWithAllResults | src/operations/transaction_pipeline.rs:252-277 | Each operation run is also what its references give with the results of the whole attempt |
| PipelineSoundness.UnseenReferenceIsAccepted | src/operations/pipeline_refs.rs:76-154 | In any pipeline a step whose operation is `{{a}b}}` is judged by the check as if it held no reference, and an accepted pipeline with it never gets past that step |
| PipelineSoundness.UnseenPipelineIsAccepted | src/operations/transaction_pipeline.rs:100-118 | So does a pipeline of one step whose operation is `{{a}b}}`, which looks up a step that does not exist |
| FrameFormat.EncodeFlags | src/transport/frame.rs:164-178 | Building the word bit by bit gives the documented layout, without losing a bit of opcode or priority |
| FrameFormat.FlagsLayout | src/transport/frame.rs:144-178 | Opcode in bits 0 to 5, end of stream in bit 6, no reply in bit 7, batch follows in bit 8, priority in bits 9 and 10 |
| FrameFormat.FlagsRoundTrip | src/transport/frame.rs:164-197 | Decoding undoes encoding for all flags |
| FrameFormat.WordRoundTrip | src/transport/frame.rs:181-197 | Encoding undoes decoding up to the five reserved bits; a word is refused if and only if its opcode does not exist |
| FrameFormat.OpcodeRoundTrip | src/transport/frame.rs:63-117 | Every opcode fits six bits and is read back from its code |
| FrameFormat.OpcodeNumbers | src/transport/frame.rs:63-85 | Operations are numbered consecutively from one in the order of the protocol; errors and handshakes have the last two codes |
| FrameFormat.PriorityRoundTrip | src/transport/frame.rs:124-142 | Every priority fits two bits and is read back from its code |
| FrameFormat.PriorityNumbers | src/transport/frame.rs:124-129 | Normal, low, high and critical are zero to three |
| FrameFormat.EncodeHeader | src/transport/frame.rs:213-219 | The array filled in place holds length, flags and request id, big-endian |
| FrameFormat.HeaderLayout | src/transport/frame.rs:213-219 | Ten bytes: four of length, two of flags, four of request id, each most significant byte first |
| FrameFormat.HeaderRoundTrip | src/transport/frame.rs:213-233 | Decoding a header undoes encoding it |
| Bytes.U32BeRoundTrip | src/transport/frame.rs:215-226 | Big-endian 32-bit numbers are read back |
| Bytes.BigEndian | src/transport/frame.rs:215-226 | A big-endian number is its base-256 digits, most significant first |
| Bytes.LittleEndian | src/transport/frame.rs:376-377 | A little-endian number is the one whose base-256 digits stand in reverse order |
| Bytes.LittleEndianForm | src/transport/dispatch.rs:349-351 | Every 32-bit number is read back from its four digits, least significant first |
| Bytes.NegativeSize | src/transport/frame.rs:376-377 | A size with its top bit set is larger than any buffer; any other is read as it stands |
| Bytes.U16BeRoundTrip | src/transport/frame.rs:216-224 | The big-endian flags word is read back |
| FrameIo.WriteFrame | src/transport/frame.rs:250-287 | However the socket splits the write, success means exactly the frame's bytes were added, with a computed length; failure means a proper prefix of them |
| FrameIo.LengthCountsTheRest | src/transport/frame.rs:250-259 | The length field counts every byte after itself |
| FrameIo.ReadFrame | src/transport/frame.rs:293-324 | The read consumes exactly its own frame and gives the same result and remainder for every stream |
| FrameIo.ReadFramePooled | src/transport/frame.rs:331-366 | The pooled read equals the plain read for every state of the pool |
| FrameIo.SplitUndoesJoin | src/transport/frame.rs:369-395 | Splitting a payload gives back envelope and documents if and only if the envelope's little-endian prefix is its own length |
| FrameIo.EnvelopeSplits | src/transport/frame.rs:369-395 | A payload that begins with the little-endian length of its envelope is split exactly there |
| FrameIo.ReadUndoesWrite | src/transport/frame.rs:250-395 | A written frame followed by anything is read back whole, consuming nothing of what follows, if and only if it is empty or its envelope declares its own length, and it is within the size limit |
| FrameIo.UnreadableFrames | src/transport/frame.rs:293-381 | Which read fails how, and what it consumes: a frame beyond the limit, a payload too short for its prefix or its envelope, a stream that ends within a frame |
| FrameIo.ReadAllUndoesWriteAll | src/transport/frame.rs:250-395 | A conversation is read back frame by frame if and only if each frame is such |
| FrameIo.ShutdownFrameIsMalformed | src/transport/connection.rs:119-147 | No reader of this format can read the shutdown notice, whatever follows it |
| BufferPool.BufferPool.constructor | src/transport/buffer_pool.rs:33-53 | Each tier starts with its configured number of empty buffers, within its limit |
| BufferPool.TierBounds | src/transport/buffer_pool.rs:5-7 | The tiers end at 4 KiB, 64 KiB and 1 MiB |
| BufferPool.BufferPool.Checkout | src/transport/buffer_pool.rs:55-77 | An empty buffer: the oldest of the fitting tier, or a new one large enough; other tiers untouched |
| BufferPool.BufferPool.Checkin | src/transport/buffer_pool.rs:79-90 | The buffer is kept, emptied, in the tier of its capacity if there is room; no tier outgrows its limit |
| BsonDocs.ParseBsonDocs | src/transport/dispatch.rs:341-365 | The answer is the documents the input is a concatenation of, or the error at the first offset at which no document starts |
| BsonDocs.SegmentationUnique | src/transport/dispatch.rs:341-365 | An input can be cut into documents in one way only |
| BsonDocs.ParseDetermined | src/transport/dispatch.rs:341-365 | There is one answer for every input |
| BsonDocs.ParseInvertsConcat | src/transport/dispatch.rs:341-365 | Parsing succeeds if and only if the input is a concatenation of documents that carry their own length, and recovers them in order |
| BsonDocs.OneDocumentParses | src/transport/dispatch.rs:341-365 | Bytes that begin with their own little-endian length, and that the decoder accepts, parse to exactly that document |
| BsonDocs.FaultsAreReported | src/transport/dispatch.rs:346-359 | Behind any documents, a length below five, a length beyond the end and undecodable bytes are each reported at the place where they begin |
| BsonDocs.ShortRestIsReported | src/transport/dispatch.rs:346-348 | So are fewer than four bytes |
| BsonDocs.FindRaw | src/operations/crud.rs:89-103 | The count and the concatenation of exactly the rows the cursor delivers, or an error if it breaks |
| BsonDocs.AggregateRaw | src/operations/aggregation.rs:92-114 | The same for serialized rows, with an error also when one cannot be serialized |
| BsonDocs.FindRawParses | src/operations/crud.rs:89-103 | What a raw query returns parses back to its rows in cursor order, as many as counted modulo 32 bits |
| BsonDocs.AggregateRawParses | src/operations/aggregation.rs:92-114 | An aggregation's bytes parse back to the very documents the cursor delivered |
| RequestQueue.PriorityQueue.Push | src/transport/connection.rs:60-66 | A request joins the back of its class and no other |
| RequestQueue.PriorityQueue.Pop | src/transport/connection.rs:69-74 | The oldest request of the most urgent non-empty class is taken, nothing else changes |
| RequestQueue.DrainIsStablePartition | src/transport/connection.rs:60-74 | Draining what was queued gives the urgent, then the ordinary, then the background requests, each in the order they came |
| RequestQueue.DrainConcatenates | src/transport/connection.rs:69-74 | Draining any queue gives its three classes one after the other |
| RequestQueue.PushAllAppends | src/transport/connection.rs:60-66 | Each class grows by exactly the requests of that class, in order |
| RequestQueue.ClassesCover | src/transport/connection.rs:484-496 | Every request belongs to exactly one class |
| RequestQueue.ClassesOfFrames | src/transport/connection.rs:484-496 | Critical and high frames are urgent, normal ones ordinary, low ones background; only a handshake keeps the critical priority, others become high |
| ConnectionLoop.Handler.NextFrame | src/transport/connection.rs:255-293 | The frame taken is the front of the queue or, only if that is empty, one from the socket; no more urgent one is left queued; the loop stops for a read error or shutdown only with an empty queue |
| ConnectionLoop.Handler.Coalesce | src/transport/connection.rs:299-315 | All frames that are there at once are queued by priority, in order, and nothing else |
| ConnectionLoop.Handler.Admit | src/transport/connection.rs:253-315 | A more urgent frame waits behind the one taken if and only if it was read after it in the same round |
| ConnectionLoop.UrgentFrameWaits | src/transport/connection.rs:255-315 | A round that serves a background frame while an urgent one read behind it waits |
| ConnectionLoop.Handler.FlushBatch | src/transport/connection.rs:502-516 | Everything buffered and then the final frame goes out, or a prefix of that if a write fails; the buffer is empty afterwards |
| ConnectionLoop.Handler.Process | src/transport/connection.rs:327-476 | The frame's one answer, if it wants one, joins what is buffered, which goes out at the end of a batch; the connection stays open unless a write or flush fails |
| ConnectionLoop.Handler.Round | src/transport/connection.rs:253-477 | A round serves the planned frame and keeps the account of what was read, served, queued, owed, written and buffered |
| ConnectionLoop.Handler.Serve | src/transport/connection.rs:253-477 | Along every script at every loop head that account holds; frames are served in planned order until the run ends; the loop leaves by read error or shutdown only with an empty queue |
| ConnectionLoop.Handler.AtLoopHead | src/transport/connection.rs:253-477 | At every loop head, frames read are frames taken plus frames queued, and without write faults the responses written and then those buffered are exactly the right answers, one per frame served that wants one, in order |
| ConnectionLoop.OrderStep | src/transport/connection.rs:387-403 | Whatever part of the output a failing write lets out, responses keep their order and none is sent twice |
| ConnectionLoop.DeliveryStep | src/transport/connection.rs:362-475 | Serving one frame keeps the account of what was written, buffered and owed |
| ConnectionLoop.BroughtIsWaiting | src/transport/connection.rs:299-315 | The only frames more urgent than the one taken are those just read |
| Connection.OneResponseEach | src/transport/connection.rs:317-476 | The responses owed for a run are exactly one per frame that wants a reply, under its request id, in the order served |
| Connection.RightAnswers | src/transport/connection.rs:328-465 | What is owed for a run is, in order, the right answer to each frame that wants one: under its request id and opcode (the error opcode for an error), ending its stream, with the encoded reply as envelope and raw documents; or the error message for an invalid envelope or an unencodable reply |
| Connection.ExactlyOneResponse | src/transport/connection.rs:317-476 | At every loop head of a run without write faults, what was written followed by what is buffered is exactly that |
| Connection.ExactlyTheRightResponses | src/transport/connection.rs:317-476 | At every loop head of a run without write faults, what was written followed by what is buffered is exactly that |
| Connection.NothingBufferedAtBatchEnd | src/transport/connection.rs:332-405 | Serving a frame flushes if and only if it has no batch-follows and was not both undecodable and without reply; a flush writes everything owed and leaves nothing buffered |
| Connection.EmptyAtBatchEnd | src/transport/connection.rs:332-405 | After a frame without batch-follows the buffer is empty if and only if that frame was not both undecodable and without reply, or nothing was waiting anyway |
| Connection.StrandedResponse | src/transport/connection.rs:332-362 | A run after whose batch end a response stays buffered |
| Connection.BufferedStep | src/transport/connection.rs:467-469 | A response inside a batch is only buffered |
| Connection.FlushedStep | src/transport/connection.rs:470-476 | The end of a batch writes everything owed since the last flush, in order |
| Connection.NothingLost | src/transport/connection.rs:253-315 | As multisets, frames read are frames taken plus frames queued |
| Connection.ScheduledPop | src/transport/connection.rs:69-74 | Taking from the queue keeps, in each class, read = taken then queued, in order |
| Connection.ScheduledPush | src/transport/connection.rs:60-66 | So does queueing |
| Quota.RateLimiter.TryAcquire | src/tenant/quota.rs:22-43 | A call grants if and only if the window, restarted when a full second has passed, has room; counting first and taking back leaves the count within the maximum, also where 64-bit additions wrap |
| Quota.GrantedExactly | src/tenant/quota.rs:22-43 | A call is granted if and only if the maximum is positive and either a full second has passed since the window began or the window has room |
| Quota.WindowAfter | src/tenant/quota.rs:22-43 | A full second after its beginning the window begins anew at the call; within it only the count moves, by one for a grant |
| Quota.WindowGrantsAtMostMax | src/tenant/quota.rs:22-43 | One window never grants more than the maximum |
| Quota.SlidingBound | src/tenant/quota.rs:22-43 | In any run with a monotone clock every half-open second holds at most twice the maximum |
| Quota.TwiceTheMaximum | src/tenant/quota.rs:22-43 | Some run reaches twice the maximum within one second |
| Quota.SlidingWindowKeptOnlyByZero | src/tenant/quota.rs:6-43 | The maximum holds over every sliding second if and only if it is zero |
| Quota.FinalValid | src/tenant/quota.rs:22-43 | After every run the count is within the maximum, which has not changed |
| TenantIsolation.PartitionedCache.Insert | src/tenant/isolation.rs:42-66 | The tenant's partition behaves as a private bounded cache and no other partition changes; counts stay equal to partition sizes |
| TenantIsolation.PartitionedCache.Get | src/tenant/isolation.rs:70-73 | The tenant reads its own entry and nothing else |
| TenantIsolation.PartitionedCache.RemoveTenant | src/tenant/isolation.rs:76-82 | The tenant's partition and count are gone, no other partition changes |
| TenantIsolation.PartitionedCache.ServeAll | src/tenant/isolation.rs:42-82 | After any sequence of calls of any tenants each tenant has seen exactly what a private cache would have shown it for its own calls alone |
| TenantIsolation.PrivateRunBounded | src/tenant/isolation.rs:39-56 | Such a cache never exceeds the bound, and refuses if and only if the key is new and the cache full |
| TenantIsolation.ReadAfterWrite | src/tenant/isolation.rs:42-82 | A read gives the value last inserted under its key, also over an older one; a refused insert and an insert under another key change nothing it sees; after a removal nothing is found |
| TenantIsolation.InsertKeepsCount | src/tenant/isolation.rs:58-63 | An allowed insert keeps every count equal to its partition's size and within the bound |
| TenantIsolation.RemovalKeepsCount | src/tenant/isolation.rs:76-82 | So does removing a tenant |
| Schema.WidenIsLeastUpperBound | src/ingestion/schema.rs:39-56 | Widening yields the least upper bound in an order defined without it, for types nested to any depth |
| Schema.WidenCommutes | src/ingestion/schema.rs:39-56 | The order of the two types does not matter |
| Schema.WidenAssociates | src/ingestion/schema.rs:39-56 | Nor does the grouping of three |
| Schema.WidenBounds | src/ingestion/schema.rs:39-56 | Widening is idempotent, Null is its unit, String absorbs everything, and the order is the one widening induces |
| Schema.WidenCases | src/ingestion/schema.rs:39-56 | Numbers widen to the larger one, arrays by their elements, and two other different types to String |
| Schema.WidenAllIsLeastUpperBound | src/ingestion/schema.rs:39-56 | A column's type is the least one above every type observed |
| Schema.WidenAllDependsOnlyOnTheTypesSeen | src/ingestion/schema.rs:39-56 | It depends only on which types were observed |
| Schema.WidenAllGroups | src/ingestion/schema.rs:39-56 | A column can be typed in parts and the parts widened |

## Left out

- Execute: a step's effect is one function of the attempt, the state, the step and its resolved operation; the driver code of the individual operations, read and write concerns and other writers to the database during the run are not modelled, and an aborted transaction or a failed commit is taken to have no effect.
- Execute: reports the reason as a value; message texts and the elapsed time of a success are not modelled.
- InvHoldsThroughout: takes a successful insert to return one id per document, a failed one to leave a prefix of its batch, in order, in the collection, and a conversion to yield one document per row; a dead letter counts when its push is attempted, as the code ignores the push's own outcome.
- InvHoldsThroughout: the rows of refused batches and unconverted chunks are kept in the state for the account only; tasks are steps of a relation rather than imperative code, so that all interleavings are covered; the loop exit for a failed send is omitted because the producer itself keeps the receiver alive; panics of writer tasks are not modelled.
- CancelledRunAccounts: the cancel signal may arrive before any chunk; lagging and closed broadcast channels are not told apart from its absence.
- SequentialAccount.StoredOrRecorded: speaks of the inserts of a run; whether a failed replacement reached the collection is not modelled.
- SequentialAccount.StoredKeyIsNotInsertedAgain: what the next chunk sees is constrained by the assumption it states, because other writers may change the collection between chunks.
- RunSequentialWrites: takes the number of chunks to run as a bound, because with batch size zero the loop never ends; failing pushes to the dead letter queue have no effect on the counters and are not modelled; the collection is what the query sees at each chunk, so the effect of earlier chunks on it is part of the world.
- CheckBatch: documents are maps from field names, so field order is not captured; the comparison of values is a parameter, which also covers values that are not equal to themselves; the server is assumed to return every document whose key fields the engine would find equal.
- InterpolationIsSimultaneous: is stated for brace-free references and for literals without two opening braces in a row or one at the end; which texts may be filled into such strings is settled by `TameTexts.TameExactlyWhenHarmless`, but strings with other literals or references are not covered.
- ResolveStringInPlace: the printing of numbers, booleans, arrays and objects inside text is a parameter; the pattern of the regular expression library is written out as a left-to-right search.
- ReadFramePooled: a read is atomic; the cancellation of a started read by the zero timeout, and the bytes it may lose, are not modelled.
- Handler.Serve: the handshake, the frames read and discarded while draining after the shutdown notice, the writing of that notice, an extra read that fails and only ends coalescing, and the semaphore (including a limit of zero, which would block for ever) are left out; dispatch of a request is a parameter.
- ExactlyOneResponse: assumes that error responses can be encoded.
- FindRaw: timeouts of queries and aggregations, cursors' server errors beyond "the cursor broke" and the choice of read concern are left out; the decoder of one document is a parameter.
- Checkin: no caller in the repository returns a buffer to the pool, so its effect on reads is proved for pools in any state instead.
- RateLimiter.TryAcquire: the bound is stated between changes of the limit; the manager that maps tenants to limiters is left out.
- PartitionedCache.ServeAll: each method is atomic; races inside one method are not modelled.
- WidenAllIsLeastUpperBound: inference from a data frame takes each column's type from the frame; nothing in the repository folds widening over observations yet, and type overrides are left out.
- The gRPC and MCP servers, tool execution, configuration, file watching, embedding and language model clients, the web interface, code generation and client libraries: wiring without a hard property.
- Template registries, transform expressions, blocklists and percentiles: easy membership checks or library semantics.
