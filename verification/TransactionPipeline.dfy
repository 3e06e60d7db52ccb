/** Running a transactional pipeline: steps in a transaction, references between them, retries. */
module TransactionPipeline {
  import opened Wrappers
  import opened Json
  import opened References
  import opened Resolution
  import opened ValueResolution
  import opened PipelineValidation
  import I = Interpolation

  const MAX_RETRIES: nat := 3
  const TRANSIENT := "TransientTransactionError"

  datatype StepResult = StepResult(name: string, value: Value)

  datatype Reason =
    | Invalid(rejection: Rejection)
    | SessionFailed(message: string)
    | TransactionFailed(message: string)
    | TimedOut(elapsed: nat)
    | Unresolved(error: RefError)
    | StepFailed(message: string)
    | CommitFailed(message: string)
    | RetriesExhausted

  datatype PipelineFailure = PipelineFailure(
    failedStep: string,
    stepIndex: nat,
    reason: Reason,
    stepsCompleted: seq<string>,
    rolledBack: bool)

  /** The driver and the clock, by attempt: errors of starting a session and a transaction, the
      time elapsed before a step, the effect of a resolved step on a state, the commit error. */
  datatype Driver<!D> = Driver(
    session: nat -> Option<string>,
    begin: nat -> Option<string>,
    elapsed: (nat, nat) -> nat,
    maxTime: nat,
    run: (nat, D, Step, Value) -> Result<(D, Value), string>,
    commit: nat -> Option<string>,
    show: Value -> string)

  predicate IsTransient(error: Option<string>) {
    error.Some? && I.Contains(error.value, TRANSIENT)
  }

  predicate NamedAt(text: string, i: nat) {
    i + 25 <= |text| && text[i..i + 25] == "TransientTransactionError"
  }

  /** A commit error is transient exactly if its text names the transient error somewhere. */
  lemma TransientText(text: string)
    ensures IsTransient(Some(text)) <==> exists i: nat :: NamedAt(text, i)
    ensures !IsTransient(None)
  {
    assert |TRANSIENT| == 25;
    forall i: nat | i <= |text| ensures I.StartsWith(text[i..], TRANSIENT) <==> NamedAt(text, i) {
      if i + 25 <= |text| {
        assert text[i..][..25] == text[i..i + 25];
      }
    }
  }

  // What an attempt does

  /** The results by step name, as later steps refer to them. */
  function ResultsOf(results: seq<StepResult>): Results {
    if results == [] then map[]
    else ResultsOf(results[..|results| - 1])[results[|results| - 1].name := results[|results| - 1].value]
  }

  /** The states an attempt goes through and the results of its steps. */
  datatype Trace<D> = Trace(states: seq<D>, results: seq<StepResult>) {
    ghost predicate Valid() {
      |states| == |results| + 1
    }

    ghost function Last(): D
      requires Valid()
    {
      states[|results|]
    }
  }

  /** A step run in time, with its references resolved from earlier results only. */
  ghost predicate StepDone<D>(driver: Driver<D>, attempt: nat, steps: seq<Step>, trace: Trace<D>, i: nat)
    requires trace.Valid() && i < |trace.results| <= |steps|
  {
    var step, result := steps[i], trace.results[i];
    var operation := ResolveValue(step.operation, ResultsOf(trace.results[..i]), driver.show);
    && driver.elapsed(attempt, i) <= driver.maxTime
    && result.name == step.name
    && operation.Success?
    && driver.run(attempt, trace.states[i], step, operation.value) == Success((trace.states[i + 1], result.value))
  }

  ghost predicate Follows<D>(driver: Driver<D>, attempt: nat, steps: seq<Step>, start: D, trace: Trace<D>) {
    && trace.Valid() && |trace.results| <= |steps| && trace.states[0] == start
    && forall i | 0 <= i < |trace.results| :: StepDone(driver, attempt, steps, trace, i)
  }

  ghost predicate Complete<D>(driver: Driver<D>, attempt: nat, steps: seq<Step>, start: D, trace: Trace<D>) {
    && driver.session(attempt).None? && driver.begin(attempt).None?
    && Follows(driver, attempt, steps, start, trace) && |trace.results| == |steps|
  }

  /** Every attempt ran all steps and was retried because its commit failed transiently. */
  ghost predicate Retried<D>(driver: Driver<D>, steps: seq<Step>, start: D, traces: seq<Trace<D>>) {
    && |traces| <= MAX_RETRIES
    && forall a | 0 <= a < |traces| :: Complete(driver, a, steps, start, traces[a]) && IsTransient(driver.commit(a))
  }

  // What a run ends with

  ghost predicate Succeeded<D>(driver: Driver<D>, steps: seq<Step>, start: D, traces: seq<Trace<D>>,
                               results: seq<StepResult>)
  {
    && Accepted(steps)
    && 1 <= |traces| <= MAX_RETRIES
    && var a := |traces| - 1;
    && Retried(driver, steps, start, traces[..a])
    && Complete(driver, a, steps, start, traces[a])
    && driver.commit(a).None?
    && results == traces[a].results
  }

  function NamesOf(steps: seq<Step>): (names: seq<string>)
    ensures |names| == |steps| && forall i | 0 <= i < |steps| :: names[i] == steps[i].name
  {
    seq(|steps|, i requires 0 <= i < |steps| => steps[i].name)
  }

  /** The step after those of the trace is stopped for the reason. */
  ghost predicate StoppedBy<D>(driver: Driver<D>, attempt: nat, steps: seq<Step>, trace: Trace<D>, reason: Reason)
    requires trace.Valid() && |trace.results| < |steps|
  {
    var i := |trace.results|;
    var late := driver.elapsed(attempt, i) > driver.maxTime;
    var operation := ResolveValue(steps[i].operation, ResultsOf(trace.results), driver.show);
    match reason
    case TimedOut(elapsed) => late && elapsed == driver.elapsed(attempt, i)
    case Unresolved(e) => !late && operation == Failure(e)
    case StepFailed(message) =>
      && !late && operation.Success?
      && driver.run(attempt, trace.Last(), steps[i], operation.value) == Failure(message)
    case _ => false
  }

  ghost predicate NoStepAtFault(failure: PipelineFailure, rolledBack: bool) {
    && failure.failedStep == "" && failure.stepIndex == 0 && failure.stepsCompleted == []
    && failure.rolledBack == rolledBack
  }

  /** Only transient commit errors are retried; every other error ends the run at once and is
      reported with the step it belongs to and the steps completed before it. */
  ghost predicate FailedAs<D>(driver: Driver<D>, steps: seq<Step>, start: D, traces: seq<Trace<D>>,
                              failure: PipelineFailure)
  {
    && (Accepted(steps) <==> !failure.reason.Invalid?)
    && match failure.reason
       case Invalid(rejection) => traces == [] && Justified(steps, rejection) && NoStepAtFault(failure, false)
       case SessionFailed(message) =>
         && Retried(driver, steps, start, traces) && |traces| < MAX_RETRIES
         && driver.session(|traces|) == Some(message) && NoStepAtFault(failure, false)
       case TransactionFailed(message) =>
         && Retried(driver, steps, start, traces) && |traces| < MAX_RETRIES
         && driver.session(|traces|).None? && driver.begin(|traces|) == Some(message)
         && NoStepAtFault(failure, false)
       case RetriesExhausted =>
         Retried(driver, steps, start, traces) && |traces| == MAX_RETRIES && NoStepAtFault(failure, true)
       case CommitFailed(message) =>
         && 1 <= |traces| <= MAX_RETRIES
         && var a := |traces| - 1;
         && Retried(driver, steps, start, traces[..a])
         && Complete(driver, a, steps, start, traces[a])
         && driver.commit(a) == Some(message) && !IsTransient(driver.commit(a))
         && failure == PipelineFailure("", |steps|, failure.reason, NamesOf(steps), true)
       case _ => FailedInStep(driver, steps, start, traces, failure)
  }

  ghost predicate FailedInStep<D>(driver: Driver<D>, steps: seq<Step>, start: D, traces: seq<Trace<D>>,
                                  failure: PipelineFailure)
  {
    && 1 <= |traces| <= MAX_RETRIES
    && var a := |traces| - 1;
    && Retried(driver, steps, start, traces[..a])
    && driver.session(a).None? && driver.begin(a).None?
    && Follows(driver, a, steps, start, traces[a])
    && var i := |traces[a].results|;
    && i < |steps|
    && StoppedBy(driver, a, steps, traces[a], failure.reason)
    && failure == PipelineFailure(steps[i].name, i, failure.reason, NamesOf(steps[..i]), true)
  }

  // The executor

  class Database<D(!new)> {
    var committed: D
    /** How many transactions have been committed. */
    var commits: nat

    constructor (initial: D)
      ensures committed == initial && commits == 0
    {
      committed, commits := initial, 0;
    }
  }

  function CompletedNames(results: seq<StepResult>): seq<string> {
    seq(|results|, i requires 0 <= i < |results| => results[i].name)
  }

  /** The steps of one attempt, on the transaction's own copy of the state. */
  method RunSteps<D>(driver: Driver<D>, attempt: nat, steps: seq<Step>, start: D)
    returns (state: D, results: seq<StepResult>, failure: Option<PipelineFailure>, ghost trace: Trace<D>)
    ensures Follows(driver, attempt, steps, start, trace) && trace.results == results && trace.Last() == state
    ensures failure.None? ==> |results| == |steps|
    ensures failure.Some? ==>
      && |results| < |steps| && StoppedBy(driver, attempt, steps, trace, failure.value.reason)
      && (failure.value.reason.TimedOut? || failure.value.reason.Unresolved? || failure.value.reason.StepFailed?)
      && failure.value
         == PipelineFailure(steps[|results|].name, |results|, failure.value.reason, NamesOf(steps[..|results|]), true)
  {
    hide ResolveValue, StoppedBy;
    state, results := start, [];
    trace := Trace([start], []);
    var resultsMap: Results := map[];
    for idx := 0 to |steps|
      invariant Follows(driver, attempt, steps, start, trace) && trace.results == results && trace.Last() == state
      invariant |results| == idx && resultsMap == ResultsOf(results)
    {
      var step := steps[idx];
      var elapsed := driver.elapsed(attempt, idx);
      assert CompletedNames(results) == NamesOf(steps[..idx]) by {
        CompletedStepsAreThePrefix(driver, attempt, steps, start, trace);
      }
      if elapsed > driver.maxTime {
        Stops(driver, attempt, steps, trace, TimedOut(elapsed));
        failure := Some(PipelineFailure(step.name, idx, TimedOut(elapsed), CompletedNames(results), true));
        return;
      }
      var operation := ResolveValue(step.operation, resultsMap, driver.show);
      if operation.Failure? {
        Stops(driver, attempt, steps, trace, Unresolved(operation.error));
        failure := Some(PipelineFailure(step.name, idx, Unresolved(operation.error), CompletedNames(results), true));
        return;
      }
      var outcome := driver.run(attempt, state, step, operation.value);
      if outcome.Failure? {
        Stops(driver, attempt, steps, trace, StepFailed(outcome.error));
        failure := Some(PipelineFailure(step.name, idx, StepFailed(outcome.error), CompletedNames(results), true));
        return;
      }
      var (next, value) := outcome.value;
      ExtendTrace(driver, attempt, steps, start, trace, next, StepResult(step.name, value));
      state := next;
      resultsMap := resultsMap[step.name := value];
      results := results + [StepResult(step.name, value)];
      assert results[..idx] == trace.results;
      trace := Trace(trace.states + [next], results);
    }
    failure := None;
  }

  lemma Stops<D>(driver: Driver<D>, attempt: nat, steps: seq<Step>, trace: Trace<D>, reason: Reason)
    requires trace.Valid() && |trace.results| < |steps|
    requires reason.TimedOut? || reason.Unresolved? || reason.StepFailed?
    requires var i := |trace.results|;
      var late := driver.elapsed(attempt, i) > driver.maxTime;
      var operation := ResolveValue(steps[i].operation, ResultsOf(trace.results), driver.show);
      && (reason.TimedOut? ==> late && reason.elapsed == driver.elapsed(attempt, i))
      && (reason.Unresolved? ==> !late && operation == Failure(reason.error))
      && (reason.StepFailed? ==>
            && !late && operation.Success?
            && driver.run(attempt, trace.Last(), steps[i], operation.value) == Failure(reason.message))
    ensures StoppedBy(driver, attempt, steps, trace, reason)
  {
    hide ResolveValue, ResultsOf;
  }

  lemma ExtendTrace<D>(driver: Driver<D>, attempt: nat, steps: seq<Step>, start: D,
                       trace: Trace<D>, next: D, result: StepResult)
    requires Follows(driver, attempt, steps, start, trace) && |trace.results| < |steps|
    requires driver.elapsed(attempt, |trace.results|) <= driver.maxTime && result.name == steps[|trace.results|].name
    requires var step := steps[|trace.results|];
      var operation := ResolveValue(step.operation, ResultsOf(trace.results), driver.show);
      && operation.Success?
      && driver.run(attempt, trace.Last(), step, operation.value) == Success((next, result.value))
    ensures Follows(driver, attempt, steps, start, Trace(trace.states + [next], trace.results + [result]))
  {
    hide ResultsOf, ResolveValue;
    var longer := Trace(trace.states + [next], trace.results + [result]);
    assert trace.results[..|trace.results|] == trace.results;
    forall i | 0 <= i < |longer.results| ensures StepDone(driver, attempt, steps, longer, i) {
      assert longer.results[..i] == trace.results[..i];
      assert i < |trace.results| ==> StepDone(driver, attempt, steps, trace, i);
    }
  }

  lemma CompletedStepsAreThePrefix<D>(driver: Driver<D>, attempt: nat, steps: seq<Step>, start: D, trace: Trace<D>)
    requires Follows(driver, attempt, steps, start, trace)
    ensures CompletedNames(trace.results) == NamesOf(steps[..|trace.results|])
  {
    hide ResolveValue, ResultsOf;
    forall i | 0 <= i < |trace.results| ensures trace.results[i].name == steps[..|trace.results|][i].name {
      assert StepDone(driver, attempt, steps, trace, i);
    }
  }

  method Execute<D(!new)>(db: Database<D>, driver: Driver<D>, steps: seq<Step>)
    returns (r: Result<seq<StepResult>, PipelineFailure>, ghost traces: seq<Trace<D>>)
    modifies db
    ensures r.Success? ==>
      && Succeeded(driver, steps, old(db.committed), traces, r.value)
      && db.committed == traces[|traces| - 1].states[|steps|] && db.commits == old(db.commits) + 1
    ensures r.Failure? ==>
      && FailedAs(driver, steps, old(db.committed), traces, r.error)
      && db.committed == old(db.committed) && db.commits == old(db.commits)
  {
    hide Follows, StoppedBy, Accepted, Justified;
    traces := [];
    var valid := ValidatePipeline(steps);
    if valid.Failure? {
      r := Failure(PipelineFailure("", 0, Invalid(valid.error), [], false));
      return;
    }
    for attempt := 0 to MAX_RETRIES
      invariant |traces| == attempt && Retried(driver, steps, old(db.committed), traces)
      invariant db.committed == old(db.committed) && db.commits == old(db.commits)
    {
      var session := driver.session(attempt);
      if session.Some? {
        r := Failure(PipelineFailure("", 0, SessionFailed(session.value), [], false));
        return;
      }
      var begin := driver.begin(attempt);
      if begin.Some? {
        r := Failure(PipelineFailure("", 0, TransactionFailed(begin.value), [], false));
        return;
      }
      var state, results, failure, trace := RunSteps(driver, attempt, steps, db.committed);
      ghost var earlier := traces;
      traces := traces + [trace];
      assert traces[..attempt] == earlier;
      if failure.Some? {
        r := Failure(failure.value);
        return;
      }
      var error := driver.commit(attempt);
      if error.None? {
        db.committed, db.commits := state, db.commits + 1;
        r := Success(results);
        return;
      }
      if !I.Contains(error.value, TRANSIENT) {
        assert CompletedNames(results) == NamesOf(steps) by {
          CompletedStepsAreThePrefix(driver, attempt, steps, old(db.committed), trace);
          assert steps[..|results|] == steps;
        }
        r := Failure(PipelineFailure("", |steps|, CommitFailed(error.value), CompletedNames(results), true));
        return;
      }
    }
    r := Failure(PipelineFailure("", 0, RetriesExhausted, [], true));
  }
}
