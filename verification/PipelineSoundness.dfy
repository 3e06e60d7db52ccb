/** What the static check of a pipeline promises for its runs. */
module PipelineSoundness {
  import opened Wrappers
  import opened Json
  import opened References
  import opened Resolution
  import opened ValueResolution
  import opened Visibility
  import opened PipelineValidation
  import opened TransactionPipeline
  import PathLaws
  import I = Interpolation

  // Runs are determined by the driver.

  /** Two traces of the same attempt from the same state agree as far as both go. */
  lemma {:induction false} TracesAgree<D>(driver: Driver<D>, attempt: nat, steps: seq<Step>, start: D,
                                          t: Trace<D>, u: Trace<D>, n: nat)
    requires Follows(driver, attempt, steps, start, t) && Follows(driver, attempt, steps, start, u)
    requires n <= |t.results| && n <= |u.results|
    ensures t.results[..n] == u.results[..n] && t.states[..n + 1] == u.states[..n + 1]
  {
    hide ResolveValue, ResultsOf;
    if n > 0 {
      var i := n - 1;
      TracesAgree(driver, attempt, steps, start, t, u, i);
      assert t.states[i] == t.states[..n][i] && u.states[i] == u.states[..n][i];
      assert StepDone(driver, attempt, steps, t, i);
      assert StepDone(driver, attempt, steps, u, i);
      assert t.results[i] == u.results[i] && t.states[n] == u.states[n];
      assert t.results[..n] == t.results[..i] + [t.results[i]] && u.results[..n] == u.results[..i] + [u.results[i]];
      assert t.states[..n + 1] == t.states[..n] + [t.states[n]] && u.states[..n + 1] == u.states[..n] + [u.states[n]];
    }
  }

  /** A run that succeeds can end in one way only: after the same attempt, with the same results
      and the same state committed. */
  lemma SuccessIsDetermined<D>(driver: Driver<D>, steps: seq<Step>, start: D, t: seq<Trace<D>>, u: seq<Trace<D>>,
                               results: seq<StepResult>, results': seq<StepResult>)
    requires Succeeded(driver, steps, start, t, results) && Succeeded(driver, steps, start, u, results')
    ensures |t| == |u| && results == results' && t[|t| - 1].states[|steps|] == u[|u| - 1].states[|steps|]
  {
    hide Accepted, StepDone;
    var a := |t| - 1;
    TracesAgree(driver, a, steps, start, t[a], u[a], |steps|);
    assert results[..|steps|] == results && results'[..|steps|] == results';
    assert t[a].states[..|steps| + 1][|steps|] == t[a].Last() && u[a].states[..|steps| + 1][|steps|] == u[a].Last();
  }

  /** Only a step that begins after the time limit is stopped for it; one that begins exactly at the
      limit runs. */
  lemma TimeLimit<D>(driver: Driver<D>, attempt: nat, steps: seq<Step>, trace: Trace<D>, elapsed: nat)
    requires trace.Valid() && |trace.results| < |steps|
    ensures StoppedBy(driver, attempt, steps, trace, TimedOut(elapsed))
      <==> elapsed == driver.elapsed(attempt, |trace.results|) > driver.maxTime
    ensures var operation := ResolveValue(steps[|trace.results|].operation, ResultsOf(trace.results), driver.show);
      driver.elapsed(attempt, |trace.results|) <= driver.maxTime && operation.Failure? ==>
        StoppedBy(driver, attempt, steps, trace, Unresolved(operation.error))
  {
    hide ResolveValue, ResultsOf;
  }

  // Names of results

  lemma {:induction false} ResultsAreNamed(results: seq<StepResult>)
    ensures forall name :: name in ResultsOf(results) <==> exists i | 0 <= i < |results| :: results[i].name == name
  {
    if results != [] {
      var n := |results| - 1;
      ResultsAreNamed(results[..n]);
      assert forall i | 0 <= i < n :: results[i] == results[..n][i];
    }
  }

  lemma {:induction false} LaterResultsKeepEarlierOnes(results: seq<StepResult>, n: nat)
    requires n <= |results|
    requires forall i, j | 0 <= i < j < |results| :: results[i].name != results[j].name
    ensures Extends(ResultsOf(results), ResultsOf(results[..n]))
  {
    var last := |results| - 1;
    if n == |results| {
      assert results[..n] == results;
    } else {
      LaterResultsKeepEarlierOnes(results[..last], n);
      assert results[..last][..n] == results[..n];
      ResultsAreNamed(results[..n]);
    }
  }

  lemma TraceIsNamed<D>(driver: Driver<D>, attempt: nat, steps: seq<Step>, start: D, trace: Trace<D>)
    requires Follows(driver, attempt, steps, start, trace)
    ensures forall i | 0 <= i < |trace.results| :: trace.results[i].name == steps[i].name
  {
    hide ResolveValue, ResultsOf;
    forall i | 0 <= i < |trace.results| ensures trace.results[i].name == steps[i].name {
      assert StepDone(driver, attempt, steps, trace, i);
    }
  }

  /** Before every step exactly the earlier steps have results. */
  lemma EarlierStepsHaveResults<D>(driver: Driver<D>, attempt: nat, steps: seq<Step>, start: D, trace: Trace<D>)
    requires Follows(driver, attempt, steps, start, trace)
    ensures ResultsOf(trace.results).Keys == NamesBefore(steps, |trace.results|)
  {
    hide Follows, ResultsOf;
    TraceIsNamed(driver, attempt, steps, start, trace);
    ResultsAreNamed(trace.results);
  }

  lemma {:induction false} ResultUnderItsName(results: seq<StepResult>, j: nat)
    requires j < |results| && forall i, k | 0 <= i < k < |results| :: results[i].name != results[k].name
    ensures results[j].name in ResultsOf(results) && ResultsOf(results)[results[j].name] == results[j].value
  {
    var last := |results| - 1;
    if j < last {
      ResultUnderItsName(results[..last], j);
    }
  }

  lemma DifferentNames<D>(driver: Driver<D>, attempt: nat, steps: seq<Step>, start: D, trace: Trace<D>)
    requires Accepted(steps) && Follows(driver, attempt, steps, start, trace)
    ensures forall j, k | 0 <= j < k < |trace.results| :: trace.results[j].name != trace.results[k].name
  {
    hide Accepted, Follows;
    TraceIsNamed(driver, attempt, steps, start, trace);
    TraceFits(driver, attempt, steps, start, trace);
    forall j, k | 0 <= j < k < |trace.results| ensures trace.results[j].name != trace.results[k].name {
      if steps[j].name == steps[k].name {
        NamesAreUnique(steps, j, k);
      }
    }
  }

  lemma TraceFits<D>(driver: Driver<D>, attempt: nat, steps: seq<Step>, start: D, trace: Trace<D>)
    requires Follows(driver, attempt, steps, start, trace)
    ensures |trace.results| <= |steps| && |trace.states| == |trace.results| + 1 && trace.states[0] == start
  {
  }

  /** What a step resolves against holds, under the name of each earlier step, the very result of
      that step. */
  lemma EarlierResultsByName<D>(driver: Driver<D>, attempt: nat, steps: seq<Step>, start: D, trace: Trace<D>, i: nat, j: nat)
    requires Accepted(steps) && Follows(driver, attempt, steps, start, trace) && j < i <= |trace.results|
    ensures steps[j].name in ResultsOf(trace.results[..i])
    ensures ResultsOf(trace.results[..i])[steps[j].name] == trace.results[j].value
  {
    hide Accepted, Follows, ResultsOf;
    DifferentNames(driver, attempt, steps, start, trace);
    TraceIsNamed(driver, attempt, steps, start, trace);
    TraceFits(driver, attempt, steps, start, trace);
    ResultUnderItsName(trace.results[..i], j);
  }

  /** A step whose operation is one printed reference to an earlier step runs what the reference's
      path reads in that step's result. */
  lemma ReferenceRunsWhatItReads<D>(driver: Driver<D>, attempt: nat, steps: seq<Step>, start: D, trace: Trace<D>,
                                    i: nat, j: nat, path: seq<PathSegment>)
    requires Accepted(steps) && Follows(driver, attempt, steps, start, trace) && j < i < |trace.results|
    requires WellFormed(steps[j].name, path)
    requires var text := Render(steps[j].name, path);
      && steps[i].operation == Str(I.Full(text))
      && I.Trim(text) == text && !I.Contains(text, "{{") && !I.Contains(text, "}}")
    ensures var read := Traverse(trace.results[j].value, path);
      && read.Success?
      && driver.run(attempt, trace.states[i], steps[i], read.value) == Success((trace.states[i + 1], trace.results[i].value))
  {
    hide Accepted, Render, Traverse, I.Trim, I.Contains, I.Full, ResolveString, ResultsOf;
    var earlier := ResultsOf(trace.results[..i]);
    assert StepDone(driver, attempt, steps, trace, i);
    EarlierResultsByName(driver, attempt, steps, start, trace, i, j);
    PathLaws.PrintedReferenceReads(steps[j].name, path, earlier, driver.show);
  }

  // The static check is sound.

  predicate SelfReferring(steps: seq<Step>, i: nat)
    requires i < |steps|
  {
    exists r | r in Refs(steps[i].operation) :: Parse(r).Success? && Parse(r).value.0 == steps[i].name
  }

  /** In an accepted pipeline a step finds every step it looks up exactly if it does not refer to
      itself, whatever has been computed before it. */
  lemma KnownExactlyWithoutSelfReference<D>(driver: Driver<D>, attempt: nat, steps: seq<Step>, start: D, trace: Trace<D>)
    requires Accepted(steps) && Follows(driver, attempt, steps, start, trace) && |trace.results| < |steps|
    requires Visible(steps[|trace.results|].operation)
    ensures AllKnown(Sought(steps[|trace.results|].operation), ResultsOf(trace.results))
       <==> !SelfReferring(steps, |trace.results|)
  {
    hide Parse, Sought, Visible, Refs, ResultsOf, Follows, IsValidName, IsForbidden;
    var i := |trace.results|;
    EarlierStepsHaveResults(driver, attempt, steps, start, trace);
    VisibleValuesAreSeen(steps[i].operation);
    assert StepFits(steps, i);
    forall r | r in Refs(steps[i].operation)
      ensures Known(r, ResultsOf(trace.results)) <==> Parse(r).value.0 != steps[i].name
    {
      assert PointsBack(steps, i, r);
      KnownExactlyBefore(steps, i, r, ResultsOf(trace.results));
    }
  }

  lemma KnownExactlyBefore(steps: seq<Step>, i: nat, r: string, results: Results)
    requires i < |steps| && PointsBack(steps, i, r) && results.Keys == NamesBefore(steps, i)
    requires forall j | 0 <= j < i :: steps[j].name != steps[i].name
    ensures Known(r, results) <==> Parse(r).value.0 != steps[i].name
  {
    hide Parse;
    assert forall name :: name in results <==> name in results.Keys;
  }

  /** When no step refers to itself, a run of an accepted pipeline never ends with a missing step
      or a malformed reference: only a path into a result can fail. */
  lemma OnlyPathsFail<D>(driver: Driver<D>, steps: seq<Step>, start: D, traces: seq<Trace<D>>, failure: PipelineFailure)
    requires FailedAs(driver, steps, start, traces, failure) && failure.reason.Unresolved?
    requires forall i | 0 <= i < |steps| :: Visible(steps[i].operation) && !SelfReferring(steps, i)
    ensures PathError(failure.reason.error)
  {
    hide Accepted, Follows, ResolveValue, Sought, SelfReferring, Visible, Refs, PathError, AllKnown, Retried;
    assert FailedInStep(driver, steps, start, traces, failure);
    var a := |traces| - 1;
    var i := |traces[a].results|;
    KnownExactlyWithoutSelfReference(driver, a, steps, start, traces[a]);
    ResolutionIsGoverned(steps[i].operation, ResultsOf(traces[a].results), driver.show);
  }

  /** The step looks a reference up that is malformed or names no earlier step. */
  predicate LooksUpUnknown(steps: seq<Step>, i: nat)
    requires i < |steps|
  {
    exists r | r in Sought(steps[i].operation) :: Parse(r).Failure? || Parse(r).value.0 !in NamesBefore(steps, i)
  }

  /** No attempt gets past a step that looks up what is malformed or names no earlier step, whether
      or not the static check saw it. */
  lemma UnknownReferenceNeverRuns<D>(driver: Driver<D>, attempt: nat, steps: seq<Step>, start: D, trace: Trace<D>, i: nat)
    requires Follows(driver, attempt, steps, start, trace) && i < |steps| && LooksUpUnknown(steps, i)
    ensures |trace.results| <= i
  {
    hide ResolveValue, ResultsOf, Sought, Parse, ResolveRef;
    if |trace.results| > i {
      var shorter := Trace(trace.states[..i + 1], trace.results[..i]);
      assert StepDone(driver, attempt, steps, trace, i);
      PrefixFollows(driver, attempt, steps, start, trace, i);
      EarlierStepsHaveResults(driver, attempt, steps, start, shorter);
      ResolutionIsGoverned(steps[i].operation, ResultsOf(trace.results[..i]), driver.show);
      forall r | r in Sought(steps[i].operation) ensures Known(r, ResultsOf(trace.results[..i])) {
        KnownFailsByPath(r, ResultsOf(trace.results[..i]));
      }
    }
  }

  /** A step that refers to itself is accepted but can never be run. */
  lemma SelfReferenceNeverRuns<D>(driver: Driver<D>, attempt: nat, steps: seq<Step>, start: D, trace: Trace<D>, i: nat)
    requires Accepted(steps) && Follows(driver, attempt, steps, start, trace)
    requires i < |steps| && Visible(steps[i].operation) && SelfReferring(steps, i)
    ensures |trace.results| <= i
  {
    hide Follows, Sought, Visible, Refs, Parse, IsValidName, IsForbidden;
    VisibleValuesAreSeen(steps[i].operation);
    assert StepFits(steps, i);
    UnknownReferenceNeverRuns(driver, attempt, steps, start, trace, i);
  }

  lemma PrefixFollows<D>(driver: Driver<D>, attempt: nat, steps: seq<Step>, start: D, trace: Trace<D>, n: nat)
    requires Follows(driver, attempt, steps, start, trace) && n <= |trace.results|
    ensures Follows(driver, attempt, steps, start, Trace(trace.states[..n + 1], trace.results[..n]))
  {
    hide ResolveValue, ResultsOf;
    var shorter := Trace(trace.states[..n + 1], trace.results[..n]);
    forall i | 0 <= i < n
      ensures StepDone(driver, attempt, steps, shorter, i)
    {
      assert shorter.results[..i] == trace.results[..i];
      assert StepDone(driver, attempt, steps, trace, i);
    }
  }

  /** A pipeline with a step that refers to itself never succeeds. */
  lemma SelfReferenceNeverSucceeds<D>(driver: Driver<D>, steps: seq<Step>, start: D, traces: seq<Trace<D>>,
                                      results: seq<StepResult>, i: nat)
    requires i < |steps| && Visible(steps[i].operation) && SelfReferring(steps, i)
    ensures !Succeeded(driver, steps, start, traces, results)
  {
    hide Accepted, Follows, Visible, SelfReferring;
    if Succeeded(driver, steps, start, traces, results) {
      SelfReferenceNeverRuns(driver, |traces| - 1, steps, start, traces[|traces| - 1], i);
      assert false;
    }
  }

  /** The operation each step ran is the one its references give with all the results of the run. */
  lemma OperationsAgreeWithAllResults<D>(driver: Driver<D>, attempt: nat, steps: seq<Step>, start: D, trace: Trace<D>, i: nat)
    requires Accepted(steps) && Follows(driver, attempt, steps, start, trace) && i < |trace.results|
    ensures var operation := ResolveValue(steps[i].operation, ResultsOf(trace.results), driver.show);
      && operation.Success?
      && driver.run(attempt, trace.states[i], steps[i], operation.value) == Success((trace.states[i + 1], trace.results[i].value))
  {
    hide Accepted, ResolveValue, ResultsOf, Extends;
    assert StepDone(driver, attempt, steps, trace, i);
    DifferentNames(driver, attempt, steps, start, trace);
    LaterResultsKeepEarlierOnes(trace.results, i);
    ResolutionMonotone(steps[i].operation, ResultsOf(trace.results[..i]), ResultsOf(trace.results), driver.show);
  }

  // Accepted pipelines that can never succeed

  function OneFind(operation: Value): seq<Step> {
    [Step("a", "d", "c", "find", operation, None)]
  }

  lemma OneFindAccepted(operation: Value)
    requires forall r | r in Refs(operation) :: PointsBack(OneFind(operation), 0, r)
    ensures Accepted(OneFind(operation))
  {
    hide Refs, PointsBack;
    assert forall c | c in "a" :: c == 'a';
    assert StepFits(OneFind(operation), 0);
  }

  lemma NameParses(name: string)
    requires IsName(name)
    ensures Parse(name) == Success((name, []))
  {
    NameEndOf(name, "");
    assert name + "" == name && name[..|name|] == name && name[|name|..] == "";
  }

  /** A step that asks for its own result passes the check. */
  lemma SelfReferenceIsAccepted() returns (steps: seq<Step>)
    ensures Accepted(steps) && |steps| == 1 && Visible(steps[0].operation) && SelfReferring(steps, 0)
  {
    var operation := Str("{{a}}");
    steps := OneFind(operation);
    SelfRefs();
    NameParses("a");
    hide Parse, Refs, Visible, Accepted;
    assert steps[0].name == "a" && PointsBack(steps, 0, "a");
    OneFindAccepted(operation);
    assert "a" in Refs(steps[0].operation);
  }

  lemma SelfRefs()
    ensures Refs(Str("{{a}}")) == {"a"} && Visible(Str("{{a}}"))
  {
    hide I.Captures, I.Trim, Inner;
    SelfString();
    assert forall r :: r in RefsOf("{{a}}") <==> r == "a";
  }

  lemma SelfString()
    ensures I.Captures("{{a}}") == ["a"] && I.Trim("a") == "a" && I.Trim("{{a}}") == "{{a}}" && Inner("{{a}}") == "a"
  {
    hide I.Captures;
    I.CapturesTake("a", "");
    assert "{{a}}" == I.Full("a") + "" && ["a"] + [] == ["a"];
    assert I.TrimStart("a") == "a" && I.TrimStart("{{a}}") == "{{a}}";
  }

  /** So does a step with a reference that the check cannot see. */
  lemma UnseenPipelineIsAccepted() returns (steps: seq<Step>)
    ensures Accepted(steps) && |steps| == 1 && steps[0].operation == Str("{{a}b}}") && LooksUpUnknown(steps, 0)
  {
    steps := OneFind(Str("{{a}b}}"));
    hide Parse, Refs, Sought;
    UnseenHasNoReferences();
    OneFindAccepted(Str("{{a}b}}"));
    UnseenIsUnknown(steps, 0);
  }

  // Where the check is blind

  /** A whole-string reference with a closing brace is not collected, so the check takes the step
      as if its operation held no reference; but it is looked up when the step runs, and names a
      step that no pipeline can have, so an accepted pipeline never gets past it. */
  lemma UnseenReferenceIsAccepted<D>(driver: Driver<D>, attempt: nat, steps: seq<Step>, start: D, trace: Trace<D>, i: nat)
    requires i < |steps| && steps[i].operation == Str("{{a}b}}")
    requires Follows(driver, attempt, steps, start, trace)
    ensures Accepted(steps) <==> Accepted(steps[i := steps[i].(operation := Null)])
    ensures Accepted(steps) ==> |trace.results| <= i
  {
    hide Follows, Parse, Sought, Refs;
    OperationWithoutReferences(steps, i);
    if Accepted(steps) {
      UnseenIsUnknown(steps, i);
      UnknownReferenceNeverRuns(driver, attempt, steps, start, trace, i);
    }
  }

  /** The check depends on an operation only through the references it collects from it. */
  lemma OperationWithoutReferences(steps: seq<Step>, i: nat)
    requires i < |steps| && steps[i].operation == Str("{{a}b}}")
    ensures Accepted(steps) <==> Accepted(steps[i := steps[i].(operation := Null)])
  {
    hide Parse, IsValidName, IsForbidden, Refs;
    var others := steps[i := steps[i].(operation := Null)];
    assert Refs(steps[i].operation) == Refs(Null) by {
      UnseenHasNoReferences();
    }
    forall j | 0 <= j < |steps| ensures StepFits(steps, j) <==> StepFits(others, j) {
      assert forall k | 0 <= k < |steps| :: others[k].name == steps[k].name;
      assert Refs(others[j].operation) == Refs(steps[j].operation);
      forall r ensures PointsBack(steps, j, r) <==> PointsBack(others, j, r) {
      }
    }
  }

  lemma UnseenHasNoReferences()
    ensures Refs(Str("{{a}b}}")) == Refs(Null) == {}
  {
    hide I.Captures;
    UnseenString();
  }

  lemma UnseenIsUnknown(steps: seq<Step>, i: nat)
    requires Accepted(steps) && i < |steps| && steps[i].operation == Str("{{a}b}}")
    ensures LooksUpUnknown(steps, i)
  {
    hide I.Captures, I.Trim, IsSingle, Inner, IsForbidden, Refs;
    UnseenString();
    assert Parse("a}b") == Success(("a}b", [])) by {
      NameEndOf("a}b", "");
      assert "a}b" + "" == "a}b" && "a}b"[..3] == "a}b" && "a}b"[3..] == "";
    }
    hide Parse;
    assert "a}b" in Sought(steps[i].operation);
    forall j | 0 <= j < i ensures steps[j].name != "a}b" {
      assert StepFits(steps, j);
      assert "a}b"[1] in "a}b" && !IsNameChar("a}b"[1]);
    }
  }

  lemma UnseenString()
    ensures var s := "{{a}b}}"; I.Captures(s) == [] && IsSingle(I.Trim(s)) && I.Trim(Inner(I.Trim(s))) == "a}b"
  {
    hide I.Captures;
    var s := "{{a}b}}";
    assert I.TrimStart(s) == s && I.Trim(s) == s;
    assert Inner(s) == "a}b" && I.Trim("a}b") == "a}b";
    assert s[..2] == "{{" && s[5..] == "}}";
    NoDoubleBraces();
    NothingCaptured();
  }

  lemma NothingCaptured()
    ensures I.Captures("{{a}b}}") == []
  {
    hide I.Trim;
    var s := "{{a}b}}";
    assert s[2..] == "a" + "}b}}" && s[3..] == "}b}}";
    I.RunLengthOf("a", "}b}}");
    assert ("}b}}")[..2][1] == 'b' && "}}"[1] == '}';
    assert I.Placeholder(s).None?;
    assert s[1..] == "{a}b}}" && s[1..][..2][1] == 'a';
    assert I.Placeholder(s[1..]).None?;
    assert s[1..][1..] == "a}b}}";
    I.CapturesAfterLiteral("a}b}}", "");
    assert "a}b}}" + "" == "a}b}}";
  }

  lemma NoDoubleBraces()
    ensures !I.Contains("a}b", "{{") && !I.Contains("a}b", "}}")
  {
    var s := "a}b";
    forall i | 0 <= i <= |s| ensures !I.StartsWith(s[i..], "{{") && !I.StartsWith(s[i..], "}}") {
      if i + 2 <= 3 {
        assert s[i..][..2][0] == s[i] && s[i..][..2][1] == s[i + 1];
        assert "{{"[0] == '{' && "}}"[0] == '}' && "}}"[1] == '}';
      }
    }
  }
}
