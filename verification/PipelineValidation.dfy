/** The static check of a transactional pipeline. */
module PipelineValidation {
  import opened Wrappers
  import opened Json
  import opened References
  import opened ValueResolution

  const MAX_STEPS: nat := 50
  const MAX_DOCS: int := 101

  datatype Step = Step(
    name: string,
    database: string,
    collection: string,
    operationType: string,
    operation: Value,
    findLimit: Option<int>)

  /** What can be wrong with one step. */
  datatype Rule =
    | EmptyName
    | EmptyDatabase
    | EmptyCollection
    | InvalidName
    | DuplicateName
    | ForbiddenOperation
    | LimitTooLarge
    | BadReference(error: RefError)
    | ForwardReference(step: string)
    | UnknownStep(step: string)

  datatype Rejection = NoSteps | TooManySteps | AtStep(index: nat, rule: Rule)

  predicate IsLetter(c: char) {
    'a' <= c <= 'z' || 'A' <= c <= 'Z'
  }

  predicate IsNameChar(c: char) {
    IsLetter(c) || IsDigit(c) || c == '_'
  }

  predicate IsValidName(name: string) {
    && name != "" && !IsDigit(name[0])
    && forall c | c in name :: IsNameChar(c)
  }

  predicate IsForbidden(operationType: string) {
    || operationType == "begin_transaction"
    || operationType == "commit_transaction"
    || operationType == "abort_transaction"
  }

  function NamesBefore(steps: seq<Step>, i: nat): set<string>
    requires i <= |steps|
  {
    set j | 0 <= j < i :: steps[j].name
  }

  /** The step breaks the rule. */
  predicate Broken(steps: seq<Step>, i: nat, rule: Rule)
    requires i < |steps|
  {
    var step := steps[i];
    match rule
    case EmptyName => step.name == ""
    case EmptyDatabase => step.database == ""
    case EmptyCollection => step.collection == ""
    case InvalidName => !IsValidName(step.name)
    case DuplicateName => exists j | 0 <= j < i :: steps[j].name == step.name
    case ForbiddenOperation => IsForbidden(step.operationType)
    case LimitTooLarge => step.findLimit.Some? && step.findLimit.value > MAX_DOCS
    case BadReference(e) => exists r | r in Refs(step.operation) :: Parse(r) == Failure(e)
    case ForwardReference(name) =>
      && (exists r | r in Refs(step.operation) :: Parse(r).Success? && Parse(r).value.0 == name)
      && (forall j | 0 <= j <= i :: steps[j].name != name)
      && exists j | i < j < |steps| :: steps[j].name == name
    case UnknownStep(name) =>
      && (exists r | r in Refs(step.operation) :: Parse(r).Success? && Parse(r).value.0 == name)
      && forall j | 0 <= j < |steps| :: steps[j].name != name
  }

  /** The order in which the rules are checked. */
  function Rank(rule: Rule): nat {
    match rule
    case EmptyName => 0
    case EmptyDatabase => 1
    case EmptyCollection => 2
    case InvalidName => 3
    case DuplicateName => 4
    case ForbiddenOperation => 5
    case LimitTooLarge => 6
    case _ => 7
  }

  /** The reference is well formed and names the step itself or an earlier one. */
  predicate PointsBack(steps: seq<Step>, i: nat, reference: string)
    requires i < |steps|
  {
    Parse(reference).Success? && exists j | 0 <= j <= i :: steps[j].name == Parse(reference).value.0
  }

  predicate StepFits(steps: seq<Step>, i: nat)
    requires i < |steps|
  {
    var step := steps[i];
    && IsValidName(step.name) && step.database != "" && step.collection != ""
    && (forall j | 0 <= j < i :: steps[j].name != step.name)
    && !IsForbidden(step.operationType)
    && (step.findLimit.Some? ==> step.findLimit.value <= MAX_DOCS)
    && forall r | r in Refs(step.operation) :: PointsBack(steps, i, r)
  }

  predicate Accepted(steps: seq<Step>) {
    1 <= |steps| <= MAX_STEPS && forall i | 0 <= i < |steps| :: StepFits(steps, i)
  }

  /** A rejection names the first step at fault and the first rule that it breaks. */
  ghost predicate Justified(steps: seq<Step>, rejection: Rejection) {
    match rejection
    case NoSteps => steps == []
    case TooManySteps => |steps| > MAX_STEPS
    case AtStep(i, rule) =>
      && i < |steps| <= MAX_STEPS
      && (forall j | 0 <= j < i :: StepFits(steps, j))
      && FirstBroken(steps, i, rule)
  }

  ghost predicate FirstBroken(steps: seq<Step>, i: nat, rule: Rule)
    requires i < |steps|
  {
    Broken(steps, i, rule) && forall earlier: Rule | Rank(earlier) < Rank(rule) :: !Broken(steps, i, earlier)
  }

  /** A step fits exactly if it breaks no rule. */
  lemma FitsExactlyWhenNothingIsBroken(steps: seq<Step>, i: nat)
    requires i < |steps|
    ensures StepFits(steps, i) <==> forall rule: Rule :: !Broken(steps, i, rule)
  {
    hide StepFits, Broken;
    if StepFits(steps, i) {
      forall rule: Rule ensures !Broken(steps, i, rule) {
        FittingBreaksNothing(steps, i, rule);
      }
    } else if forall rule: Rule :: !Broken(steps, i, rule) {
      UnbrokenFits(steps, i);
    }
  }

  lemma FittingBreaksNothing(steps: seq<Step>, i: nat, rule: Rule)
    requires i < |steps| && StepFits(steps, i)
    ensures !Broken(steps, i, rule)
  {
    hide Parse, Refs, IsForbidden, IsNameChar;
  }

  lemma UnbrokenFits(steps: seq<Step>, i: nat)
    requires i < |steps| && forall rule: Rule :: !Broken(steps, i, rule)
    ensures StepFits(steps, i)
  {
    hide Parse, Refs, IsForbidden, IsValidName;
    assert !Broken(steps, i, EmptyName) && !Broken(steps, i, EmptyDatabase) && !Broken(steps, i, EmptyCollection);
    assert !Broken(steps, i, InvalidName) && !Broken(steps, i, DuplicateName);
    assert !Broken(steps, i, ForbiddenOperation) && !Broken(steps, i, LimitTooLarge);
    forall r | r in Refs(steps[i].operation) ensures PointsBack(steps, i, r) {
      var parsed := Parse(r);
      assert parsed.Failure? ==> Broken(steps, i, BadReference(parsed.error));
      assert parsed.Success? ==>
          !Broken(steps, i, ForwardReference(parsed.value.0)) && !Broken(steps, i, UnknownStep(parsed.value.0));
    }
  }

  /** The names of accepted steps are pairwise different. */
  lemma NamesAreUnique(steps: seq<Step>, i: nat, j: nat)
    requires Accepted(steps) && i < |steps| && j < |steps| && steps[i].name == steps[j].name
    ensures i == j
  {
    assert StepFits(steps, i) && StepFits(steps, j);
  }

  /** Which names are valid, in characters. */
  lemma NameForm(name: string)
    ensures IsValidName(name)
      <==> name != ""
           && ('a' <= name[0] <= 'z' || 'A' <= name[0] <= 'Z' || name[0] == '_')
           && forall i | 0 <= i < |name| ::
                'a' <= name[i] <= 'z' || 'A' <= name[i] <= 'Z' || '0' <= name[i] <= '9' || name[i] == '_'
  {
    if name != "" {
      assert name[0] in name;
      assert forall i | 0 <= i < |name| :: name[i] in name;
    }
  }

  method ValidName(name: string) returns (valid: bool)
    ensures valid == IsValidName(name)
  {
    if name == "" || !(IsLetter(name[0]) || name[0] == '_') {
      assert name != "" ==> name[0] in name;
      return false;
    }
    for i := 1 to |name|
      invariant forall c | c in name[..i] :: IsNameChar(c)
    {
      if !IsNameChar(name[i]) {
        assert name[i] in name;
        return false;
      }
      assert name[..i + 1] == name[..i] + [name[i]];
    }
    assert name[..|name|] == name;
    return true;
  }

  method ValidatePipeline(steps: seq<Step>) returns (r: Result<(), Rejection>)
    ensures r.Success? <==> Accepted(steps)
    ensures r.Failure? ==> Justified(steps, r.error)
  {
    if steps == [] {
      return Failure(NoSteps);
    }
    if |steps| > MAX_STEPS {
      return Failure(TooManySteps);
    }
    var seen: set<string> := {};
    for i := 0 to |steps|
      invariant seen == NamesBefore(steps, i)
      invariant forall j | 0 <= j < i :: StepFits(steps, j)
    {
      var rule := CheckStep(steps, i, seen);
      if rule.Some? {
        FitsExactlyWhenNothingIsBroken(steps, i);
        return Failure(AtStep(i, rule.value));
      }
      seen := seen + {steps[i].name};
    }
    return Success(());
  }

  /** The first rule that a step breaks, given the names of the steps before it. */
  method CheckStep(steps: seq<Step>, i: nat, before: set<string>) returns (rule: Option<Rule>)
    requires i < |steps| && before == NamesBefore(steps, i)
    ensures rule.None? ==> StepFits(steps, i)
    ensures rule.Some? ==> FirstBroken(steps, i, rule.value)
  {
    hide Parse, Refs, IsForbidden, IsValidName;
    var step := steps[i];
    if step.name == "" {
      return Some(EmptyName);
    }
    if step.database == "" {
      return Some(EmptyDatabase);
    }
    if step.collection == "" {
      return Some(EmptyCollection);
    }
    var valid := ValidName(step.name);
    if !valid {
      return Some(InvalidName);
    }
    if step.name in before {
      return Some(DuplicateName);
    }
    var seen := before + {step.name};
    if IsForbidden(step.operationType) {
      return Some(ForbiddenOperation);
    }
    if step.findLimit.Some? && step.findLimit.value > MAX_DOCS {
      return Some(LimitTooLarge);
    }
    rule := CheckReferences(steps, i, seen);
  }

  method CheckReferences(steps: seq<Step>, i: nat, seen: set<string>) returns (rule: Option<Rule>)
    requires i < |steps| && seen == NamesBefore(steps, i) + {steps[i].name}
    ensures rule.None? ==> forall r | r in Refs(steps[i].operation) :: PointsBack(steps, i, r)
    ensures rule.Some? ==> Rank(rule.value) == 7 && Broken(steps, i, rule.value)
  {
    hide Parse, Refs, IsForbidden, IsValidName;
    var refs := ExtractReferences(steps[i].operation);
    for k := 0 to |refs|
      invariant forall j | 0 <= j < k :: PointsBack(steps, i, refs[j])
    {
      assert refs[k] in refs;
      var parsed := ParseReference(refs[k]);
      if parsed.Failure? {
        return Some(BadReference(parsed.error));
      }
      var name := parsed.value.0;
      if name !in seen {
        assert forall j | 0 <= j <= i :: steps[j].name != name;
        if exists j | 0 <= j < |steps| :: steps[j].name == name {
          return Some(ForwardReference(name));
        } else {
          return Some(UnknownStep(name));
        }
      }
    }
    return None;
  }
}
