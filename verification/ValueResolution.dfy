/** References anywhere in a JSON value: collecting them, and resolving them all. */
module ValueResolution {
  import opened Wrappers
  import opened Json
  import opened References
  import opened Interpolation
  import opened Resolution

  // Resolving

  function ResolveValue(value: Value, results: Results, show: Value -> string): Result<Value, RefError>
    decreases value, 1
  {
    match value
    case Str(s) => ResolveString(s, results, show)
    case Arr(items) =>
      (match ResolveItems(items, results, show)
       case Failure(e) => Failure(e)
       case Success(resolved) => Success(Arr(resolved)))
    case Obj(members) =>
      (match ResolveMembers(members, results, show)
       case Failure(e) => Failure(e)
       case Success(resolved) => Success(Obj(resolved)))
    case other => Success(other)
  }

  function ResolveItems(items: seq<Value>, results: Results, show: Value -> string): Result<seq<Value>, RefError>
    decreases items, 0
  {
    if items == [] then Success([])
    else
      match ResolveValue(items[0], results, show)
      case Failure(e) => Failure(e)
      case Success(first) =>
        match ResolveItems(items[1..], results, show)
        case Failure(e) => Failure(e)
        case Success(rest) => Success([first] + rest)
  }

  function ResolveMembers(members: seq<Member>, results: Results, show: Value -> string): Result<seq<Member>, RefError>
    decreases members, 0
  {
    if members == [] then Success([])
    else
      match ResolveValue(members[0].value, results, show)
      case Failure(e) => Failure(e)
      case Success(first) =>
        match ResolveMembers(members[1..], results, show)
        case Failure(e) => Failure(e)
        case Success(rest) => Success([Member(members[0].key, first)] + rest)
  }

  /** The same value with every string in it, wherever it stands, replaced by what that string
      resolves to: array lengths, object keys and their order are the same. */
  predicate Filled(value: Value, resolved: Value, results: Results, show: Value -> string)
    decreases value
  {
    match value
    case Str(s) => ResolveString(s, results, show) == Success(resolved)
    case Arr(items) =>
      && resolved.Arr? && |resolved.items| == |items|
      && forall i | 0 <= i < |items| :: Filled(items[i], resolved.items[i], results, show)
    case Obj(members) =>
      && resolved.Obj? && |resolved.members| == |members|
      && forall i | 0 <= i < |members| ::
           resolved.members[i].key == members[i].key && Filled(members[i].value, resolved.members[i].value, results, show)
    case _ => resolved == value
  }

  /** Resolving a value resolves each of its strings in place and touches nothing else. */
  lemma {:induction false} ResolutionFillsInPlace(value: Value, resolved: Value, results: Results, show: Value -> string)
    ensures ResolveValue(value, results, show) == Success(resolved) <==> Filled(value, resolved, results, show)
    decreases value, 1
  {
    hide ResolveString;
    match value
    case Arr(items) =>
      if resolved.Arr? {
        ItemsAreFilled(items, resolved.items, results, show);
      }
    case Obj(members) =>
      if resolved.Obj? {
        MembersAreFilled(members, resolved.members, results, show);
      }
    case _ =>
  }

  lemma {:induction false} ItemsAreFilled(items: seq<Value>, resolved: seq<Value>, results: Results, show: Value -> string)
    ensures ResolveItems(items, results, show) == Success(resolved)
      <==> |resolved| == |items| && forall i | 0 <= i < |items| :: Filled(items[i], resolved[i], results, show)
    decreases items, 0
  {
    hide ResolveValue, Filled;
    if items != [] && resolved != [] {
      ResolutionFillsInPlace(items[0], resolved[0], results, show);
      ItemsAreFilled(items[1..], resolved[1..], results, show);
      assert items == [items[0]] + items[1..] && resolved == [resolved[0]] + resolved[1..];
    }
  }

  lemma {:induction false} MembersAreFilled(members: seq<Member>, resolved: seq<Member>, results: Results, show: Value -> string)
    ensures ResolveMembers(members, results, show) == Success(resolved)
      <==> |resolved| == |members| && forall i | 0 <= i < |members| ::
             resolved[i].key == members[i].key && Filled(members[i].value, resolved[i].value, results, show)
    decreases members, 0
  {
    hide ResolveValue, Filled;
    if members != [] && resolved != [] {
      ResolutionFillsInPlace(members[0].value, resolved[0].value, results, show);
      MembersAreFilled(members[1..], resolved[1..], results, show);
      assert members == [members[0]] + members[1..] && resolved == [resolved[0]] + resolved[1..];
    }
  }

  // More results change nothing that already resolves.

  predicate Extends(more: Results, results: Results) {
    forall step | step in results :: step in more && more[step] == results[step]
  }

  lemma {:induction false} InterpolateMonotone(text: string, inners: seq<string>, results: Results, more: Results, show: Value -> string)
    requires Extends(more, results) && Interpolate(text, inners, results, show).Success?
    ensures Interpolate(text, inners, more, show) == Interpolate(text, inners, results, show)
    decreases inners
  {
    hide Replace, Trim, Parse, Traverse, Full;
    if inners != [] {
      var value := ResolveRef(Trim(inners[0]), results).value;
      InterpolateMonotone(Replace(text, Full(inners[0]), Shown(value, show)), inners[1..], results, more, show);
    }
  }

  lemma StringMonotone(s: string, results: Results, more: Results, show: Value -> string)
    requires Extends(more, results) && ResolveString(s, results, show).Success?
    ensures ResolveString(s, more, show) == ResolveString(s, results, show)
  {
    hide Interpolate, Trim, IsSingle, Captures, Parse, Traverse;
    if !IsSingle(Trim(s)) {
      InterpolateMonotone(s, Captures(s), results, more, show);
    }
  }

  /** What resolves keeps its value when more steps have results. */
  lemma {:induction false} ResolutionMonotone(value: Value, results: Results, more: Results, show: Value -> string)
    requires Extends(more, results) && ResolveValue(value, results, show).Success?
    ensures ResolveValue(value, more, show) == ResolveValue(value, results, show)
    decreases value, 1
  {
    hide ResolveString, Extends;
    match value
    case Str(s) => StringMonotone(s, results, more, show);
    case Arr(items) => ItemsMonotone(items, results, more, show);
    case Obj(members) => MembersMonotone(members, results, more, show);
    case _ =>
  }

  lemma {:induction false} ItemsMonotone(items: seq<Value>, results: Results, more: Results, show: Value -> string)
    requires Extends(more, results) && ResolveItems(items, results, show).Success?
    ensures ResolveItems(items, more, show) == ResolveItems(items, results, show)
    decreases items, 0
  {
    hide ResolveString, Extends;
    if items != [] {
      ResolutionMonotone(items[0], results, more, show);
      ItemsMonotone(items[1..], results, more, show);
    }
  }

  lemma {:induction false} MembersMonotone(members: seq<Member>, results: Results, more: Results, show: Value -> string)
    requires Extends(more, results) && ResolveMembers(members, results, show).Success?
    ensures ResolveMembers(members, more, show) == ResolveMembers(members, results, show)
    decreases members, 0
  {
    hide ResolveString, Extends;
    if members != [] {
      ResolutionMonotone(members[0].value, results, more, show);
      MembersMonotone(members[1..], results, more, show);
    }
  }

  // Collecting

  /** The references a string mentions. */
  function RefsOf(s: string): set<string> {
    set inner | inner in Captures(s) :: Trim(inner)
  }

  /** The references a value mentions, in any of its strings. */
  function Refs(value: Value): set<string>
    decreases value
  {
    match value
    case Str(s) => RefsOf(s)
    case Arr(items) => set i, r | 0 <= i < |items| && r in Refs(items[i]) :: r
    case Obj(members) => set i, r | 0 <= i < |members| && r in Refs(members[i].value) :: r
    case _ => {}
  }

  predicate Distinct(refs: seq<string>) {
    forall i, j | 0 <= i < j < |refs| :: refs[i] != refs[j]
  }

  method ExtractReferences(value: Value) returns (refs: seq<string>)
    ensures Distinct(refs)
    ensures forall r :: r in refs <==> r in Refs(value)
  {
    refs := ExtractInto(value, []);
  }

  /** Adds the references of a value to those already found, each of them once. */
  method ExtractInto(value: Value, found: seq<string>) returns (refs: seq<string>)
    requires Distinct(found)
    ensures Distinct(refs) && found <= refs
    ensures forall r :: r in refs <==> r in found || r in Refs(value)
    decreases value
  {
    refs := found;
    match value {
      case Str(s) =>
        var captures := Captures(s);
        for i := 0 to |captures|
          invariant Distinct(refs) && found <= refs
          invariant forall r :: r in refs <==> r in found || exists j | 0 <= j < i :: Trim(captures[j]) == r
        {
          var r := Trim(captures[i]);
          if r !in refs {
            refs := refs + [r];
          }
        }
        assert forall r :: r in RefsOf(s) <==> exists j | 0 <= j < |captures| :: Trim(captures[j]) == r;
      case Arr(items) =>
        for i := 0 to |items|
          invariant Distinct(refs) && found <= refs
          invariant forall r :: r in refs <==> r in found || exists j | 0 <= j < i :: r in Refs(items[j])
        {
          refs := ExtractInto(items[i], refs);
        }
      case Obj(members) =>
        for i := 0 to |members|
          invariant Distinct(refs) && found <= refs
          invariant forall r :: r in refs <==> r in found || exists j | 0 <= j < i :: r in Refs(members[j].value)
        {
          refs := ExtractInto(members[i].value, refs);
        }
      case _ =>
    }
  }
}
