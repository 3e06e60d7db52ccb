/** Which references the collector sees, and which the resolver looks up. */
module Visibility {
  import opened Wrappers
  import opened Json
  import opened References
  import opened Interpolation
  import opened Resolution
  import opened ValueResolution

  /** The references that resolving a string looks up. */
  function SoughtIn(s: string): set<string> {
    if IsSingle(Trim(s)) then {Trim(Inner(Trim(s)))} else RefsOf(s)
  }

  /** The references that resolving a value looks up. */
  function Sought(value: Value): set<string>
    decreases value, 1
  {
    match value
    case Str(s) => SoughtIn(s)
    case Arr(items) => SoughtInItems(items)
    case Obj(members) => SoughtInMembers(members)
    case _ => {}
  }

  function SoughtInItems(items: seq<Value>): set<string>
    decreases items, 0
  {
    if items == [] then {} else Sought(items[0]) + SoughtInItems(items[1..])
  }

  function SoughtInMembers(members: seq<Member>): set<string>
    decreases members, 0
  {
    if members == [] then {} else Sought(members[0].value) + SoughtInMembers(members[1..])
  }

  /** A string that is a single reference has a non-empty one without closing braces. */
  predicate VisibleIn(s: string) {
    IsSingle(Trim(s)) ==> Inner(Trim(s)) != "" && '}' !in Inner(Trim(s))
  }

  predicate Visible(value: Value)
    decreases value
  {
    match value
    case Str(s) => VisibleIn(s)
    case Arr(items) => forall i | 0 <= i < |items| :: Visible(items[i])
    case Obj(members) => forall i | 0 <= i < |members| :: Visible(members[i].value)
    case _ => true
  }

  // Strings

  lemma {:induction false} CapturesHaveNoClosingBrace(s: string)
    ensures forall inner | inner in Captures(s) :: inner != "" && '}' !in inner
    decreases |s|
  {
    hide Placeholder;
    if s != "" {
      match Placeholder(s)
      case Some(inner) => CapturesHaveNoClosingBrace(s[|inner| + 4..]);
      case None => CapturesHaveNoClosingBrace(s[1..]);
    }
  }

  lemma TrimKeepsClosingBraces(s: string)
    ensures '}' in s <==> '}' in Trim(s)
  {
    hide Trim;
    var before, after := TrimSplits(s);
  }

  lemma NothingCapturedInEmptyBraces(rest: string)
    requires '{' !in rest
    ensures Captures(Full("") + rest) == []
  {
    var s := Full("") + rest;
    assert s[2..][0] == '}';
    assert Placeholder(s).None?;
    assert s[1..] == "{}}" + rest && s[1..][1] == '}';
    assert !StartsWith(s[1..], "{{") by {
      assert s[1..][..2][1] == '}';
    }
    assert s[1..][1..] == "}}" + rest;
    CapturesAfterLiteral("}}" + rest, "");
    assert "}}" + rest + "" == "}}" + rest;
  }

  /** What the pattern search captures in a string that is a single reference. */
  lemma SingleCaptures(s: string)
    requires IsSingle(Trim(s))
    ensures var inner := Inner(Trim(s));
      && ('}' !in inner && inner != "" ==> Captures(s) == [inner])
      && (inner == "" ==> Captures(s) == [])
  {
    hide Captures, Placeholder, Trim;
    var before, after := TrimSplits(s);
    var trimmed, inner := Trim(s), Inner(Trim(s));
    assert trimmed == trimmed[..2] + inner + trimmed[|trimmed| - 2..] == Full(inner);
    assert s == before + (Full(inner) + after);
    assert '{' !in before && '{' !in after;
    CapturesAfterLiteral(before, Full(inner) + after);
    if inner == "" {
      NothingCapturedInEmptyBraces(after);
    } else if '}' !in inner {
      PlaceholderOf(inner, after);
      CapturesAfterLiteral(after, "");
      assert after + "" == after;
      CapturesTake(inner, after);
      assert [inner] + [] == [inner];
    }
  }

  /** The collector sees what resolving a string looks up exactly if the string is visible; and
      then it sees nothing else. */
  lemma SeenExactlyWhenVisible(s: string)
    ensures SoughtIn(s) <= RefsOf(s) <==> VisibleIn(s)
    ensures VisibleIn(s) ==> SoughtIn(s) == RefsOf(s)
  {
    hide Captures, Trim, Inner;
    if IsSingle(Trim(s)) {
      var inner := Inner(Trim(s));
      SingleCaptures(s);
      CapturesHaveNoClosingBrace(s);
      TrimKeepsClosingBraces(inner);
      forall other | other in Captures(s) ensures '}' !in Trim(other) {
        TrimKeepsClosingBraces(other);
      }
      assert Trim(inner) in SoughtIn(s);
    }
  }

  // Values

  lemma {:induction false} SoughtInEachItem(items: seq<Value>)
    ensures forall r :: r in SoughtInItems(items) <==> exists i | 0 <= i < |items| :: r in Sought(items[i])
  {
    if items != [] {
      SoughtInEachItem(items[1..]);
      assert items == [items[0]] + items[1..];
    }
  }

  lemma {:induction false} SoughtInEachMember(members: seq<Member>)
    ensures forall r :: r in SoughtInMembers(members) <==> exists i | 0 <= i < |members| :: r in Sought(members[i].value)
  {
    if members != [] {
      SoughtInEachMember(members[1..]);
      assert members == [members[0]] + members[1..];
    }
  }

  /** In a visible value the collector sees exactly what resolving looks up. */
  lemma {:induction false} VisibleValuesAreSeen(value: Value)
    requires Visible(value)
    ensures Sought(value) == Refs(value)
    decreases value
  {
    hide SoughtIn, RefsOf, VisibleIn, SoughtInItems, SoughtInMembers;
    match value
    case Str(s) => SeenExactlyWhenVisible(s);
    case Arr(items) =>
      SoughtInEachItem(items);
      forall i | 0 <= i < |items| ensures Sought(items[i]) == Refs(items[i]) {
        VisibleValuesAreSeen(items[i]);
      }
    case Obj(members) =>
      SoughtInEachMember(members);
      forall i | 0 <= i < |members| ensures Sought(members[i].value) == Refs(members[i].value) {
        VisibleValuesAreSeen(members[i].value);
      }
    case _ =>
  }

  /** The reference is well formed and names a step that has a result. */
  predicate Known(reference: string, results: Results) {
    Parse(reference).Success? && Parse(reference).value.0 in results
  }

  lemma KnownFailsByPath(reference: string, results: Results)
    ensures ResolveRef(reference, results).Success? ==> Known(reference, results)
    ensures Known(reference, results) && ResolveRef(reference, results).Failure? ==>
      PathError(ResolveRef(reference, results).error)
  {
    hide Parse, Traverse, PathError;
    if Known(reference, results) {
      var (step, path) := Parse(reference).value;
      TraverseFailsByPath(results[step], path);
    }
  }

  predicate Resolves(refs: set<string>, results: Results) {
    forall r | r in refs :: ResolveRef(r, results).Success?
  }

  predicate AllKnown(refs: set<string>, results: Results) {
    forall r | r in refs :: Known(r, results)
  }

  /** Resolution succeeds exactly if every reference looked up resolves, and with known steps
      only it fails only because of a path. */
  ghost predicate GovernedBy<T>(refs: set<string>, results: Results, r: Result<T, RefError>) {
    && (r.Success? <==> Resolves(refs, results))
    && (AllKnown(refs, results) && r.Failure? ==> PathError(r.error))
  }

  lemma {:induction false} InterpolationIsGoverned(text: string, inners: seq<string>, results: Results, show: Value -> string)
    ensures GovernedBy(set inner | inner in inners :: Trim(inner), results, Interpolate(text, inners, results, show))
    decreases inners
  {
    hide ResolveRef, Trim, Replace, Known, PathError, Shown, Full;
    if inners != [] {
      KnownFailsByPath(Trim(inners[0]), results);
      var refs := set inner | inner in inners :: Trim(inner);
      var rest := set inner | inner in inners[1..] :: Trim(inner);
      assert refs == {Trim(inners[0])} + rest by {
        assert inners == [inners[0]] + inners[1..];
      }
      var r := ResolveRef(Trim(inners[0]), results);
      if r.Success? {
        InterpolationIsGoverned(Replace(text, Full(inners[0]), Shown(r.value, show)), inners[1..], results, show);
      }
    }
  }

  lemma StringIsGoverned(s: string, results: Results, show: Value -> string)
    ensures GovernedBy(SoughtIn(s), results, ResolveString(s, results, show))
  {
    hide ResolveRef, Trim, Interpolate, Captures, Known, PathError, Inner;
    if IsSingle(Trim(s)) {
      KnownFailsByPath(Trim(Inner(Trim(s))), results);
      assert Trim(Inner(Trim(s))) in SoughtIn(s);
    } else {
      InterpolationIsGoverned(s, Captures(s), results, show);
    }
  }

  lemma {:induction false} ResolutionIsGoverned(value: Value, results: Results, show: Value -> string)
    ensures GovernedBy(Sought(value), results, ResolveValue(value, results, show))
    decreases value, 1
  {
    hide ResolveString, SoughtIn, ResolveRef, Known, PathError;
    match value
    case Str(s) => StringIsGoverned(s, results, show);
    case Arr(items) => ItemsAreGoverned(items, results, show);
    case Obj(members) => MembersAreGoverned(members, results, show);
    case _ =>
  }

  lemma {:induction false} ItemsAreGoverned(items: seq<Value>, results: Results, show: Value -> string)
    ensures GovernedBy(SoughtInItems(items), results, ResolveItems(items, results, show))
    decreases items, 0
  {
    hide ResolveValue, Sought, ResolveRef, Known, PathError;
    if items != [] {
      ResolutionIsGoverned(items[0], results, show);
      ItemsAreGoverned(items[1..], results, show);
    }
  }

  lemma {:induction false} MembersAreGoverned(members: seq<Member>, results: Results, show: Value -> string)
    ensures GovernedBy(SoughtInMembers(members), results, ResolveMembers(members, results, show))
    decreases members, 0
  {
    hide ResolveValue, Sought, ResolveRef, Known, PathError;
    if members != [] {
      ResolutionIsGoverned(members[0].value, results, show);
      MembersAreGoverned(members[1..], results, show);
    }
  }
}
