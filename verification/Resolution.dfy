/** Resolving the references of a JSON value against the results of earlier steps. */
module Resolution {
  import opened Wrappers
  import opened Json
  import opened References
  import opened Interpolation

  type Results = map<string, Value>

  // Paths

  function Traverse(value: Value, path: seq<PathSegment>): Result<Value, RefError>
    decreases |path|, 0
  {
    if path == [] then Success(value)
    else
      match path[0]
      case Field(name) =>
        if name == "length" && value.Arr? then Success(Int(|value.items|))
        else if value.Obj? then
          match Get(value.members, name)
          case None => Failure(FieldNotFound(name))
          case Some(member) => Traverse(member, path[1..])
        else Failure(NotAnObject(name))
      case Index(i) =>
        if !value.Arr? then Failure(NotAnArray)
        else if i >= |value.items| then Failure(OutOfBounds(i))
        else Traverse(value.items[i], path[1..])
      case Wildcard =>
        if !value.Arr? then Failure(WildcardOnNonArray)
        else
          match TraverseAll(value.items, path[1..])
          case Failure(e) => Failure(e)
          case Success(items) => Success(Arr(items))
  }

  /** The same path through every item, or the first failure. */
  function TraverseAll(items: seq<Value>, path: seq<PathSegment>): Result<seq<Value>, RefError>
    decreases |path|, |items|
  {
    if items == [] then Success([])
    else
      match Traverse(items[0], path)
      case Failure(e) => Failure(e)
      case Success(first) =>
        match TraverseAll(items[1..], path)
        case Failure(e) => Failure(e)
        case Success(rest) => Success([first] + rest)
  }

  /** The path never asks an array for its length, nor uses a wildcard. */
  predicate Direct(value: Value, path: seq<PathSegment>)
    decreases |path|
  {
    path == [] ||
    (match path[0]
     case Field(name) =>
       !(name == "length" && value.Arr?)
       && (value.Obj? && Get(value.members, name).Some? ==> Direct(Get(value.members, name).value, path[1..]))
     case Index(i) => value.Arr? && i < |value.items| ==> Direct(value.items[i], path[1..])
     case Wildcard => false)
  }

  /** A direct path followed by another is one after the other. */
  lemma {:induction false} TraverseComposes(value: Value, p: seq<PathSegment>, q: seq<PathSegment>)
    requires Direct(value, p)
    ensures Traverse(value, p + q) == FollowedBy(Traverse(value, p), q)
    decreases |p|
  {
    if p == [] {
      assert p + q == q;
    } else {
      assert (p + q)[1..] == p[1..] + q;
      match p[0]
      case Field(name) =>
        if value.Obj? && Get(value.members, name).Some? {
          TraverseComposes(Get(value.members, name).value, p[1..], q);
        }
      case Index(i) =>
        if value.Arr? && i < |value.items| {
          TraverseComposes(value.items[i], p[1..], q);
        }
      case Wildcard =>
    }
  }

  function FollowedBy(first: Result<Value, RefError>, q: seq<PathSegment>): Result<Value, RefError> {
    match first
    case Failure(e) => Failure(e)
    case Success(middle) => Traverse(middle, q)
  }

  /** A path without wildcards that goes on is one path after the other if and only if its first
      part asks no array for its length: at an array length the two readings always differ. */
  lemma {:induction false} ComposesExactlyWhenDirect(value: Value, p: seq<PathSegment>, q: seq<PathSegment>)
    requires Wildcard !in p && q != []
    ensures Traverse(value, p + q) == FollowedBy(Traverse(value, p), q) <==> Direct(value, p)
    decreases |p|
  {
    if p == [] {
      assert p + q == q;
    } else {
      assert (p + q)[1..] == p[1..] + q;
      match p[0]
      case Field(name) =>
        if name == "length" && value.Arr? {
          EndsAtALength(value.items, p, q);
        } else if value.Obj? && Get(value.members, name).Some? {
          ComposesExactlyWhenDirect(Get(value.members, name).value, p[1..], q);
        }
      case Index(i) =>
        if value.Arr? && i < |value.items| {
          ComposesExactlyWhenDirect(value.items[i], p[1..], q);
        }
      case Wildcard => assert false;
    }
  }

  lemma NothingBelowANumber(n: int, q: seq<PathSegment>)
    requires q != []
    ensures Traverse(Int(n), q).Failure?
  {
  }

  /** With an array length on the way both p and p + q stop there, and no path leads on from it. */
  lemma EndsAtALength(items: seq<Value>, p: seq<PathSegment>, q: seq<PathSegment>)
    requires p != [] && p[0] == Field("length") && q != []
    ensures Traverse(Arr(items), p) == Traverse(Arr(items), p + q) == Success(Int(|items|))
    ensures Traverse(Int(|items|), q).Failure?
  {
    LengthIgnoresTheRest(items, p[1..]);
    LengthIgnoresTheRest(items, p[1..] + q);
    NothingBelowANumber(|items|, q);
    hide Traverse;
    assert [Field("length")] + p[1..] == p && [Field("length")] + (p[1..] + q) == p + q;
  }

  /** Asking an array for its length ends the path there, whatever follows. */
  lemma LengthIgnoresTheRest(items: seq<Value>, q: seq<PathSegment>)
    ensures Traverse(Arr(items), [Field("length")] + q) == Success(Int(|items|))
  {
  }

  lemma {:induction false} TraverseAllIsPointwise(items: seq<Value>, path: seq<PathSegment>)
    ensures TraverseAll(items, path).Success? <==> forall i | 0 <= i < |items| :: Traverse(items[i], path).Success?
    ensures TraverseAll(items, path).Success? ==>
      |TraverseAll(items, path).value| == |items|
      && forall i | 0 <= i < |items| :: Traverse(items[i], path) == Success(TraverseAll(items, path).value[i])
    decreases |items|
  {
    if items != [] {
      TraverseAllIsPointwise(items[1..], path);
      assert forall i | 0 < i < |items| :: items[i] == items[1..][i - 1];
    }
  }

  /** A wildcard follows the rest of the path in every item and keeps their number and order; it
      succeeds exactly if every item does. */
  lemma WildcardIsPointwise(items: seq<Value>, rest: seq<PathSegment>)
    ensures var r := Traverse(Arr(items), [Wildcard] + rest);
      && (r.Success? <==> forall i | 0 <= i < |items| :: Traverse(items[i], rest).Success?)
      && (r.Success? ==>
            && r.value.Arr? && |r.value.items| == |items|
            && forall i | 0 <= i < |items| :: Traverse(items[i], rest) == Success(r.value.items[i]))
  {
    assert ([Wildcard] + rest)[1..] == rest;
    TraverseAllIsPointwise(items, rest);
  }

  predicate PathError(e: RefError) {
    e.FieldNotFound? || e.NotAnObject? || e.OutOfBounds? || e.NotAnArray? || e.WildcardOnNonArray?
  }

  lemma {:induction false} TraverseFailsByPath(value: Value, path: seq<PathSegment>)
    ensures Traverse(value, path).Failure? ==> PathError(Traverse(value, path).error)
    decreases |path|, 0
  {
    if path != [] {
      if value.Obj? && path[0].Field? && Get(value.members, path[0].name).Some? {
        TraverseFailsByPath(Get(value.members, path[0].name).value, path[1..]);
      } else if value.Arr? && path[0].Index? && path[0].i < |value.items| {
        TraverseFailsByPath(value.items[path[0].i], path[1..]);
      } else if value.Arr? && path[0].Wildcard? {
        TraverseAllFailsByPath(value.items, path[1..]);
      }
    }
  }

  lemma {:induction false} TraverseAllFailsByPath(items: seq<Value>, path: seq<PathSegment>)
    ensures TraverseAll(items, path).Failure? ==> PathError(TraverseAll(items, path).error)
    decreases |path|, |items|
  {
    if items != [] {
      TraverseFailsByPath(items[0], path);
      TraverseAllFailsByPath(items[1..], path);
    }
  }

  // Single references and strings

  function ResolveRef(reference: string, results: Results): Result<Value, RefError> {
    match Parse(reference)
    case Failure(e) => Failure(e)
    case Success((step, path)) =>
      if step !in results then Failure(StepNotFound(step))
      else Traverse(results[step], path)
  }

  /** A value as interpolated text; `show` prints the values that are neither strings nor null. */
  function Shown(value: Value, show: Value -> string): string {
    match value
    case Str(s) => s
    case Null => "null"
    case _ => show(value)
  }

  /** The trimmed string is one placeholder and nothing else. */
  predicate IsSingle(trimmed: string) {
    && StartsWith(trimmed, "{{") && EndsWith(trimmed, "}}") && |trimmed| >= 4
    && !Contains(Inner(trimmed), "{{") && !Contains(Inner(trimmed), "}}")
  }

  function Inner(trimmed: string): string
    requires |trimmed| >= 4
  {
    trimmed[2..|trimmed| - 2]
  }

  lemma BracesDoNotOverlap(s: string)
    requires StartsWith(s, "{{") && EndsWith(s, "}}")
    ensures |s| >= 4
  {
    assert s[0] == s[..2][0] == '{' && s[1] == s[..2][1] == '{';
    assert s[|s| - 2] == s[|s| - 2..][0] == '}' && s[|s| - 1] == s[|s| - 2..][1] == '}';
  }

  predicate SplitsAs(s: string, before: string, inner: string, after: string) {
    && Blank(before) && Blank(after) && s == before + Full(inner) + after
    && !Contains(inner, "{{") && !Contains(inner, "}}")
  }

  /** A string is a single reference exactly if it is one placeholder between white space, with no
      double brace inside. */
  lemma SingleExactly(s: string)
    ensures IsSingle(Trim(s)) <==> exists before, inner, after :: SplitsAs(s, before, inner, after)
  {
    hide Contains, IsWhitespace;
    if IsSingle(Trim(s)) {
      SplitsWhenSingle(s);
    }
    if before, inner, after :| SplitsAs(s, before, inner, after) {
      TrimsToPlaceholder(before, inner, after);
    }
  }

  lemma SplitsWhenSingle(s: string)
    requires IsSingle(Trim(s))
    ensures exists before, inner, after :: SplitsAs(s, before, inner, after)
  {
    hide Contains, Trim;
    var before, after := TrimSplits(s);
    var trimmed, inner := Trim(s), Inner(Trim(s));
    assert trimmed == trimmed[..2] + inner + trimmed[|trimmed| - 2..] == Full(inner);
    assert SplitsAs(s, before, inner, after);
  }

  lemma TrimsToPlaceholder(before: string, inner: string, after: string)
    requires Blank(before) && Blank(after)
    ensures Trim(before + Full(inner) + after) == Full(inner)
    ensures IsSingle(Full(inner)) <==> !Contains(inner, "{{") && !Contains(inner, "}}")
  {
    hide Contains;
    assert before + Full(inner) + after == before + (Full(inner) + after);
    TrimStartDrops(before, Full(inner) + after);
    TrimEndDrops(Full(inner), after);
    assert Inner(Full(inner)) == inner;
    assert Full(inner)[..2] == "{{" && Full(inner)[|inner| + 2..] == "}}";
  }

  function Interpolate(text: string, inners: seq<string>, results: Results, show: Value -> string): Result<string, RefError>
    decreases inners
  {
    if inners == [] then Success(text)
    else
      match ResolveRef(Trim(inners[0]), results)
      case Failure(e) => Failure(e)
      case Success(value) => Interpolate(Replace(text, Full(inners[0]), Shown(value, show)), inners[1..], results, show)
  }

  function AsText(r: Result<string, RefError>): Result<Value, RefError> {
    match r
    case Failure(e) => Failure(e)
    case Success(s) => Success(Str(s))
  }

  function ResolveString(s: string, results: Results, show: Value -> string): Result<Value, RefError> {
    if IsSingle(Trim(s)) then ResolveRef(Trim(Inner(Trim(s))), results)
    else AsText(Interpolate(s, Captures(s), results, show))
  }

  method ResolveStringInPlace(s: string, results: Results, show: Value -> string) returns (r: Result<Value, RefError>)
    ensures r == ResolveString(s, results, show)
  {
    hide ResolveRef, Captures, Trim, Replace, Full, Shown, Contains;
    var trimmed := Trim(s);
    if StartsWith(trimmed, "{{") && EndsWith(trimmed, "}}") {
      BracesDoNotOverlap(trimmed);
      var inner := trimmed[2..|trimmed| - 2];
      if !Contains(inner, "{{") && !Contains(inner, "}}") {
        r := ResolveRef(Trim(inner), results);
        return;
      }
    }
    var result := s;
    var captures := Captures(s);
    assert captures[0..] == captures;
    for i := 0 to |captures|
      invariant Interpolate(result, captures[i..], results, show) == Interpolate(s, captures, results, show)
    {
      assert captures[i..][1..] == captures[i + 1..];
      var resolved := ResolveRef(Trim(captures[i]), results);
      if resolved.Failure? {
        return Failure(resolved.error);
      }
      result := Replace(result, Full(captures[i]), Shown(resolved.value, show));
    }
    return Success(Str(result));
  }

  /** The text each placeholder stands for. */
  function Filling(results: Results, show: Value -> string): string -> string {
    (inner: string) =>
      match ResolveRef(Trim(inner), results)
      case Failure(_) => ""
      case Success(value) => Shown(value, show)
  }

  lemma FillingOf(inner: string, results: Results, show: Value -> string)
    ensures ResolveRef(Trim(inner), results).Success? ==>
      Filling(results, show)(inner) == Shown(ResolveRef(Trim(inner), results).value, show)
  {
  }

  predicate AllResolve(inners: seq<string>, results: Results) {
    forall inner | inner in inners :: ResolveRef(Trim(inner), results).Success?
  }

  lemma {:induction false} InterpolateReplacesAll(text: string, inners: seq<string>, results: Results, show: Value -> string)
    ensures Interpolate(text, inners, results, show).Success? <==> AllResolve(inners, results)
    ensures AllResolve(inners, results) ==>
      Interpolate(text, inners, results, show) == Success(ReplaceAll(text, inners, Filling(results, show)))
    decreases inners
  {
    hide ResolveRef, Replace, Trim, Shown, Full, Filling;
    if inners != [] {
      assert inners == [inners[0]] + inners[1..];
      FillingOf(inners[0], results, show);
      match ResolveRef(Trim(inners[0]), results)
      case Failure(_) =>
      case Success(value) =>
        InterpolateReplacesAll(Replace(text, Full(inners[0]), Shown(value, show)), inners[1..], results, show);
    }
  }

  /** Interpolating a plain template fills every placeholder simultaneously, or fails if some
      reference cannot be resolved. */
  lemma InterpolationIsSimultaneous(template: seq<Piece>, results: Results, show: Value -> string)
    requires Plain(template) && !IsSingle(Trim(Text(template)))
    requires forall inner | inner in Captures(Text(template)) :: Tame(Filling(results, show)(inner))
    ensures var s := Text(template);
      var r := ResolveString(s, results, show);
      && (r.Success? <==> AllResolve(Captures(s), results))
      && (r.Success? ==> r.value == Str(Substitute(s, Filling(results, show))))
  {
    hide ResolveRef, Captures, Substitute, Filling, Plain, Interpolate, ReplaceAll, Trim, IsSingle, Text;
    var s := Text(template);
    InterpolateReplacesAll(s, Captures(s), results, show);
    ReplacementIsSimultaneous(template, Filling(results, show));
  }

  /** A string that is a single reference, with any white space around it, takes the referenced
      value as it is, whatever its type. */
  lemma SingleReferenceKeepsType(before: string, inner: string, after: string, results: Results, show: Value -> string)
    requires Blank(before) && Blank(after)
    requires !Contains(inner, "{{") && !Contains(inner, "}}")
    ensures ResolveString(before + Full(inner) + after, results, show) == ResolveRef(Trim(inner), results)
  {
    hide Contains, Blank, Trim, IsSingle, Full, ResolveRef, Interpolate;
    TrimsToPlaceholder(before, inner, after);
    assert Inner(Full(inner)) == inner by {
      InnerOfFull(inner);
    }
  }

  lemma InnerOfFull(inner: string)
    ensures Inner(Full(inner)) == inner
  {
  }
}
