/** What a path reads is what stands where it leads. */
module PathLaws {
  import opened Wrappers
  import opened Json
  import opened References
  import opened Resolution
  import I = Interpolation

  /** The object with another value under the first member of that key. */
  function PutMember(members: seq<Member>, key: string, v: Value): seq<Member> {
    if members == [] then []
    else if members[0].key == key then [Member(key, v)] + members[1..]
    else [members[0]] + PutMember(members[1..], key, v)
  }

  /** The value with another one in the place a path without wildcards leads to, if it is there. */
  function Put(value: Value, path: seq<PathSegment>, v: Value): Value
    decreases |path|
  {
    if path == [] then v
    else
      match path[0]
      case Field(name) =>
        if value.Obj? && Get(value.members, name).Some? then
          Obj(PutMember(value.members, name, Put(Get(value.members, name).value, path[1..], v)))
        else value
      case Index(i) =>
        if value.Arr? && i < |value.items| then Arr(value.items[i := Put(value.items[i], path[1..], v)]) else value
      case Wildcard => value
  }

  lemma {:induction false} GetAfterPut(members: seq<Member>, key: string, v: Value, other: string)
    ensures Get(PutMember(members, key, v), other)
         == if other == key && Get(members, key).Some? then Some(v) else Get(members, other)
  {
    if members != [] {
      GetAfterPut(members[1..], key, v, other);
      assert ([members[0]] + PutMember(members[1..], key, v))[1..] == PutMember(members[1..], key, v);
      assert ([Member(key, v)] + members[1..])[1..] == members[1..];
    }
  }

  lemma {:induction false} PutWhatIsThere(members: seq<Member>, key: string)
    requires Get(members, key).Some?
    ensures PutMember(members, key, Get(members, key).value) == members
  {
    if members[0].key != key {
      PutWhatIsThere(members[1..], key);
    }
    assert members == [members[0]] + members[1..];
  }

  /** A path reads what was put where it leads. */
  lemma {:induction false} PutThenRead(value: Value, path: seq<PathSegment>, v: Value)
    requires Direct(value, path) && Traverse(value, path).Success?
    ensures Traverse(Put(value, path, v), path) == Success(v)
    decreases |path|
  {
    if path != [] {
      match path[0]
      case Field(name) =>
        PutThenRead(Get(value.members, name).value, path[1..], v);
        GetAfterPut(value.members, name, Put(Get(value.members, name).value, path[1..], v), name);
      case Index(i) => PutThenRead(value.items[i], path[1..], v);
      case Wildcard =>
    }
  }

  /** Putting back what a path reads changes nothing. */
  lemma {:induction false} ReadThenPut(value: Value, path: seq<PathSegment>)
    requires Direct(value, path) && Traverse(value, path).Success?
    ensures Put(value, path, Traverse(value, path).value) == value
    decreases |path|
  {
    if path != [] {
      match path[0]
      case Field(name) =>
        ReadThenPut(Get(value.members, name).value, path[1..]);
        PutWhatIsThere(value.members, name);
      case Index(i) => ReadThenPut(value.items[i], path[1..]);
      case Wildcard =>
    }
  }

  /** The paths part at some segment, and neither has a wildcard there. */
  predicate Diverge(p: seq<PathSegment>, q: seq<PathSegment>) {
    && p != [] && q != []
    && if p[0] == q[0] then Diverge(p[1..], q[1..]) else !p[0].Wildcard? && !q[0].Wildcard?
  }

  /** What is put in one place is not seen from another. */
  lemma {:induction false} PutElsewhere(value: Value, p: seq<PathSegment>, v: Value, q: seq<PathSegment>)
    requires Diverge(p, q)
    ensures Traverse(Put(value, p, v), q) == Traverse(value, q)
    decreases |p|
  {
    match p[0]
    case Field(name) =>
      if value.Obj? && Get(value.members, name).Some? {
        var inner := Get(value.members, name).value;
        var there := Put(inner, p[1..], v);
        GetAfterPut(value.members, name, there, name);
        if q[0].Field? {
          GetAfterPut(value.members, name, there, q[0].name);
        }
        if p[0] == q[0] {
          PutElsewhere(inner, p[1..], v, q[1..]);
        }
      }
    case Index(i) =>
      if value.Arr? && i < |value.items| && p[0] == q[0] {
        PutElsewhere(value.items[i], p[1..], v, q[1..]);
      }
    case Wildcard =>
  }

  // One segment at a time

  /** The first member of an object with the key. */
  predicate IsFirst(members: seq<Member>, i: nat, key: string) {
    i < |members| && members[i].key == key && forall j | 0 <= j < i :: members[j].key != key
  }

  lemma {:induction false} GetIsFirst(members: seq<Member>, key: string)
    ensures Get(members, key).None? <==> forall i | 0 <= i < |members| :: members[i].key != key
    ensures forall i: nat | IsFirst(members, i, key) :: Get(members, key) == Some(members[i].value)
    ensures Get(members, key).Some? ==> exists i: nat :: IsFirst(members, i, key)
  {
    if members != [] {
      var rest := members[1..];
      GetIsFirst(rest, key);
      assert forall i | 0 <= i < |rest| :: rest[i] == members[i + 1];
      if members[0].key == key {
        assert IsFirst(members, 0, key);
      } else {
        forall i: nat | IsFirst(members, i, key) ensures Get(members, key) == Some(members[i].value) {
          assert IsFirst(rest, i - 1, key);
        }
        if i: nat :| IsFirst(rest, i, key) {
          assert IsFirst(members, i + 1, key);
        }
      }
    }
  }

  /** A field of an object leads to the first member of that key, wherever it stands; it is missing
      if and only if no member has the key, or the path below says the same of a field of that name. */
  lemma FieldLeadsToItsMember(members: seq<Member>, key: string, q: seq<PathSegment>)
    ensures forall i: nat | IsFirst(members, i, key) ::
      Traverse(Obj(members), [Field(key)] + q) == Traverse(members[i].value, q)
    ensures Traverse(Obj(members), [Field(key)] + q) == Failure(FieldNotFound(key))
      <==> (forall i | 0 <= i < |members| :: members[i].key != key)
           || exists i: nat :: IsFirst(members, i, key) && Traverse(members[i].value, q) == Failure(FieldNotFound(key))
  {
    GetIsFirst(members, key);
    assert ([Field(key)] + q)[1..] == q;
    hide Get;
  }

  /** An index leads to the item at that place, and nowhere else. */
  lemma IndexLeadsToItsItem(items: seq<Value>, i: nat, q: seq<PathSegment>)
    ensures i < |items| ==> Traverse(Arr(items), [Index(i)] + q) == Traverse(items[i], q)
    ensures i >= |items| ==> Traverse(Arr(items), [Index(i)] + q) == Failure(OutOfBounds(i))
  {
    assert ([Index(i)] + q)[1..] == q;
  }

  /** A segment of the wrong kind for its value fails with the error of that kind. */
  lemma WrongKindFails(value: Value, name: string, i: nat, q: seq<PathSegment>)
    ensures !value.Obj? && !(value.Arr? && name == "length") ==>
      Traverse(value, [Field(name)] + q) == Failure(NotAnObject(name))
    ensures !value.Arr? ==> Traverse(value, [Index(i)] + q) == Failure(NotAnArray)
    ensures !value.Arr? ==> Traverse(value, [Wildcard] + q) == Failure(WildcardOnNonArray)
  {
  }

  // Texts

  /** A placeholder in the middle of a string becomes the text of what it refers to: a string as it
      is, null as that word, anything else as it is printed. */
  lemma OnePlaceholderText(x: string, inner: string, y: string, v: Value, text: string, results: Results, show: Value -> string)
    requires I.Calm(x) && I.Calm(y) && I.IsReference(inner) && I.Tame(text)
    requires ResolveRef(I.Trim(inner), results) == Success(v) && !IsSingle(I.Trim(x + I.Full(inner) + y))
    requires (v.Str? ==> text == v.s) && (v.Null? ==> text == "null") && (!v.Str? && !v.Null? ==> text == show(v))
    ensures ResolveString(x + I.Full(inner) + y, results, show) == Success(Str(x + text + y))
  {
    hide *;
    var template := [I.Literal(x), I.Hole(inner), I.Literal(y)];
    var fill := Filling(results, show);
    FillsWith(inner, v, text, results, show);
    PlainOfThree(x, inner, y);
    TextOfThree(x, inner, y, fill);
    I.CapturesOfText(template);
    InterpolationIsSimultaneous(template, results, show);
    I.SubstituteOfText(template, fill);
  }

  lemma FillsWith(inner: string, v: Value, text: string, results: Results, show: Value -> string)
    requires ResolveRef(I.Trim(inner), results) == Success(v)
    requires (v.Str? ==> text == v.s) && (v.Null? ==> text == "null") && (!v.Str? && !v.Null? ==> text == show(v))
    ensures Filling(results, show)(inner) == text && AllResolve([inner], results)
  {
    hide ResolveRef, I.Trim;
    FillingOf(inner, results, show);
  }

  lemma PlainOfThree(x: string, inner: string, y: string)
    requires I.Calm(x) && I.Calm(y) && I.IsReference(inner)
    ensures I.Plain([I.Literal(x), I.Hole(inner), I.Literal(y)])
  {
  }

  lemma TextOfThree(x: string, inner: string, y: string, fill: string -> string)
    ensures var t := [I.Literal(x), I.Hole(inner), I.Literal(y)];
      I.Text(t) == x + I.Full(inner) + y && I.Holes(t) == [inner] && I.FillEach(t, fill) == x + fill(inner) + y
  {
    var t := [I.Literal(x), I.Hole(inner), I.Literal(y)];
    var t1, t2 := [I.Hole(inner), I.Literal(y)], [I.Literal(y)];
    assert t[1..] == t1 && t1[1..] == t2 && t2[1..] == [];
    assert I.Text(t2) == y + "" == y;
    assert x + (I.Full(inner) + y) == x + I.Full(inner) + y;
    assert I.Holes(t2) == [] + [] == [];
    assert I.Holes(t1) == [inner] + [] == [inner];
    assert I.Holes(t) == [] + [inner] == [inner];
    assert I.FillEach(t2, fill) == y + "" == y;
    assert x + (fill(inner) + y) == x + fill(inner) + y;
  }

  // References

  /** A printed reference, as the only text of a string, reads its path in the result of its step;
      without that step it names the step it misses. */
  lemma PrintedReferenceReads(step: string, path: seq<PathSegment>, results: Results, show: Value -> string)
    requires WellFormed(step, path)
    requires var text := Render(step, path);
      I.Trim(text) == text && !I.Contains(text, "{{") && !I.Contains(text, "}}")
    ensures ResolveString(I.Full(Render(step, path)), results, show)
         == if step in results then Traverse(results[step], path) else Failure(StepNotFound(step))
  {
    hide Render, Traverse, I.Trim, I.Contains, I.Full, ResolveString;
    var text := Render(step, path);
    ParseUndoesRender(step, path);
    SingleReferenceKeepsType("", text, "", results, show);
    assert "" + I.Full(text) + "" == I.Full(text);
  }
}
