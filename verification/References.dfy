/** The reference language `step.field[0].other[*]`: parsing and printing. */
module References {
  import opened Wrappers

  /** Indices are machine words. */
  const USIZE_LIMIT: nat := 0x1_0000_0000_0000_0000

  datatype PathSegment = Field(name: string) | Index(i: nat) | Wildcard

  datatype RefError =
    | EmptyReference
    | EmptyStepName
    | EmptyFieldName
    | UnclosedBracket
    | InvalidIndex(text: string)
    | UnexpectedCharacter
    | StepNotFound(step: string)
    | FieldNotFound(field: string)
    | NotAnObject(field: string)
    | OutOfBounds(index: nat)
    | NotAnArray
    | WildcardOnNonArray

  predicate IsDelimiter(c: char) {
    c == '.' || c == '['
  }

  /** The position of the first delimiter, or the length of the text. */
  function NameEnd(s: string): (n: nat)
    ensures n <= |s| && (forall i | 0 <= i < n :: !IsDelimiter(s[i])) && (n < |s| ==> IsDelimiter(s[n]))
  {
    if s == "" || IsDelimiter(s[0]) then 0 else 1 + NameEnd(s[1..])
  }

  /** The position of the first closing bracket, or the length of the text. */
  function BracketEnd(s: string): (n: nat)
    ensures n <= |s| && (forall i | 0 <= i < n :: s[i] != ']') && (n < |s| ==> s[n] == ']')
  {
    if s == "" || s[0] == ']' then 0 else 1 + BracketEnd(s[1..])
  }

  // Numbers

  predicate IsDigit(c: char) {
    '0' <= c <= '9'
  }

  function Decimal(digits: string): nat
    requires forall c | c in digits :: IsDigit(c)
  {
    if digits == "" then 0
    else
      assert IsDigit(digits[|digits| - 1]);
      10 * Decimal(digits[..|digits| - 1]) + (digits[|digits| - 1] as int - '0' as int)
  }

  /** An unsigned machine word in decimal; one leading plus sign is accepted. */
  function ParseUsize(text: string): Option<nat> {
    var digits := if text != "" && text[0] == '+' then text[1..] else text;
    if digits == "" || exists c | c in digits :: !IsDigit(c) then None
    else if Decimal(digits) < USIZE_LIMIT then Some(Decimal(digits))
    else None
  }

  function Print(n: nat): (digits: string)
    ensures digits != "" && forall c | c in digits :: IsDigit(c)
    ensures Decimal(digits) == n
  {
    var last := ('0' as int + n % 10) as char;
    if n < 10 then
      assert [last][..0] == "";
      [last]
    else
      var digits := Print(n / 10) + [last];
      assert digits[..|digits| - 1] == Print(n / 10);
      digits
  }

  /** Digits are read from the most significant one on. */
  lemma DecimalByDigits(digits: string, c: char)
    requires (forall d | d in digits :: IsDigit(d)) && '0' <= c <= '9'
    ensures Decimal(digits + [c]) == 10 * Decimal(digits) + (c as int - '0' as int) && Decimal("") == 0
  {
    assert (digits + [c])[..|digits|] == digits;
  }

  /** An index is a number in plain digits, with at most one plus sign before it, and fits a word. */
  lemma ParsedNumber(digits: string)
    ensures digits != "" && (forall c | c in digits :: '0' <= c <= '9') ==>
      && ParseUsize("+" + digits) == ParseUsize(digits)
      && ParseUsize(digits) == if Decimal(digits) < 18446744073709551616 then Some(Decimal(digits)) else None
    ensures digits == "" || (exists c | c in digits :: !IsDigit(c)) ==> ParseUsize("+" + digits) == None
    ensures (digits == "" || digits[0] != '+') && (digits == "" || exists c | c in digits :: !IsDigit(c)) ==>
      ParseUsize(digits) == None
  {
    assert ("+" + digits)[1..] == digits;
    if digits != "" && digits[0] == '+' {
      assert digits[0] in digits;
    }
  }

  // Parsing

  function Then(segment: PathSegment, rest: Result<seq<PathSegment>, RefError>): Result<seq<PathSegment>, RefError> {
    match rest
    case Failure(e) => Failure(e)
    case Success(segments) => Success([segment] + segments)
  }

  function ParseIndex(inside: string): Result<PathSegment, RefError> {
    if inside == "*" then Success(Wildcard)
    else
      match ParseUsize(inside)
      case None => Failure(InvalidIndex(inside))
      case Some(i) => Success(Index(i))
  }

  /** What the text after the step name means. */
  function ParseSegments(rest: string): Result<seq<PathSegment>, RefError>
    decreases |rest|
  {
    if rest == "" then Success([])
    else if rest[0] == '.' then
      var n := NameEnd(rest[1..]);
      if n == 0 then Failure(EmptyFieldName)
      else Then(Field(rest[1..1 + n]), ParseSegments(rest[1 + n..]))
    else if rest[0] == '[' then
      var n := BracketEnd(rest);
      if n == |rest| then Failure(UnclosedBracket)
      else
        match ParseIndex(rest[1..n])
        case Failure(e) => Failure(e)
        case Success(segment) => Then(segment, ParseSegments(rest[n + 1..]))
    else Failure(UnexpectedCharacter)
  }

  function Parse(reference: string): Result<(string, seq<PathSegment>), RefError> {
    if reference == "" then Failure(EmptyReference)
    else
      var n := NameEnd(reference);
      if n == 0 then Failure(EmptyStepName)
      else
        match ParseSegments(reference[n..])
        case Failure(e) => Failure(e)
        case Success(segments) => Success((reference[..n], segments))
  }

  function ThenAll(segments: seq<PathSegment>, rest: Result<seq<PathSegment>, RefError>): Result<seq<PathSegment>, RefError> {
    match rest
    case Failure(e) => Failure(e)
    case Success(more) => Success(segments + more)
  }

  method ParseReference(reference: string) returns (r: Result<(string, seq<PathSegment>), RefError>)
    ensures r == Parse(reference)
  {
    if reference == "" {
      return Failure(EmptyReference);
    }
    var stepEnd := NameEnd(reference);
    if stepEnd == 0 {
      return Failure(EmptyStepName);
    }
    hide NameEnd, BracketEnd, ParseIndex, Then, IsDelimiter, ParseUsize, Decimal;
    var segments: seq<PathSegment> := [];
    var rest := reference[stepEnd..];
    ThenAllNone(ParseSegments(rest));
    while rest != ""
      invariant ThenAll(segments, ParseSegments(rest)) == ParseSegments(reference[stepEnd..])
      decreases |rest|
    {
      if rest[0] == '.' {
        var fieldEnd := NameEnd(rest[1..]);
        if fieldEnd == 0 {
          return Failure(EmptyFieldName);
        }
        ThenAllAppends(segments, Field(rest[1..1 + fieldEnd]), ParseSegments(rest[1 + fieldEnd..]));
        segments := segments + [Field(rest[1..1 + fieldEnd])];
        rest := rest[1 + fieldEnd..];
      } else if rest[0] == '[' {
        var bracketEnd := BracketEnd(rest);
        if bracketEnd == |rest| {
          return Failure(UnclosedBracket);
        }
        var segment := ParseIndex(rest[1..bracketEnd]);
        if segment.Failure? {
          return Failure(segment.error);
        }
        ThenAllAppends(segments, segment.value, ParseSegments(rest[bracketEnd + 1..]));
        segments := segments + [segment.value];
        rest := rest[bracketEnd + 1..];
      } else {
        return Failure(UnexpectedCharacter);
      }
    }
    assert segments + [] == segments;
    return Success((reference[..stepEnd], segments));
  }

  lemma ThenAllNone(rest: Result<seq<PathSegment>, RefError>)
    ensures ThenAll([], rest) == rest
  {
    if rest.Success? {
      assert [] + rest.value == rest.value;
    }
  }

  lemma ThenAllAppends(segments: seq<PathSegment>, segment: PathSegment, rest: Result<seq<PathSegment>, RefError>)
    ensures ThenAll(segments + [segment], rest) == ThenAll(segments, Then(segment, rest))
  {
    if rest.Success? {
      assert segments + [segment] + rest.value == segments + ([segment] + rest.value);
    }
  }

  // Printing

  function RenderSegment(segment: PathSegment): string {
    match segment
    case Field(name) => "." + name
    case Index(i) => "[" + Print(i) + "]"
    case Wildcard => "[*]"
  }

  function RenderSegments(segments: seq<PathSegment>): string {
    if segments == [] then "" else RenderSegment(segments[0]) + RenderSegments(segments[1..])
  }

  function Render(step: string, segments: seq<PathSegment>): string {
    step + RenderSegments(segments)
  }

  predicate IsName(name: string) {
    name != "" && forall c | c in name :: !IsDelimiter(c)
  }

  predicate Printable(segment: PathSegment) {
    match segment
    case Field(name) => IsName(name)
    case Index(i) => i < USIZE_LIMIT
    case Wildcard => true
  }

  predicate WellFormed(step: string, segments: seq<PathSegment>) {
    IsName(step) && forall segment | segment in segments :: Printable(segment)
  }

  lemma {:induction false} NameEndOf(name: string, rest: string)
    requires forall c | c in name :: !IsDelimiter(c)
    requires rest == "" || IsDelimiter(rest[0])
    ensures NameEnd(name + rest) == |name|
  {
    if name == "" {
      assert name + rest == rest;
    } else {
      NameEndOf(name[1..], rest);
      assert (name + rest)[1..] == name[1..] + rest;
    }
  }

  lemma {:induction false} BracketEndOf(inside: string, rest: string)
    requires ']' !in inside
    ensures BracketEnd(inside + ("]" + rest)) == |inside|
  {
    if inside != "" {
      BracketEndOf(inside[1..], rest);
      assert (inside + ("]" + rest))[1..] == inside[1..] + ("]" + rest);
    }
  }

  lemma RenderStartsWithDelimiter(segments: seq<PathSegment>)
    ensures RenderSegments(segments) == "" || IsDelimiter(RenderSegments(segments)[0])
  {
  }

  lemma PrintedIndexParses(i: nat)
    requires i < USIZE_LIMIT
    ensures ParseIndex(Print(i)) == Success(Index(i)) && ']' !in Print(i)
  {
    var digits := Print(i);
    assert IsDigit(digits[0]) && digits[0] in digits;
    assert digits[0] != '*' && digits[0] != '+';
  }

  lemma BracketParses(inside: string, segment: PathSegment, rest: string)
    requires ParseIndex(inside) == Success(segment) && ']' !in inside
    ensures ParseSegments("[" + inside + "]" + rest) == Then(segment, ParseSegments(rest))
  {
    var text := "[" + inside + "]" + rest;
    assert text == ("[" + inside) + ("]" + rest);
    BracketEndOf("[" + inside, rest);
    assert text[1..|inside| + 1] == inside && text[|inside| + 2..] == rest;
  }

  lemma FieldParses(name: string, rest: string)
    requires IsName(name) && (rest == "" || IsDelimiter(rest[0]))
    ensures ParseSegments("." + name + rest) == Then(Field(name), ParseSegments(rest))
  {
    var text := "." + name + rest;
    assert text[1..] == name + rest;
    NameEndOf(name, rest);
    assert text[1..1 + |name|] == name && text[1 + |name|..] == rest;
  }

  lemma {:induction false} SegmentsRoundTrip(segments: seq<PathSegment>)
    requires forall segment | segment in segments :: Printable(segment)
    ensures ParseSegments(RenderSegments(segments)) == Success(segments)
  {
    if segments != [] {
      var segment, rest := segments[0], RenderSegments(segments[1..]);
      SegmentsRoundTrip(segments[1..]);
      RenderStartsWithDelimiter(segments[1..]);
      assert Printable(segment) && segments == [segment] + segments[1..];
      assert RenderSegments(segments) == RenderSegment(segment) + rest;
      match segment {
        case Field(name) => FieldParses(name, rest);
        case Index(i) =>
          PrintedIndexParses(i);
          BracketParses(Print(i), segment, rest);
        case Wildcard =>
          assert "[" + "*" + "]" == "[*]";
          BracketParses("*", segment, rest);
      }
    }
  }

  lemma {:induction false} ParsedSegmentsPrintable(rest: string)
    ensures ParseSegments(rest).Success? ==> forall segment | segment in ParseSegments(rest).value :: Printable(segment)
    decreases |rest|
  {
    if rest != "" && ParseSegments(rest).Success? {
      if rest[0] == '.' {
        ParsedSegmentsPrintable(rest[1 + NameEnd(rest[1..])..]);
      } else {
        ParsedSegmentsPrintable(rest[BracketEnd(rest) + 1..]);
      }
    }
  }

  /** What each malformed reference is rejected for. */
  lemma ReferenceErrors(step: string, rest: string)
    requires IsName(step)
    ensures Parse("") == Failure(EmptyReference)
    ensures Parse("." + rest) == Parse("[" + rest) == Failure(EmptyStepName)
    ensures rest == "" || IsDelimiter(rest[0]) ==> Parse(step + ("." + rest)) == Failure(EmptyFieldName)
    ensures ']' !in rest ==> Parse(step + ("[" + rest)) == Failure(UnclosedBracket)
  {
    NameEndOf(step, "." + rest);
    NameEndOf(step, "[" + rest);
    assert (step + ("." + rest))[|step|..] == "." + rest && ("." + rest)[1..] == rest;
    assert (step + ("[" + rest))[|step|..] == "[" + rest;
    if ']' !in rest {
      var bracket := "[" + rest;
      assert forall i | 0 <= i < |bracket| :: bracket[i] == '[' || bracket[i] in rest;
      assert BracketEnd(bracket) == |bracket|;
    }
  }

  lemma BracketErrors(step: string, inside: string, rest: string)
    requires IsName(step) && ']' !in inside
    ensures inside != "*" && ParseUsize(inside).None? ==>
      Parse(step + ("[" + inside + "]" + rest)) == Failure(InvalidIndex(inside))
    ensures ParseIndex(inside).Success? && rest != "" && !IsDelimiter(rest[0]) ==>
      Parse(step + ("[" + inside + "]" + rest)) == Failure(UnexpectedCharacter)
  {
    hide ParseUsize;
    var text := "[" + inside + "]" + rest;
    NameEndOf(step, text);
    assert (step + text)[|step|..] == text;
    assert text == ("[" + inside) + ("]" + rest);
    BracketEndOf("[" + inside, rest);
    assert text[1..|inside| + 1] == inside && text[|inside| + 2..] == rest;
    if ParseIndex(inside).Success? && rest != "" && !IsDelimiter(rest[0]) {
      BracketParses(inside, ParseIndex(inside).value, rest);
      assert ParseSegments(rest) == Failure(UnexpectedCharacter);
    }
  }

  /** Printing a reference and parsing it gives it back exactly when it is well formed; and
      whatever parses is well formed. */
  lemma ParseUndoesRender(step: string, segments: seq<PathSegment>)
    ensures Parse(Render(step, segments)) == Success((step, segments)) <==> WellFormed(step, segments)
  {
    if WellFormed(step, segments) {
      RenderStartsWithDelimiter(segments);
      NameEndOf(step, RenderSegments(segments));
      SegmentsRoundTrip(segments);
      assert Render(step, segments)[|step|..] == RenderSegments(segments);
    }
    ParsedIsWellFormed(Render(step, segments));
  }

  lemma ParsedIsWellFormed(reference: string)
    ensures Parse(reference).Success? ==> WellFormed(Parse(reference).value.0, Parse(reference).value.1)
  {
    if reference != "" {
      ParsedSegmentsPrintable(reference[NameEnd(reference)..]);
    }
  }
}
