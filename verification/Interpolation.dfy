/** Strings with `{{reference}}` placeholders: finding the placeholders and filling them in. */
module Interpolation {
  import opened Wrappers

  /** Unicode white space, as string trimming understands it. */
  predicate IsWhitespace(c: char) {
    || '\U{9}' <= c <= '\U{D}' || c == ' ' || c == '\U{85}' || c == '\U{A0}' || c == '\U{1680}'
    || '\U{2000}' <= c <= '\U{200A}' || c == '\U{2028}' || c == '\U{2029}' || c == '\U{202F}'
    || c == '\U{205F}' || c == '\U{3000}'
  }

  function TrimStart(s: string): string {
    if s != "" && IsWhitespace(s[0]) then TrimStart(s[1..]) else s
  }

  function TrimEnd(s: string): string {
    if s != "" && IsWhitespace(s[|s| - 1]) then TrimEnd(s[..|s| - 1]) else s
  }

  function Trim(s: string): string {
    TrimEnd(TrimStart(s))
  }

  predicate StartsWith(s: string, prefix: string) {
    |prefix| <= |s| && s[..|prefix|] == prefix
  }

  predicate EndsWith(s: string, suffix: string) {
    |suffix| <= |s| && s[|s| - |suffix|..] == suffix
  }

  predicate Contains(s: string, part: string) {
    exists i | 0 <= i <= |s| :: StartsWith(s[i..], part)
  }

  /** Every occurrence of a pattern, found from left to right, replaced by another text. */
  function Replace(s: string, pattern: string, with: string): string
    requires pattern != ""
    decreases |s|
  {
    if s == "" then ""
    else if StartsWith(s, pattern) then with + Replace(s[|pattern|..], pattern, with)
    else [s[0]] + Replace(s[1..], pattern, with)
  }

  // Placeholders: two opening braces, one or more characters other than a closing brace, and two
  // closing braces, searched for from left to right without overlaps.

  /** The length of the leading run of characters that are not closing braces. */
  function RunLength(s: string): (n: nat)
    ensures n <= |s| && (forall i | 0 <= i < n :: s[i] != '}') && (n < |s| ==> s[n] == '}')
  {
    if s == "" || s[0] == '}' then 0 else 1 + RunLength(s[1..])
  }

  /** The inner text of a placeholder that starts the string, if one does. */
  function Placeholder(s: string): (inner: Option<string>)
    ensures inner.Some? ==>
      inner.value != "" && '}' !in inner.value && StartsWith(s, Full(inner.value)) && |s| >= |inner.value| + 4
  {
    if !StartsWith(s, "{{") then None
    else
      var n := RunLength(s[2..]);
      if n == 0 || !StartsWith(s[2 + n..], "}}") then None
      else
        var inner := s[2..2 + n];
        assert s[..n + 4] == s[..2] + s[2..][..n] + s[2 + n..][..2];
        Some(inner)
  }

  function Full(inner: string): (s: string)
    ensures |s| == |inner| + 4
  {
    "{{" + inner + "}}"
  }

  /** The inner texts of all placeholders. */
  function Captures(s: string): seq<string>
    decreases |s|
  {
    if s == "" then []
    else
      match Placeholder(s)
      case Some(inner) => [inner] + Captures(s[|inner| + 4..])
      case None => Captures(s[1..])
  }

  /** The reference: a single pass that fills each placeholder where it stands and looks at
      nothing it has filled in. */
  function Substitute(s: string, fill: string -> string): string
    decreases |s|
  {
    if s == "" then ""
    else
      match Placeholder(s)
      case Some(inner) => fill(inner) + Substitute(s[|inner| + 4..], fill)
      case None => [s[0]] + Substitute(s[1..], fill)
  }

  /** What the engine does: one whole-string replacement for each placeholder found at the start. */
  function ReplaceAll(s: string, inners: seq<string>, fill: string -> string): string
    decreases inners
  {
    if inners == [] then s else ReplaceAll(Replace(s, Full(inners[0]), fill(inners[0])), inners[1..], fill)
  }

  // Templates

  datatype Piece = Literal(text: string) | Hole(inner: string)

  function Written(piece: Piece): string {
    match piece
    case Literal(text) => text
    case Hole(inner) => Full(inner)
  }

  function Text(template: seq<Piece>): string {
    if template == [] then "" else Written(template[0]) + Text(template[1..])
  }

  /** Every opening brace is followed by something that is not one: the text has no two of them in
      a row and does not end in one, as printed JSON does not. */
  predicate Calm(text: string) {
    forall i | 0 <= i < |text| && text[i] == '{' :: i + 1 < |text| && text[i + 1] != '{'
  }

  /** Calm text outside the placeholders, no brace inside them. */
  predicate Plain(template: seq<Piece>) {
    forall piece | piece in template :: PlainPiece(piece)
  }

  predicate PlainPiece(piece: Piece) {
    match piece
    case Literal(text) => Calm(text)
    case Hole(inner) => IsReference(inner)
  }

  /** The length of the leading run of characters that are not braces. */
  function BraceFree(s: string): (n: nat)
    ensures n <= |s| && (forall i | 0 <= i < n :: s[i] != '{' && s[i] != '}') && (n < |s| ==> s[n] == '{' || s[n] == '}')
  {
    if s == "" || s[0] == '{' || s[0] == '}' then 0 else 1 + BraceFree(s[1..])
  }

  /** A placeholder begins here and is complete, or can still be completed by what follows. */
  predicate Open(s: string) {
    || s == "{"
    || (StartsWith(s, "{{")
        && var n := BraceFree(s[2..]);
        var t := s[2 + n..];
        t == "" || (n > 0 && (t == "}" || StartsWith(t, "}}"))))
  }

  /** No placeholder begins anywhere in the text. */
  predicate Tame(text: string) {
    forall i | 0 <= i < |text| :: !Open(text[i..])
  }

  /** Tame text outside the placeholders, no brace inside them. */
  predicate Settled(template: seq<Piece>) {
    forall piece | piece in template :: SettledPiece(piece)
  }

  predicate SettledPiece(piece: Piece) {
    match piece
    case Literal(text) => Tame(text)
    case Hole(inner) => IsReference(inner)
  }

  predicate IsReference(inner: string) {
    inner != "" && '{' !in inner && '}' !in inner
  }

  function Holes(template: seq<Piece>): seq<string> {
    if template == [] then []
    else (if template[0].Hole? then [template[0].inner] else []) + Holes(template[1..])
  }

  /** Fills the holes with one inner text. */
  function FillOne(template: seq<Piece>, inner: string, with: string): seq<Piece> {
    if template == [] then []
    else [if template[0] == Hole(inner) then Literal(with) else template[0]] + FillOne(template[1..], inner, with)
  }

  function FillEach(template: seq<Piece>, fill: string -> string): string {
    if template == [] then ""
    else
      (match template[0] case Literal(text) => text case Hole(inner) => fill(inner)) + FillEach(template[1..], fill)
  }

  lemma PlainTail(template: seq<Piece>)
    requires template != [] && Plain(template)
    ensures Plain(template[1..]) && PlainPiece(template[0])
  {
  }

  lemma {:induction false} RunLengthOf(run: string, rest: string)
    requires '}' !in run && (rest == "" || rest[0] == '}')
    ensures RunLength(run + rest) == |run|
  {
    if run == "" {
      assert run + rest == rest;
    } else {
      RunLengthOf(run[1..], rest);
      assert (run + rest)[1..] == run[1..] + rest;
    }
  }

  lemma PlaceholderOf(inner: string, rest: string)
    requires inner != "" && '}' !in inner
    ensures Placeholder(Full(inner) + rest) == Some(inner)
    ensures (Full(inner) + rest)[|inner| + 4..] == rest
  {
    var s := Full(inner) + rest;
    assert s[..2] == "{{" && s[2..] == inner + ("}}" + rest);
    RunLengthOf(inner, "}}" + rest);
    assert s[2 + |inner|..] == "}}" + rest && ("}}" + rest)[..2] == "}}";
    assert s[2..2 + |inner|] == inner;
  }

  lemma TwoBraces(s: string)
    ensures StartsWith(s, "{{") <==> |s| >= 2 && s[0] == '{' && s[1] == '{'
  {
    if |s| >= 2 {
      assert s[..2] == [s[0], s[1]];
    }
  }

  lemma CalmStart(text: string, rest: string)
    requires text != "" && Calm(text)
    ensures !StartsWith(text + rest, "{{") && Calm(text[1..]) && (text + rest)[1..] == text[1..] + rest
  {
    var s := text + rest;
    TwoBraces(s);
    assert forall i | 0 <= i < |text| - 1 :: text[1..][i] == text[i + 1];
  }

  lemma {:induction false} CapturesAfterLiteral(text: string, rest: string)
    requires Calm(text)
    ensures Captures(text + rest) == Captures(rest)
  {
    hide Calm;
    if text == "" {
      assert text + rest == rest;
    } else {
      CalmStart(text, rest);
      CapturesAfterLiteral(text[1..], rest);
    }
  }

  /** A placeholder starts a string exactly if the string begins with two opening braces, the inner
      text, which is not empty and has no closing brace, and two closing braces. */
  lemma PlaceholderExactly(s: string, inner: string)
    ensures Placeholder(s) == Some(inner) <==> inner != "" && '}' !in inner && StartsWith(s, Full(inner))
  {
    if inner != "" && '}' !in inner && StartsWith(s, Full(inner)) {
      var rest := s[|inner| + 4..];
      assert s == Full(inner) + rest;
      PlaceholderOf(inner, rest);
    }
  }

  /** The search passes over whatever starts no placeholder, and takes the next one whole. */
  lemma {:induction false} CapturesSkip(skipped: string, rest: string)
    requires forall i | 0 <= i < |skipped| :: Placeholder(skipped[i..] + rest).None?
    ensures Captures(skipped + rest) == Captures(rest)
    decreases |skipped|
  {
    hide Placeholder;
    if skipped == "" {
      assert skipped + rest == rest;
    } else {
      assert skipped[0..] == skipped;
      assert (skipped + rest)[1..] == skipped[1..] + rest;
      forall i | 0 <= i < |skipped| - 1 ensures Placeholder(skipped[1..][i..] + rest).None? {
        assert skipped[1..][i..] == skipped[i + 1..];
      }
      CapturesSkip(skipped[1..], rest);
    }
  }

  lemma CapturesTake(inner: string, rest: string)
    requires inner != "" && '}' !in inner
    ensures Captures(Full(inner) + rest) == [inner] + Captures(rest) && Captures("") == []
  {
    hide Placeholder;
    PlaceholderOf(inner, rest);
  }

  lemma {:induction false} CapturesOfText(template: seq<Piece>)
    requires Plain(template)
    ensures Captures(Text(template)) == Holes(template)
  {
    if template != [] {
      PlainTail(template);
      CapturesOfText(template[1..]);
      var rest := Text(template[1..]);
      match template[0] {
        case Literal(text) => CapturesAfterLiteral(text, rest);
        case Hole(inner) =>
          assert Hole(inner) in template;
          PlaceholderOf(inner, rest);
      }
    }
  }

  lemma SubstituteSkips(s: string, fill: string -> string)
    requires s != "" && !StartsWith(s, "{{")
    ensures Substitute(s, fill) == [s[0]] + Substitute(s[1..], fill)
  {
  }

  lemma {:induction false} SubstituteAfterLiteral(text: string, rest: string, fill: string -> string)
    requires Calm(text)
    ensures Substitute(text + rest, fill) == text + Substitute(rest, fill)
  {
    hide Substitute, Calm;
    if text == "" {
      assert text + rest == rest;
    } else {
      CalmStart(text, rest);
      SubstituteSkips(text + rest, fill);
      SubstituteAfterLiteral(text[1..], rest, fill);
      assert text == [text[0]] + text[1..];
    }
  }

  lemma {:induction false} SubstituteOfText(template: seq<Piece>, fill: string -> string)
    requires Plain(template)
    ensures Substitute(Text(template), fill) == FillEach(template, fill)
  {
    if template != [] {
      PlainTail(template);
      SubstituteOfText(template[1..], fill);
      var rest := Text(template[1..]);
      match template[0] {
        case Literal(text) => SubstituteAfterLiteral(text, rest, fill);
        case Hole(inner) =>
          assert Hole(inner) in template;
          PlaceholderOf(inner, rest);
      }
    }
  }

  // One whole-string replacement touches exactly the holes with its inner text.

  lemma {:induction false} ReplaceSkips(skipped: string, rest: string, pattern: string, with: string)
    requires pattern != ""
    requires forall i | 0 <= i < |skipped| :: !StartsWith(skipped[i..] + rest, pattern)
    ensures Replace(skipped + rest, pattern, with) == skipped + Replace(rest, pattern, with)
    decreases |skipped|
  {
    if skipped == "" {
      assert skipped + rest == rest;
    } else {
      var s := skipped + rest;
      assert skipped[0..] == skipped;
      assert s[1..] == skipped[1..] + rest;
      forall i | 0 <= i < |skipped| - 1 ensures !StartsWith(skipped[1..][i..] + rest, pattern) {
        assert skipped[1..][i..] == skipped[i + 1..];
      }
      ReplaceSkips(skipped[1..], rest, pattern, with);
      assert skipped == [skipped[0]] + skipped[1..];
    }
  }

  /** A placeholder starts only with two opening braces. */
  lemma FullNeedsBraces(s: string, inner: string)
    ensures StartsWith(s, Full(inner)) ==> |s| >= 2 && s[0] == '{' && s[1] == '{'
  {
    assert Full(inner)[0] == '{' && Full(inner)[1] == '{';
  }

  /** The placeholder that starts a string is determined by the string. */
  lemma SamePlaceholder(inner: string, other: string, rest: string)
    requires '}' !in inner && '}' !in other
    requires StartsWith(Full(other) + rest, Full(inner))
    ensures inner == other
  {
    var s := Full(other) + rest;
    var n := |inner| + 4;
    assert s == Full(inner) + s[n..];
    assert s[2..] == inner + ("}}" + s[n..]) && s[2..] == other + ("}}" + rest);
    RunLengthOf(inner, "}}" + s[n..]);
    RunLengthOf(other, "}}" + rest);
    assert inner == s[2..][..|inner|] && other == s[2..][..|other|];
  }

  /** No placeholder starts strictly inside another one. */
  lemma NotInside(inner: string, other: string, rest: string, i: nat)
    requires other != "" && '{' !in other && 1 <= i < |Full(other)|
    ensures !StartsWith(Full(other)[i..] + rest, Full(inner))
  {
    FullNeedsBraces(Full(other)[i..] + rest, inner);
    assert forall k | 0 <= k < |other| :: Full(other)[k + 2] == other[k] && other[k] in other;
  }

  /** Wherever a whole placeholder begins in a text, that text is open there. */
  lemma WhereAPlaceholderBegins(s: string, rest: string, inner: string)
    requires s != "" && IsReference(inner) && StartsWith(s + rest, Full(inner))
    ensures Open(s)
  {
    var whole, full := s + rest, Full(inner);
    assert forall k | 0 <= k < |full| :: whole[k] == whole[..|full|][k] == full[k];
    assert full[0] == '{' && full[1] == '{';
    assert forall k | 0 <= k < |inner| :: full[2 + k] == inner[k] && inner[k] in inner;
    assert full[2 + |inner|] == '}' && full[3 + |inner|] == '}';
    if |s| == 1 {
      assert s == [s[0]] == "{";
    } else {
      TwoBraces(s);
      var n := BraceFree(s[2..]);
      var t := s[2 + n..];
      assert forall k | 0 <= k < |s| - 2 :: s[2..][k] == s[2 + k] == whole[2 + k];
      if t != "" {
        assert n == |inner|;
        if |t| == 1 {
          assert t == [t[0]] == "}";
        } else {
          assert t[0] == whole[2 + n] == '}' && t[1] == whole[3 + n] == '}';
          assert t[..2] == [t[0], t[1]] == "}}";
        }
      }
    }
  }

  lemma NotInLiteral(inner: string, text: string, rest: string, i: nat)
    requires Tame(text) && IsReference(inner) && i < |text|
    ensures !StartsWith(text[i..] + rest, Full(inner))
  {
    if StartsWith(text[i..] + rest, Full(inner)) {
      WhereAPlaceholderBegins(text[i..], rest, inner);
    }
  }

  lemma CalmIsTame(text: string)
    requires Calm(text)
    ensures Tame(text)
  {
    forall i | 0 <= i < |text| ensures !Open(text[i..]) {
      TwoBraces(text[i..]);
      assert text[i..][0] == text[i];
      assert |text[i..]| >= 2 ==> text[i..][1] == text[i + 1];
    }
  }

  lemma PlainIsSettled(template: seq<Piece>)
    requires Plain(template)
    ensures Settled(template)
  {
    forall piece | piece in template ensures SettledPiece(piece) {
      if piece.Literal? {
        CalmIsTame(piece.text);
      }
    }
  }

  /** A placeholder begins nowhere in a piece, unless it is that piece. */
  lemma NotInPiece(inner: string, piece: Piece, rest: string, i: nat)
    requires SettledPiece(piece) && IsReference(inner) && piece != Hole(inner) && i < |Written(piece)|
    ensures !StartsWith(Written(piece)[i..] + rest, Full(inner))
  {
    match piece
    case Literal(text) => NotInLiteral(inner, text, rest, i);
    case Hole(other) =>
      hide Full;
      if i == 0 {
        assert Full(other)[0..] == Full(other);
        if StartsWith(Full(other) + rest, Full(inner)) {
          SamePlaceholder(inner, other, rest);
        }
      } else {
        NotInside(inner, other, rest, i);
      }
  }

  lemma {:induction false} ReplaceFillsOne(template: seq<Piece>, inner: string, with: string)
    requires Settled(template) && IsReference(inner)
    ensures Replace(Text(template), Full(inner), with) == Text(FillOne(template, inner, with))
  {
    hide IsReference, SettledPiece;
    if template != [] {
      var piece, rest := template[0], Text(template[1..]);
      SettledTail(template);
      ReplaceFillsOne(template[1..], inner, with);
      if piece == Hole(inner) {
        assert (Full(inner) + rest)[|Full(inner)|..] == rest;
        assert StartsWith(Full(inner) + rest, Full(inner));
      } else {
        forall i | 0 <= i < |Written(piece)| ensures !StartsWith(Written(piece)[i..] + rest, Full(inner)) {
          NotInPiece(inner, piece, rest, i);
        }
        hide Replace, Full;
        ReplaceSkips(Written(piece), rest, Full(inner), with);
      }
    }
  }

  lemma SettledTail(template: seq<Piece>)
    requires template != [] && Settled(template)
    ensures Settled(template[1..]) && SettledPiece(template[0])
  {
  }

  lemma {:induction false} FillOneStaysSettled(template: seq<Piece>, inner: string, with: string)
    requires Settled(template) && Tame(with)
    ensures Settled(FillOne(template, inner, with))
    ensures forall hole | Hole(hole) in FillOne(template, inner, with) :: hole != inner && Hole(hole) in template
  {
    if template != [] {
      FillOneStaysSettled(template[1..], inner, with);
      assert template == [template[0]] + template[1..];
    }
  }

  lemma {:induction false} FillEachAfterFillOne(template: seq<Piece>, inner: string, fill: string -> string)
    ensures FillEach(FillOne(template, inner, fill(inner)), fill) == FillEach(template, fill)
  {
    if template != [] {
      FillEachAfterFillOne(template[1..], inner, fill);
    }
  }

  lemma {:induction false} FillEachWithoutHoles(template: seq<Piece>, fill: string -> string)
    requires forall piece | piece in template :: piece.Literal?
    ensures FillEach(template, fill) == Text(template)
  {
    if template != [] {
      FillEachWithoutHoles(template[1..], fill);
    }
  }

  lemma {:induction false} ReplaceAllFills(template: seq<Piece>, inners: seq<string>, fill: string -> string)
    requires Settled(template)
    requires forall inner | inner in inners :: IsReference(inner) && Tame(fill(inner))
    requires forall inner | Hole(inner) in template :: inner in inners
    ensures ReplaceAll(Text(template), inners, fill) == FillEach(template, fill)
    decreases inners
  {
    if inners == [] {
      assert forall piece | piece in template :: piece.Hole? ==> piece == Hole(piece.inner);
      FillEachWithoutHoles(template, fill);
    } else {
      var inner := inners[0];
      assert inners == [inner] + inners[1..];
      var filled := FillOne(template, inner, fill(inner));
      ReplaceFillsOne(template, inner, fill(inner));
      FillOneStaysSettled(template, inner, fill(inner));
      ReplaceAllFills(filled, inners[1..], fill);
      FillEachAfterFillOne(template, inner, fill);
    }
  }

  lemma {:induction false} HolesAreHoles(template: seq<Piece>)
    ensures forall inner :: inner in Holes(template) <==> Hole(inner) in template
  {
    if template != [] {
      HolesAreHoles(template[1..]);
      assert template == [template[0]] + template[1..];
    }
  }

  /** Repeated whole-string replacement equals one simultaneous pass, for calm text around brace-free
      placeholders, when every filled-in text is tame. Placeholders may repeat, texts may be empty,
      and both may hold braces. */
  lemma ReplacementIsSimultaneous(template: seq<Piece>, fill: string -> string)
    requires Plain(template)
    requires forall inner | inner in Captures(Text(template)) :: Tame(fill(inner))
    ensures ReplaceAll(Text(template), Captures(Text(template)), fill) == Substitute(Text(template), fill)
  {
    hide Tame;
    CapturesOfText(template);
    HolesAreHoles(template);
    forall inner | inner in Holes(template) ensures IsReference(inner) {
      assert Hole(inner) in template && PlainPiece(Hole(inner));
    }
    PlainIsSettled(template);
    ReplaceAllFills(template, Holes(template), fill);
    SubstituteOfText(template, fill);
  }

  /** With a text that itself contains a later placeholder the two differ: that placeholder is
      filled in again, unless filling it in changes nothing. */
  lemma FilledTextIsFilledAgain(a: string, b: string, fill: string -> string)
    requires PlainPiece(Hole(a)) && PlainPiece(Hole(b)) && a != b
    requires fill(a) == Full(b)
    ensures var s := Full(a) + Full(b);
      && ReplaceAll(s, Captures(s), fill) == fill(b) + fill(b)
      && Substitute(s, fill) == Full(b) + fill(b)
  {
    hide Captures, Substitute, Replace, Text, Full, Holes, FillOne, FillEach;
    var t, u := [Hole(a), Hole(b)], [Hole(b), Hole(b)];
    OfTwo(Hole(a), Hole(b), a, fill);
    OfTwo(Literal(Full(b)), Hole(b), b, fill);
    OfTwo(Hole(b), Hole(b), b, fill);
    OfTwo(Literal(fill(b)), Literal(fill(b)), b, fill);
    CapturesOfText(t);
    SubstituteOfText(t, fill);
    PlainIsSettled(t);
    PlainIsSettled(u);
    ReplaceFillsOne(t, a, fill(a));
    ReplaceFillsOne(u, b, fill(b));
    assert [a, b][1..] == [b] && [b][1..] == [];
    assert ReplaceAll(Text(t), [a, b], fill) == ReplaceAll(Text(u), [b], fill);
  }

  lemma OfTwo(p: Piece, q: Piece, inner: string, fill: string -> string)
    ensures Text([p, q]) == Written(p) + Written(q)
    ensures Holes([p, q]) == (if p.Hole? then [p.inner] else []) + (if q.Hole? then [q.inner] else [])
    ensures FillOne([p, q], inner, fill(inner))
         == [if p == Hole(inner) then Literal(fill(inner)) else p, if q == Hole(inner) then Literal(fill(inner)) else q]
    ensures FillEach([p, q], fill)
         == (if p.Hole? then fill(p.inner) else p.text) + (if q.Hole? then fill(q.inner) else q.text)
  {
    assert [p, q][1..] == [q] && [q][1..] == [];
    assert Text([q]) == Written(q) + "" == Written(q);
    assert Holes([q]) == (if q.Hole? then [q.inner] else []) + Holes([]);
    assert FillOne([q], inner, fill(inner)) == [if q == Hole(inner) then Literal(fill(inner)) else q] + [];
    assert FillEach([q], fill) == (if q.Hole? then fill(q.inner) else q.text) + "";
  }

  // Trimming

  lemma {:induction false} TrimStartDrops(space: string, s: string)
    requires forall c | c in space :: IsWhitespace(c)
    requires s == "" || !IsWhitespace(s[0])
    ensures TrimStart(space + s) == s
  {
    if space == "" {
      assert space + s == s;
    } else {
      assert space[0] in space;
      assert (space + s)[1..] == space[1..] + s;
      TrimStartDrops(space[1..], s);
    }
  }

  lemma {:induction false} TrimEndDrops(s: string, space: string)
    requires forall c | c in space :: IsWhitespace(c)
    requires s == "" || !IsWhitespace(s[|s| - 1])
    ensures TrimEnd(s + space) == s
  {
    if space == "" {
      assert s + space == s;
    } else {
      var n := |space| - 1;
      assert space[n] in space;
      assert (s + space)[..|s| + n] == s + space[..n];
      TrimEndDrops(s, space[..n]);
    }
  }

  predicate Blank(s: string) {
    forall c | c in s :: IsWhitespace(c)
  }

  lemma {:induction false} TrimStartSplits(s: string) returns (space: string)
    ensures s == space + TrimStart(s) && forall c | c in space :: IsWhitespace(c)
    ensures TrimStart(s) == "" || !IsWhitespace(TrimStart(s)[0])
  {
    if s != "" && IsWhitespace(s[0]) {
      space := TrimStartSplits(s[1..]);
      space := [s[0]] + space;
    } else {
      space := "";
    }
  }

  lemma {:induction false} TrimEndSplits(s: string) returns (space: string)
    ensures s == TrimEnd(s) + space && forall c | c in space :: IsWhitespace(c)
  {
    if s != "" && IsWhitespace(s[|s| - 1]) {
      space := TrimEndSplits(s[..|s| - 1]);
      assert s == TrimEnd(s[..|s| - 1]) + (space + [s[|s| - 1]]);
      space := space + [s[|s| - 1]];
    } else {
      space := "";
    }
  }

  /** A string is its trimmed text between white space. */
  lemma TrimSplits(s: string) returns (before: string, after: string)
    ensures s == before + Trim(s) + after
    ensures (forall c | c in before :: IsWhitespace(c)) && forall c | c in after :: IsWhitespace(c)
  {
    before := TrimStartSplits(s);
    after := TrimEndSplits(TrimStart(s));
    assert s == before + (Trim(s) + after);
  }
}
