/** Which texts can be filled into placeholders without being looked at again. */
module TameTexts {
  import opened Interpolation

  /** Wherever the texts, or empty ones, are filled in, repeated whole-string replacement does what
      one simultaneous pass does. */
  ghost predicate Harmless(texts: set<string>) {
    forall template, fill: string -> string ::
      Plain(template) && (forall inner | inner in Captures(Text(template)) :: fill(inner) in texts || fill(inner) == "") ==>
        ReplaceAll(Text(template), Captures(Text(template)), fill) == Substitute(Text(template), fill)
  }

  // Removing a pattern shortens a text by all of its disjoint occurrences.

  lemma {:induction false} RemovalNeverLengthens(s: string, p: string)
    requires p != ""
    ensures |Replace(s, p, "")| <= |s|
    decreases |s|
  {
    if s != "" {
      RemovalNeverLengthens(if StartsWith(s, p) then s[|p|..] else s[1..], p);
    }
  }

  lemma {:induction false} RemovalAtOnePlace(s: string, p: string, j: nat)
    requires p != "" && j <= |s| && StartsWith(s[j..], p)
    ensures |Replace(s, p, "")| <= |s| - |p|
    decreases |s|
  {
    if StartsWith(s, p) {
      RemovalNeverLengthens(s[|p|..], p);
    } else {
      assert s[0..] == s;
      assert s[1..][j - 1..] == s[j..];
      RemovalAtOnePlace(s[1..], p, j - 1);
    }
  }

  lemma {:induction false} RemovalAtTwoPlaces(s: string, p: string, j: nat, k: nat)
    requires p != "" && j + |p| <= k <= |s| && StartsWith(s[j..], p) && StartsWith(s[k..], p)
    ensures |Replace(s, p, "")| <= |s| - 2 * |p|
    decreases |s|
  {
    if StartsWith(s, p) {
      assert s[|p|..][k - |p|..] == s[k..];
      RemovalAtOnePlace(s[|p|..], p, k - |p|);
    } else {
      assert s[0..] == s;
      assert s[1..][j - 1..] == s[j..] && s[1..][k - 1..] == s[k..];
      RemovalAtTwoPlaces(s[1..], p, j - 1, k - 1);
    }
  }

  // A text that is not tame

  /** An open text is continued by some calm text to one that begins with a whole placeholder. */
  lemma Completed(s: string) returns (y: string, b: string)
    requires Open(s)
    ensures Calm(y) && IsReference(b) && StartsWith(s + y, Full(b))
  {
    if s == "{" {
      y, b := "{b}}", "b";
      assert s + y == Full(b);
    } else {
      var run, t := OpenSplits(s);
      if t == "" {
        b := if run == "" then "b" else run;
        y := if run == "" then "b}}" else "}}";
        assert s + y == Full(b);
      } else if t == "}" {
        y, b := "}", run;
        assert s + y == Full(b);
      } else {
        y, b := "", run;
        assert s + y == Full(b) + t[2..];
      }
    }
  }

  lemma OpenSplits(s: string) returns (run: string, t: string)
    requires Open(s) && s != "{"
    ensures s == "{{" + run + t && '{' !in run && '}' !in run
    ensures t == "" || (run != "" && (t == "}" || t == "}}" + t[if |t| < 2 then 0 else 2..]))
  {
    TwoBraces(s);
    var n := BraceFree(s[2..]);
    run, t := s[2..2 + n], s[2 + n..];
    assert s == s[..2] + run + t && s[..2] == [s[0], s[1]] == "{{";
    assert forall i | 0 <= i < n :: run[i] == s[2..][i];
    assert StartsWith(t, "}}") ==> t == t[..2] + t[2..];
  }

  /** A longer reference, to have two different ones. */
  lemma AnotherReference(b: string)
    requires IsReference(b)
    ensures IsReference(b + "a") && b + "a" != b
  {
    assert |b + "a"| == |b| + 1;
    assert forall c | c in b + "a" :: c in b || c == 'a';
  }

  /** What filling in the first of two placeholders makes of a template, and what one pass does. */
  lemma OfThree(a: string, y: string, b: string, u: string, fill: string -> string)
    requires a != b && fill(a) == u && fill(b) == ""
    ensures var t := [Hole(a), Literal(y), Hole(b)];
      && Text(t) == Full(a) + y + Full(b)
      && Holes(t) == [a, b]
      && Text(FillOne(t, a, u)) == u + y + Full(b)
      && FillEach(t, fill) == u + y
  {
    var t := [Hole(a), Literal(y), Hole(b)];
    var t1, t2 := [Literal(y), Hole(b)], [Hole(b)];
    assert t[1..] == t1 && t1[1..] == t2 && t2[1..] == [];
    assert Text(t2) == Full(b) + "" == Full(b);
    assert Text(t1) == y + Full(b);
    assert Full(a) + (y + Full(b)) == Full(a) + y + Full(b);
    assert Holes(t2) == [b] + [] == [b];
    assert Holes(t1) == [] + [b] == [b];
    assert Holes(t) == [a] + [b] == [a, b];
    var v := [Literal(u), Literal(y), Hole(b)];
    assert FillOne(t2, a, u) == [Hole(b)] + [] == [Hole(b)];
    assert FillOne(t1, a, u) == [Literal(y)] + [Hole(b)];
    assert FillOne(t, a, u) == [Literal(u)] + ([Literal(y)] + [Hole(b)]) == v;
    assert v[1..] == t1;
    assert u + (y + Full(b)) == u + y + Full(b);
    assert FillEach(t2, fill) == "" + "" == "";
    assert FillEach(t1, fill) == y + "" == y;
  }

  lemma OfThreeReplaced(a: string, y: string, b: string, u: string, fill: string -> string)
    requires IsReference(a) && IsReference(b) && Calm(y)
    requires a != b && fill(a) == u && fill(b) == ""
    ensures var t := [Hole(a), Literal(y), Hole(b)];
      && Plain(t) && Captures(Text(t)) == [a, b]
      && ReplaceAll(Text(t), [a, b], fill) == Replace(u + y + Full(b), Full(b), "")
      && Substitute(Text(t), fill) == u + y
  {
    hide IsReference, Calm, Full, Text, Holes, Captures, Substitute, FillOne, FillEach, Replace;
    var t := [Hole(a), Literal(y), Hole(b)];
    OfThree(a, y, b, u, fill);
    assert Plain(t);
    PlainIsSettled(t);
    CapturesOfText(t);
    SubstituteOfText(t, fill);
    ReplaceFillsOne(t, a, u);
    ReplaceAllOfTwo(Text(t), a, b, fill);
  }

  lemma ReplaceAllOfTwo(s: string, a: string, b: string, fill: string -> string)
    ensures ReplaceAll(s, [a, b], fill) == Replace(Replace(s, Full(a), fill(a)), Full(b), fill(b))
  {
    hide Replace, Full;
    var once := Replace(s, Full(a), fill(a));
    assert [a, b][1..] == [b] && [b][1..] == [];
    assert ReplaceAll(once, [b], fill) == Replace(once, Full(b), fill(b));
  }

  /** A text in which a placeholder can begin is looked at again in some template. */
  lemma WildTextIsHarmful(texts: set<string>, u: string, i: nat)
    requires u in texts && i < |u| && Open(u[i..])
    ensures !Harmless(texts)
  {
    hide Open, Plain, Captures, Text, Substitute, ReplaceAll, IsReference, Calm, Replace;
    var y, b := Completed(u[i..]);
    var a := b + "a";
    AnotherReference(b);
    var fill := (inner: string) => if inner == a then u else "";
    var template := [Hole(a), Literal(y), Hole(b)];
    OfThreeReplaced(a, y, b, u, fill);
    TwoPlaces(u, i, y, Full(b));
    RemovalAtTwoPlaces(u + y + Full(b), Full(b), i, |u + y|);
    assert ReplaceAll(Text(template), Captures(Text(template)), fill) != Substitute(Text(template), fill);
  }

  lemma TwoPlaces(u: string, i: nat, y: string, p: string)
    requires i < |u| && StartsWith(u[i..] + y, p) && p != ""
    ensures var s := u + y + p;
      i + |p| <= |u + y| <= |s| && StartsWith(s[i..], p) && StartsWith(s[|u + y|..], p)
  {
    var s := u + y + p;
    assert s[i..] == u[i..] + y + p;
    assert s[i..][..|p|] == (u[i..] + y)[..|p|];
    assert s[|u + y|..] == p && p[..|p|] == p;
  }

  /** Texts are harmless if and only if each of them is tame. */
  lemma TameExactlyWhenHarmless(texts: set<string>)
    ensures (forall u | u in texts :: Tame(u)) <==> Harmless(texts)
  {
    hide Open, Plain, Captures, Text, Substitute, ReplaceAll;
    if u :| u in texts && !Tame(u) {
      var i :| 0 <= i < |u| && Open(u[i..]);
      WildTextIsHarmful(texts, u, i);
    } else {
      forall template, fill: string -> string
        | Plain(template) && forall inner | inner in Captures(Text(template)) :: fill(inner) in texts || fill(inner) == ""
        ensures ReplaceAll(Text(template), Captures(Text(template)), fill) == Substitute(Text(template), fill)
      {
        ReplacementIsSimultaneous(template, fill);
      }
    }
  }
}
