/** Schema inference: widening two column types into one that holds both. */
module Schema {

  datatype SchemaField = SchemaField(name: string, bsonType: BsonType, nullable: bool)

  datatype BsonType =
    | String
    | Int32
    | Int64
    | Double
    | Boolean
    | DateTime
    | Null
    | Document(fields: seq<SchemaField>)
    | Array(inner: BsonType)
    | Binary
    | ObjectId

  function WidenTypes(a: BsonType, b: BsonType): BsonType {
    if a == b then a
    else
      match (a, b)
      case (Null, other) => other
      case (other, Null) => other
      case (Int32, Int64) => Int64
      case (Int64, Int32) => Int64
      case (Int32, Double) => Double
      case (Double, Int32) => Double
      case (Int64, Double) => Double
      case (Double, Int64) => Double
      case (Array(x), Array(y)) => Array(WidenTypes(x, y))
      case _ => String
  }

  /** The order the widening is meant to follow, defined without it: Null is below everything,
      String is above everything, the numbers form a chain, arrays compare by their elements. */
  predicate Below(a: BsonType, b: BsonType) {
    || a == b
    || a.Null?
    || b.String?
    || (a.Int32? && (b.Int64? || b.Double?))
    || (a.Int64? && b.Double?)
    || (a.Array? && b.Array? && Below(a.inner, b.inner))
  }

  lemma {:induction false} BelowAntisymmetric(a: BsonType, b: BsonType)
    requires Below(a, b) && Below(b, a)
    ensures a == b
  {
    if a.Array? && b.Array? && a != b {
      BelowAntisymmetric(a.inner, b.inner);
    }
  }

  lemma {:induction false} BelowTransitive(a: BsonType, b: BsonType, c: BsonType)
    requires Below(a, b) && Below(b, c)
    ensures Below(a, c)
  {
    if a.Array? && b.Array? && c.Array? && a != b && b != c {
      BelowTransitive(a.inner, b.inner, c.inner);
    }
  }

  lemma {:induction false} WidenIsUpperBound(a: BsonType, b: BsonType)
    ensures Below(a, WidenTypes(a, b)) && Below(b, WidenTypes(a, b))
  {
    if a.Array? && b.Array? && a != b {
      WidenIsUpperBound(a.inner, b.inner);
    }
  }

  lemma {:induction false} WidenIsLeast(a: BsonType, b: BsonType, u: BsonType)
    requires Below(a, u) && Below(b, u)
    ensures Below(WidenTypes(a, b), u)
  {
    if a.Array? && b.Array? && a != b && u.Array? {
      WidenIsLeast(a.inner, b.inner, u.inner);
    }
  }

  /** Widening yields an upper bound, and the least one. */
  lemma WidenIsLeastUpperBound(a: BsonType, b: BsonType, u: BsonType)
    ensures Below(a, WidenTypes(a, b)) && Below(b, WidenTypes(a, b))
    ensures Below(WidenTypes(a, b), u) <==> Below(a, u) && Below(b, u)
  {
    hide WidenTypes, Below;
    WidenIsUpperBound(a, b);
    if Below(WidenTypes(a, b), u) {
      BelowTransitive(a, WidenTypes(a, b), u);
      BelowTransitive(b, WidenTypes(a, b), u);
    }
    if Below(a, u) && Below(b, u) {
      WidenIsLeast(a, b, u);
    }
  }

  ghost predicate IsLeastUpperBound(a: BsonType, b: BsonType, join: BsonType) {
    forall u :: Below(join, u) <==> Below(a, u) && Below(b, u)
  }

  lemma WidenJoins(a: BsonType, b: BsonType)
    ensures IsLeastUpperBound(a, b, WidenTypes(a, b))
  {
    forall u ensures Below(WidenTypes(a, b), u) <==> Below(a, u) && Below(b, u) {
      WidenIsLeastUpperBound(a, b, u);
    }
  }

  lemma LeastUpperBoundsRegroup(a: BsonType, b: BsonType, c: BsonType,
                                ab: BsonType, bc: BsonType, l: BsonType, r: BsonType)
    requires IsLeastUpperBound(a, b, ab) && IsLeastUpperBound(ab, c, l)
    requires IsLeastUpperBound(b, c, bc) && IsLeastUpperBound(a, bc, r)
    ensures l == r
  {
    assert Below(l, l) && Below(r, r);
    assert Below(l, r) && Below(r, l);
    BelowAntisymmetric(l, r);
  }

  lemma WidenCommutes(a: BsonType, b: BsonType)
    ensures WidenTypes(a, b) == WidenTypes(b, a)
  {
    WidenJoins(a, b);
    WidenJoins(b, a);
    var ab, ba := WidenTypes(a, b), WidenTypes(b, a);
    assert Below(ab, ab) && Below(ba, ba);
    BelowAntisymmetric(ab, ba);
  }

  lemma WidenAssociates(a: BsonType, b: BsonType, c: BsonType)
    ensures WidenTypes(WidenTypes(a, b), c) == WidenTypes(a, WidenTypes(b, c))
  {
    var ab, bc := WidenTypes(a, b), WidenTypes(b, c);
    WidenJoins(a, b);
    WidenJoins(b, c);
    WidenJoins(ab, c);
    WidenJoins(a, bc);
    LeastUpperBoundsRegroup(a, b, c, ab, bc, WidenTypes(ab, c), WidenTypes(a, bc));
  }

  lemma WidenBounds(a: BsonType, b: BsonType)
    ensures WidenTypes(a, a) == a
    ensures WidenTypes(a, Null) == a && WidenTypes(a, String) == String
    ensures Below(a, b) <==> WidenTypes(a, b) == b
  {
    WidenUnits(a);
    WidenIsLeastUpperBound(a, b, b);
    hide WidenTypes, Below;
    assert Below(b, b) by {
      BelowReflexive(b);
    }
    if Below(a, b) {
      BelowAntisymmetric(WidenTypes(a, b), b);
    }
  }

  lemma WidenUnits(a: BsonType)
    ensures WidenTypes(a, a) == a && WidenTypes(a, Null) == a && WidenTypes(a, String) == String
  {
  }

  lemma BelowReflexive(a: BsonType)
    ensures Below(a, a)
  {
  }

  predicate IsNumber(t: BsonType) {
    t.Int32? || t.Int64? || t.Double?
  }

  /** Numbers widen to the larger one; two different types that are not both numbers or both arrays,
      and neither of which is Null, have only String in common. */
  lemma WidenCases(a: BsonType, b: BsonType)
    ensures WidenTypes(Int32, Int64) == Int64 && WidenTypes(Int32, Double) == Double && WidenTypes(Int64, Double) == Double
    ensures WidenTypes(Array(a), Array(b)) == Array(WidenTypes(a, b))
    ensures a != b && !a.Null? && !b.Null? && !(IsNumber(a) && IsNumber(b)) && !(a.Array? && b.Array?) ==>
      WidenTypes(a, b) == String
  {
    if a == b {
      WidenUnits(a);
      WidenUnits(Array(a));
    }
  }

  /** The type of a column, widened over every type observed in it. */
  function WidenAll(types: seq<BsonType>): BsonType {
    if types == [] then Null else WidenTypes(types[0], WidenAll(types[1..]))
  }

  lemma {:induction false} WidenAllIsLeastUpperBound(types: seq<BsonType>, u: BsonType)
    ensures Below(WidenAll(types), u) <==> forall t | t in types :: Below(t, u)
  {
    if types != [] {
      WidenAllIsLeastUpperBound(types[1..], u);
      WidenIsLeastUpperBound(types[0], WidenAll(types[1..]), u);
      assert forall t :: t in types <==> t == types[0] || t in types[1..];
    }
  }

  /** Order, grouping and repetition of the observations do not matter. */
  lemma WidenAllDependsOnlyOnTheTypesSeen(s: seq<BsonType>, t: seq<BsonType>)
    requires forall x :: x in s <==> x in t
    ensures WidenAll(s) == WidenAll(t)
  {
    WidenAllIsLeastUpperBound(s, WidenAll(t));
    WidenAllIsLeastUpperBound(t, WidenAll(t));
    WidenAllIsLeastUpperBound(t, WidenAll(s));
    WidenAllIsLeastUpperBound(s, WidenAll(s));
    BelowAntisymmetric(WidenAll(s), WidenAll(t));
  }

  lemma WidenAllGroups(s: seq<BsonType>, t: seq<BsonType>)
    ensures WidenAll(s + t) == WidenTypes(WidenAll(s), WidenAll(t))
  {
    var whole, joined := WidenAll(s + t), WidenTypes(WidenAll(s), WidenAll(t));
    assert forall x :: x in s + t <==> x in s || x in t;
    WidenAllIsLeastUpperBound(s + t, joined);
    WidenAllIsLeastUpperBound(s + t, whole);
    WidenIsLeastUpperBound(WidenAll(s), WidenAll(t), joined);
    WidenIsLeastUpperBound(WidenAll(s), WidenAll(t), whole);
    WidenAllIsLeastUpperBound(s, joined);
    WidenAllIsLeastUpperBound(t, joined);
    WidenAllIsLeastUpperBound(s, whole);
    WidenAllIsLeastUpperBound(t, whole);
    BelowAntisymmetric(whole, joined);
  }
}
