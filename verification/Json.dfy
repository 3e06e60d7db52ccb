/** JSON values. */
module Json {
  import opened Wrappers

  datatype Value =
    | Null
    | Bool(b: bool)
    | Int(n: int)
    | Float(x: real)
    | Str(s: string)
    | Arr(items: seq<Value>)
    | Obj(members: seq<Member>)

  /** The members of an object, in iteration order. */
  datatype Member = Member(key: string, value: Value)

  function Get(members: seq<Member>, key: string): Option<Value> {
    if members == [] then None
    else if members[0].key == key then Some(members[0].value)
    else Get(members[1..], key)
  }
}
