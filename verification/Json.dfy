/** JSON values as the Python tools see them after parsing. */
module Json {
  import opened Collections

  datatype Json =
    | Null
    | Bool(b: bool)
    | Int(n: int)
    | Float(r: real)
    | Str(s: string)
    | Arr(items: seq<Json>)
    | Obj(fields: map<string, Json>)

  type Object = map<string, Json>

  /** `mapping.get(key)`: an absent key reads as null. */
  function Get(o: Object, key: string): Json {
    if key in o then o[key] else Null
  }

  /** Lists and dictionaries cannot be looked up in a set: the membership test itself raises. */
  predicate Hashable(v: Json) {
    !v.Arr? && !v.Obj?
  }

  function Utf8Length(s: string): nat {
    if s == [] then 0
    else
      var c := s[|s| - 1] as int;
      Utf8Length(s[..|s| - 1]) + (if c < 0x80 then 1 else if c < 0x800 then 2 else if c < 0x1_0000 then 3 else 4)
  }

  /** The bounded-text check: a non-empty string within the byte limit and free of NUL. */
  predicate BoundedText(v: Json, limit: nat) {
    v.Str? && v.s != [] && Utf8Length(v.s) <= limit && '\U{0}' !in v.s
  }

  function Number(v: Json): Option<real> {
    match v
    case Bool(b) => Some(if b then 1.0 else 0.0)
    case Int(n) => Some(n as real)
    case Float(r) => Some(r)
    case _ => None
  }

  /** Python equality: booleans and numbers compare by value, containers by their elements. */
  predicate PyEqual(a: Json, b: Json)
    decreases a
  {
    if Number(a).Some? then Number(a) == Number(b)
    else match a
      case Arr(items) => b.Arr? && |items| == |b.items| && forall i :: 0 <= i < |items| ==>
        PyEqual(items[i], b.items[i])
      case Obj(fields) => b.Obj? && fields.Keys == b.fields.Keys && forall k :: k in fields ==>
        PyEqual(fields[k], b.fields[k])
      case _ => a == b
  }
}
