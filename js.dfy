/** JavaScript values as the collection hooks see them, and JavaScript truthiness. */
module Js {

  datatype Option<+T> = None | Some(value: T)

  /** A JavaScript value as it appears in a record handed to a hook. Numbers are
      integers here; a `Date` object is carried as its epoch time. */
  datatype Value =
    | Undefined
    | Null
    | Bool(b: bool)
    | Num(n: int)
    | Str(s: string)
    | Date(time: int)
    | Obj(fields: map<string, Value>)

  /** JavaScript's ToBoolean: `undefined`, `null`, `false`, `0` and `""` are falsy,
      every object (dates included) is truthy. */
  predicate Truthy(v: Value) {
    match v
    case Undefined => false
    case Null => false
    case Bool(b) => b
    case Num(n) => n != 0
    case Str(s) => s != ""
    case Date(_) => true
    case Obj(_) => true
  }

  /** A record: the `data` or `siblingData` object a hook receives, keyed by field name. */
  type Fields = map<string, Value>

  /** The property read `data.key`; a missing key reads as `undefined`. */
  function Get(data: Fields, key: string): Value {
    if key in data then data[key] else Undefined
  }

  /** A `string | undefined` as a JavaScript value. */
  function OfOptional(s: Option<string>): Value {
    match s
    case None => Undefined
    case Some(t) => Str(t)
  }

  /** `x || ''` for `x: string | undefined`. */
  function OrEmpty(x: Option<string>): (r: string)
    ensures Truthy(OfOptional(x)) ==> r == x.value
    ensures !Truthy(OfOptional(x)) ==> r == ""
  {
    if Truthy(OfOptional(x)) then x.value else ""
  }
}
