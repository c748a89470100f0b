/** PHP values as the core passes them around, and PHP's truthiness test. */
module Php {

  /** A PHP value (floats and objects other than a user reference are not modelled). */
  datatype Value =
    | Null
    | Bool(b: bool)
    | Int(i: int)
    | Str(s: string)
    | List(items: seq<Value>)
    | UserRef(id: int)

  /** `if ($v)`: null, false, 0, "", "0" and the empty array are falsy. */
  predicate Truthy(v: Value) {
    match v
    case Null => false
    case Bool(b) => b
    case Int(i) => i != 0
    case Str(s) => s != "" && s != "0"
    case List(items) => |items| > 0
    case UserRef(_) => true
  }
}
