/** JavaScript values, as far as the modelled code tests them. */
module JsValues {

  /**
   * A value read off an object: `undefined`, `null`, a boolean, a number
   * (integers only), a string, or any object or array.
   */
  datatype Value = Undefined | Null | Bool(b: bool) | Num(n: int) | Str(s: string) | Object

  /** JavaScript truthiness: `undefined`, `null`, `false`, `0` and `""` are falsy. */
  predicate Truthy(v: Value) {
    match v
    case Undefined => false
    case Null => false
    case Bool(b) => b
    case Num(n) => n != 0
    case Str(s) => s != []
    case Object => true
  }
}
