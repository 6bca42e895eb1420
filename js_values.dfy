/** The JavaScript values the model passes around opaquely, and their truthiness. */
module JsValues {

  /**
   * A JavaScript value as far as the pipeline inspects it. `Object(ref)` is an object
   * identified by reference; `EmptyObject` is a freshly created `{}`.
   */
  datatype JsValue =
    | Undefined
    | Null
    | Bool(b: bool)
    | Num(n: int)
    | NaN
    | Str(s: string)
    | Object(ref: nat)
    | EmptyObject

  /** JavaScript's `!!v`. */
  predicate Truthy(v: JsValue) {
    match v
    case Undefined => false
    case Null => false
    case Bool(b) => b
    case Num(n) => n != 0
    case NaN => false
    case Str(s) => s != ""
    case Object(_) => true
    case EmptyObject => true
  }

  /** `a || b`: the first operand when it is truthy, else the second. */
  function Or(a: JsValue, b: JsValue): (r: JsValue)
    ensures Truthy(r) <==> Truthy(a) || Truthy(b)
    ensures r == a || r == b
  {
    if Truthy(a) then a else b
  }
}
