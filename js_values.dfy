/**
 * The untyped JavaScript values the session store handles (the `user`
 * payload is typed `any`), and JavaScript truthiness, which decides the
 * `if (user)`, `user || null` and `if (state.token)` branches.
 */
module JsValues {

  /** A JavaScript value, as far as truthiness can tell values apart.
      Objects and arrays are opaque and identified by a reference number. */
  datatype JsValue =
    | Undefined
    | Null
    | Bool(b: bool)
    | Number(n: int)
    | Str(s: string)
    | Object(ref: nat)

  /** ToBoolean: undefined, null, false, 0 and "" are falsy, everything else is truthy. */
  predicate Truthy(v: JsValue)
    ensures Truthy(v) <==> v !in {Undefined, Null, Bool(false), Number(0), Str("")}
  {
    match v
    case Undefined => false
    case Null => false
    case Bool(b) => b
    case Number(n) => n != 0
    case Str(s) => s != ""
    case Object(_) => true
  }

  /** JavaScript `a || b`: the first operand when it is truthy, otherwise the second. */
  function Or(a: JsValue, b: JsValue): (r: JsValue)
    ensures Truthy(a) ==> r == a
    ensures !Truthy(a) ==> r == b
    ensures Truthy(r) <==> Truthy(a) || Truthy(b)
  {
    if Truthy(a) then a else b
  }
}
