/** JavaScript values as they travel between the browser, the HTTP layer and
    the task handlers, with the two JavaScript operators the handlers rely
    on: truthiness (`if (!x)`, `a || b`) and strict comparison with
    `undefined`. */
module Js {

  /** A JSON-compatible JavaScript value. A property missing from a request
      body reads as `Undefined`; numbers are integers here. */
  datatype JsValue = Undefined | Null | Bool(b: bool) | Num(n: int) | Str(s: string)

  /** JavaScript truthiness: `false`, `0`, `""`, `null` and `undefined` are
      falsy, every other value is truthy. */
  predicate Truthy(v: JsValue) {
    match v
    case Undefined => false
    case Null => false
    case Bool(b) => b
    case Num(n) => n != 0
    case Str(s) => s != ""
  }

  /** `a || b`: the first operand when it is truthy, otherwise the second. */
  function Or(a: JsValue, b: JsValue): (r: JsValue)
    ensures r == a || r == b
    ensures Truthy(r) <==> Truthy(a) || Truthy(b)
    ensures Truthy(a) ==> r == a
    ensures !Truthy(a) ==> r == b
  {
    if Truthy(a) then a else b
  }

  /** `a !== undefined ? a : b`: any supplied value wins, `null` and `""`
      included. */
  function IfDefined(a: JsValue, b: JsValue): (r: JsValue)
    ensures r == a || r == b
    ensures a != Undefined ==> r == a
    ensures a == Undefined ==> r == b
    ensures r == Undefined <==> a == Undefined && b == Undefined
  {
    if a != Undefined then a else b
  }

  /** The body of a create or update request after
      `const { title, description, status, dueDate, priority } = req.body`. */
  datatype TaskFields = TaskFields(
    title: JsValue,
    description: JsValue,
    status: JsValue,
    dueDate: JsValue,
    priority: JsValue)

  /** A body that supplies none of the five fields. */
  const NoFields := TaskFields(Undefined, Undefined, Undefined, Undefined, Undefined)
}
