/** JavaScript values as the Farmhand routes and components see them in request
    bodies and stored documents, with the two operators the code relies on:
    truthiness (`if (!x)`, `x || y`) and strict equality (`===`). */
module JsValues {

  datatype Option<+T> = None | Some(value: T)

  /** A loosely typed field: `undefined`, `null`, a string or an integer.
      Floating-point numbers are not modelled; a string field such as a probe
      duration is carried as `Str`. */
  datatype JsVal = Undef | Null | Str(s: string) | Num(n: int)

  /** JavaScript truthiness: `undefined`, `null`, `''` and `0` are falsy. */
  predicate Truthy(v: JsVal)
  {
    match v
    case Undef => false
    case Null => false
    case Str(s) => s != ""
    case Num(n) => n != 0
  }

  /** `a || b`: the left operand when it is truthy, otherwise the right one. */
  function Or(a: JsVal, b: JsVal): (r: JsVal)
    ensures Truthy(r) <==> Truthy(a) || Truthy(b)
    ensures Truthy(a) ==> r == a
    ensures !Truthy(a) ==> r == b
  {
    if Truthy(a) then a else b
  }

  /** `===` on these values is structural equality: two strings are strictly
      equal exactly when they hold the same characters, and `undefined` is
      never strictly equal to `null` or `''`. */
  predicate StrictEq(a: JsVal, b: JsVal)
  {
    a == b
  }

  /** A string field that the code tests with `!x`: the empty string stands for
      a missing value. */
  predicate Present(s: string)
  {
    s != ""
  }

  /** The `Num` payload used as a sort key (`a.seqPos - b.seqPos`); a missing
      or non-numeric value is keyed as 0. */
  function NumOr0(v: JsVal): int
  {
    if v.Num? then v.n else 0
  }
}
