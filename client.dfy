/** Values shared by the React components of client/src/components: a file
    picked in the browser, the outcome of a call through `api` of
    client/src/utils/apiHelper.js (which throws only when `fetch` itself
    fails and otherwise hands back the parsed body), and the signed-URL
    answer of the upload routes. */
module Client {
  import opened JsValues
  import opened Strings

  /** A browser `File`: its `name` and MIME `type`. */
  datatype LocalFile = LocalFile(name: string, mime: string)

  /** An awaited request: it threw, or it returned a body. */
  datatype Call<T> = Threw | Returned(body: T)

  /** The `{ url, key }` answer of a signed-URL route. */
  datatype Signed = Signed(url: string, key: JsVal)

  /** The fields of a route's JSON answer that the components read. */
  datatype Answer = Answer(success: bool, error: JsVal, message: JsVal)

  /** `authUser?._id`, where the empty string stands for a missing user. */
  predicate SignedIn(userId: string)
  {
    userId != ""
  }

  /** `body.field || fallback` shown as an error message: the field when it
      is truthy, the fallback otherwise. */
  function MessageOr(v: JsVal, fallback: string): (r: string)
    ensures Truthy(v) && v.Str? ==> r == v.s
    ensures !Truthy(v) ==> r == fallback
  {
    match v
    case Str(s) => if s != "" then s else fallback
    case Num(n) => if n != 0 then IntToString(n) else fallback
    case _ => fallback
  }
}
