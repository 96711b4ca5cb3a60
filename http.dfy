/** The JSON responses the API routes send: a status code and a body. */
module Http {
  import opened Wrappers
  import opened Orders

  /**
   * A JSON value as a request body field: `undefined` when the field is
   * absent, an object or array as `JComposite` (no two of those are ever
   * `===`).
   */
  datatype Json = JUndefined | JNull | JBool(b: bool) | JNum(n: int) | JStr(s: string) | JComposite

  /** JavaScript truthiness of a JSON value. */
  predicate JsTruthy(v: Json) {
    match v
    case JBool(b) => b
    case JNum(n) => n != 0
    case JStr(s) => s != ""
    case JComposite => true
    case _ => false
  }

  /** `a === b` on JSON values. */
  predicate StrictEquals(a: Json, b: Json) {
    a == b && !a.JComposite?
  }

  datatype Body =
    | ErrorBody(error: string, details: Option<string>)
    | OrderBody(order: Order)
    | OrderListBody(orders: seq<Order>)
    | LoginBody(token: string, mobile: string)
    | OtpSentBody(message: string, demoOtp: Option<string>)
    | OtpFailedBody(error: string, demoOtp: Option<string>)
    | StockBody(id: Json, outOfStock: bool, message: string)

  datatype Response = Response(status: int, body: Body)

  /** `error.message || "Unknown error"`. */
  function MessageOr(message: string, fallback: string): (r: string)
    ensures r != ""  || fallback == ""
    ensures message != "" ==> r == message
  {
    if message == "" then fallback else message
  }
}
