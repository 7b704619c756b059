/** Value types shared by the authorization layer and the partial-update
    builder: optional values, JSON request data, the request principal and
    the classified errors the middleware hands to the error responder. */
module Types {

  /** An optional value; `None` stands for JavaScript's null/undefined. */
  datatype Option<+T> = None | Some(value: T)

  /** A success value or a classified failure (a thrown error). */
  datatype Result<+T, +E> = Success(value: T) | Failure(error: E)

  /** A JSON value as produced by the request body parser. Numbers are
      integers here: only their truthiness and identity matter. */
  datatype Json =
    | JNull
    | JBool(b: bool)
    | JNum(n: int)
    | JStr(s: string)
    | JArr(items: seq<Json>)
    | JObj(fields: map<string, Json>)

  /** A parsed request body: the JSON object sent by the client. */
  type Body = map<string, Json>

  /** JavaScript truthiness of a JSON value; a missing property reads as
      `undefined`, which is falsy. */
  predicate Truthy(v: Option<Json>) {
    match v
    case None => false
    case Some(JNull) => false
    case Some(JBool(b)) => b
    case Some(JNum(n)) => n != 0
    case Some(JStr(s)) => s != ""
    case Some(JArr(_)) => true
    case Some(JObj(_)) => true
  }

  /** Property read `body[key]`. */
  function Prop(body: Body, key: string): (r: Option<Json>)
    ensures r.Some? <==> key in body
    ensures r.Some? ==> r.value == body[key]
  {
    if key in body then Some(body[key]) else None
  }

  /** The decoded payload of a verified session token. */
  datatype Principal = Principal(username: string, isAdmin: bool)

  /** The payload of a thrown error: the default text of the error class,
      one message, or the list of all schema-validation messages. */
  datatype Message = Default | Text(text: string) | Messages(items: seq<string>)

  /** The error classes the core throws. */
  datatype Error = Unauthorized(msg: Message) | BadRequest(msg: Message)

  /** What a middleware does: call `next()` or call `next(err)`. */
  datatype Outcome = Pass | Fail(error: Error)
}
