/**
 * What a route handler answers: a status and a JSON body. A handler that
 * throws, or whose query fails, hands the error to `next(err)`; the error
 * middleware (backend/src/middleware/errorHandler.js) is not part of this
 * model and is taken to answer 500.
 */
module Http {
  import opened Js
  import opened Sql
  import opened Wrappers

  /** The error a handler passes to next(err). */
  datatype Fault = Thrown(exception: Exception) | Query(error: DbError)

  datatype Body<T> =
    | Error(error: string)            // { error }
    | Errors(errors: seq<string>)     // { errors }
    | Json(value: T)                  // the handler's own payload
    | Failure(fault: Fault)           // handed to the error middleware

  datatype Reply<T> = Reply(status: nat, body: Body<T>)

  /** `{ message }`. */
  datatype Notice = Notice(message: string)

  function Refuse<T>(status: nat, message: string): (r: Reply<T>)
    ensures r.status == status && r.body == Error(message)
  {
    Reply(status, Error(message))
  }

  function Fail<T>(fault: Fault): (r: Reply<T>)
    ensures r.status == 500 && r.body.Failure?
  {
    Reply(500, Failure(fault))
  }

  /** `parseInt(q) || d` for a query-string value that may be absent. */
  function IntOr(q: Option<string>, d: int): (r: int)
    requires d != 0
    ensures r != 0
    ensures q.Some? && ParseInt(q.value).Some? && ParseInt(q.value).value != 0 ==> r == ParseInt(q.value).value
    ensures q.None? || ParseInt(q.value).None? || ParseInt(q.value) == Some(0) ==> r == d
  {
    if q.Some? && ParseInt(q.value).Some? && ParseInt(q.value).value != 0 then ParseInt(q.value).value else d
  }

  /** `q || d` for a query-string value. */
  function TextOr(q: Option<string>, d: string): (r: string)
    ensures q.Some? && q.value != "" ==> r == q.value
    ensures q.None? || q.value == "" ==> r == d
  {
    if q.Some? && q.value != "" then q.value else d
  }

  /** A route parameter as the handler sees it: a string, or undefined when the route does not declare it. */
  function RouteParam(params: map<string, string>, name: string): (v: JsValue)
    ensures v == Undefined <==> name !in params
    ensures name in params ==> v == Str(params[name])
  {
    if name in params then Str(params[name]) else Undefined
  }

  /** `parseInt(v)` for a route parameter: None is NaN, which equals no id. */
  function ParamInt(v: JsValue): (r: Option<int>)
    ensures v.Str? && v.s != [] && AllDigits(v.s) ==> r == Some(DigitsValue(v.s))
    ensures !v.Str? ==> r.None?
  {
    if v.Str? then ParseInt(v.s) else None
  }
}
