/**
 * What a request handler sees and answers: JSON bodies, JavaScript truthiness,
 * the casts Mongoose applies before it stores a value, and the `ApiError`
 * envelope that the error middleware turns into `{success: false, message}`
 * with the error's status code.
 */
module Http {
  import opened Wrappers
  import Text

  /** A JSON scalar as it arrives in a request body or sits in React state (numbers are integers). */
  datatype Json = JStr(s: string) | JNum(n: int)

  /** A parsed JSON object: a missing key is `undefined`. */
  type Body = map<string, Json>

  /** `body[key]`. */
  function Get(body: Body, key: string): (v: Option<Json>)
    ensures v.Some? <==> key in body
  {
    if key in body then Some(body[key]) else None
  }

  /** JavaScript truthiness of a body value: `undefined`, `""` and `0` are falsy. */
  predicate Truthy(v: Option<Json>) {
    match v
    case None => false
    case Some(JStr(s)) => s != ""
    case Some(JNum(n)) => n != 0
  }

  /**
   * Mongoose's cast of a value to a `Number` path: a string goes through
   * JavaScript's `Number`, so a whitespace-only string is 0. None is a
   * CastError, and also the empty string, which Mongoose casts to `null`.
   */
  function CastNumber(v: Json): Option<int> {
    match v
    case JNum(n) => Some(n)
    case JStr(s) => if s == "" then None else Text.StringToNumber(s)
  }

  /** Mongoose's cast of a value to a `String` path. */
  function CastString(v: Json): string {
    match v
    case JStr(s) => s
    case JNum(n) => Text.IntToString(n)
  }

  /** An `ApiError(statusCode, message)`, or any error the generic handler answers with 500. */
  datatype ApiError = ApiError(statusCode: int, message: string)

  /** The outcome of a handler: its JSON payload, or the error it threw. */
  datatype Result<+T> = Ok(value: T) | Err(error: ApiError)

  /** A Mongoose document failing schema validation: it carries no status code, so the answer is 500. */
  function ValidationFailed(model: string): ApiError {
    ApiError(500, model + " validation failed")
  }

  /** A Mongoose CastError: no status code either, so 500. */
  const CastFailed := ApiError(500, "Cast to Number failed")
}
