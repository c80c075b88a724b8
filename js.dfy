/**
 * The handful of JavaScript value rules the front end leans on: nullable
 * strings, truthiness, the values a `catch` clause can receive, and the
 * scalar JSON values that travel in request and response bodies.
 */
module Js {

  /** `T | null`; `undefined` (a missing field) is read the same way. */
  datatype Option<+T> = None | Some(value: T)

  /** Truthiness of a `string | null`: `null`, `undefined` and `""` are falsy. */
  predicate Truthy(s: Option<string>)
  {
    s.Some? && s.value != ""
  }

  /**
   * A value caught by `catch (err)`: either an `Error` instance, whose
   * `message` the code reads, or anything else that was thrown.
   */
  datatype Thrown = ErrorObject(message: string) | NonError

  /** `err instanceof Error ? err.message : fallback` */
  function MessageOr(t: Thrown, fallback: string): string
  {
    match t
    case ErrorObject(m) => m
    case NonError => fallback
  }

  /** Scalar JSON values (numbers restricted to integers). */
  datatype JsonValue = JNull | JBool(b: bool) | JNumber(n: int) | JString(s: string)

  /** A parsed JSON object whose fields are scalars. */
  type JsonObject = map<string, JsonValue>

  /** `obj[key]`, where a missing key reads as `undefined`. */
  function Field(obj: JsonObject, key: string): Option<JsonValue>
  {
    if key in obj then Some(obj[key]) else None
  }

  /** Truthiness of a JSON field: `undefined`, `null`, `false`, `0` and `""` are falsy. */
  predicate JsonTruthy(v: Option<JsonValue>)
  {
    match v
    case None => false
    case Some(JNull) => false
    case Some(JBool(b)) => b
    case Some(JNumber(n)) => n != 0
    case Some(JString(s)) => s != ""
  }
}
