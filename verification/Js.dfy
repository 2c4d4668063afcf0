/**
 JavaScript semantics shared by every component of the summarizer: optional
 values, the outcome of an awaited external call (a returned value or a thrown
 value), and the truthiness tests the source writes as `if (x)` / `!x`.
 */
module Js {

  /** A value that may be `null`/`undefined` (None) or present (Some). */
  datatype Option<+T> = None | Some(value: T)

  /** What a `catch (e)` clause receives: an `Error` instance or any other value. */
  datatype Thrown = ErrorInstance(message: string) | NonError

  /** The settled result of an awaited call into code this model does not see. */
  datatype Outcome<+T> = Returned(value: T) | Threw(thrown: Thrown)

  /** `e instanceof Error ? e.message : fallback` */
  function MessageOf(e: Thrown, fallback: string): (m: string)
    ensures e.ErrorInstance? ==> m == e.message
    ensures e.NonError? ==> m == fallback
  {
    match e
    case ErrorInstance(msg) => msg
    case NonError => fallback
  }

  /** A string, `null` or `undefined` is truthy exactly when it is a non-empty string. */
  predicate Truthy(s: Option<string>) {
    s.Some? && s.value != ""
  }

  /** `a || b` on optional strings: the left operand when truthy, the right one otherwise. */
  function Or(a: Option<string>, b: Option<string>): (r: Option<string>)
    ensures Truthy(a) ==> r == a
    ensures !Truthy(a) ==> r == b
  {
    if Truthy(a) then a else b
  }

  /**
   A JSON value as received in a request body field. Numbers are kept as reals;
   JSON has no NaN, so `0` is the only falsy number.
   */
  datatype JsonValue =
    | Absent
    | JNull
    | JBool(b: bool)
    | JNumber(n: real)
    | JString(s: string)
    | JArray(items: seq<JsonValue>)
    | JObject

  /** `!!v` for a JSON field value. */
  predicate TruthyJson(v: JsonValue) {
    match v
    case Absent => false
    case JNull => false
    case JBool(b) => b
    case JNumber(n) => n != 0.0
    case JString(s) => s != ""
    case JArray(_) => true
    case JObject => true
  }
}
