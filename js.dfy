/** The JavaScript values and exceptions the dashboard's logic handles. */
module Js {

  import opened Results
  import opened Decimal

  /** A value read from a query string or from the night registry. An object
      (a nested mapping) is kept only as a truthy opaque value. A number is an
      integer only: a registry `EON` written as a JSON fraction is not represented,
      and its text as a `JsStr` goes through `toString` the same way. The integer
      is exact and unbounded, where a JavaScript number is exact only up to 2^53
      and prints in exponent notation from 10^21. */
  datatype JsValue =
    | JsUndefined
    | JsNull
    | JsBool(b: bool)
    | JsInt(n: int)
    | JsStr(s: string)
    | JsObject

  /** The three kinds of exception the modelled code can raise. The code raises no
      other kind, so the type is closed here. */
  datatype JsError =
    | Error(message: string)
    | TypeError(message: string)
    | ReferenceError(message: string)

  /** `v == null`, the loose comparison that is true of null and undefined alike. */
  predicate Nullish(v: JsValue) {
    v.JsUndefined? || v.JsNull?
  }

  /** What an `if (v)` test takes for true. */
  predicate Truthy(v: JsValue) {
    match v
    case JsUndefined => false
    case JsNull => false
    case JsBool(b) => b
    case JsInt(n) => n != 0
    case JsStr(s) => s != ""
    case JsObject => true
  }

  /** The exception `v.prop` raises when v is null or undefined. The message is the
      wording of the V8 engine (Chrome, Node.js); other engines word it differently,
      and the model fixes this one. */
  function PropertyOfNullish(v: JsValue, prop: string): JsError
    requires Nullish(v)
  {
    TypeError("Cannot read properties of " + (if v.JsNull? then "null" else "undefined")
              + " (reading '" + prop + "')")
  }

  /** `v.toString()`: the text of a value, or the exception for null and undefined. */
  function ToJsString(v: JsValue): (r: Result<string, JsError>)
    ensures r.Failure? <==> Nullish(v)
    ensures v.JsStr? ==> r == Success(v.s)
    ensures v.JsInt? && v.n >= 0 ==> r.Success? && AllDigits(r.value) && DecimalValue(r.value) == v.n
                                     && (|r.value| > 1 ==> r.value[0] != '0')
    ensures v.JsInt? && v.n < 0 ==> r.Success? && |r.value| > 1 && r.value[0] == '-' && r.value[1] != '0'
                                    && AllDigits(r.value[1..]) && DecimalValue(r.value[1..]) == -v.n
  {
    match v
    case JsUndefined => Failure(PropertyOfNullish(v, "toString"))
    case JsNull => Failure(PropertyOfNullish(v, "toString"))
    case JsBool(b) => Success(if b then "true" else "false")
    case JsInt(n) => Success(IntToString(n))
    case JsStr(s) => Success(s)
    case JsObject => Success("[object Object]")
  }

  /** `err.toString()` of an exception: its name, then ": " and the message when there is one. */
  function ErrorString(e: JsError): (s: string)
    ensures |s| > 0
  {
    var name := match e
      case Error(_) => "Error"
      case TypeError(_) => "TypeError"
      case ReferenceError(_) => "ReferenceError";
    if e.message == "" then name else name + ": " + e.message
  }
}
