/**
 * The JSON values that reach the route handlers in a request body, and JavaScript truthiness
 * on them. Numbers are modelled as integers.
 */
module Json {
  import opened Wrappers

  datatype Json =
    | JNull
    | JBool(b: bool)
    | JNum(n: int)
    | JStr(s: string)
    | JArr(items: seq<Json>)
    | JObj(fields: seq<(string, Json)>)

  /** JavaScript truthiness of a body field; None is a field that is absent (`undefined`). */
  predicate Truthy(v: Option<Json>) {
    match v
    case None => false
    case Some(JNull) => false
    case Some(JBool(b)) => b
    case Some(JNum(n)) => n != 0
    case Some(JStr(s)) => s != []
    case Some(JArr(_)) => true
    case Some(JObj(_)) => true
  }

  /** `!!v && typeof v === "string"`: a non-empty string. */
  function NonEmptyString(v: Option<Json>): (r: Option<string>)
    ensures r.Some? <==> Truthy(v) && v.value.JStr?
    ensures r.Some? ==> r.value != [] && v == Some(JStr(r.value))
  {
    if v.Some? && v.value.JStr? && v.value.s != [] then Some(v.value.s) else None
  }
}
