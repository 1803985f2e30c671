/** Parsed JSON request bodies, and the JavaScript reads the handlers make on them. */
module JsonValues {
  import opened Common

  datatype Json =
    | JNull
    | JBool(b: bool)
    | JNum(n: int)
    | JStr(s: string)
    | JArr(items: seq<Json>)
    | JObj(fields: map<string, Json>)

  /** `body.key`: `undefined` (None) when the key is absent or the body is not an object. */
  function Get(body: Json, key: string): (r: Option<Json>)
    ensures r.Some? <==> body.JObj? && key in body.fields
  {
    if body.JObj? && key in body.fields then Some(body.fields[key]) else None
  }

  /** JavaScript truthiness of a property read. */
  predicate Truthy(v: Option<Json>) {
    match v
    case None => false
    case Some(JNull) => false
    case Some(JBool(b)) => b
    case Some(JNum(n)) => n != 0
    case Some(JStr(s)) => s != ""
    case Some(_) => true
  }

  /** `const { key, ...rest } = body`: the other properties of an object body. */
  function Rest(body: Json, key: string): (r: map<string, Json>)
    requires body.JObj?
    ensures key !in r
    ensures forall k :: k in r <==> k in body.fields && k != key
    ensures forall k :: k in r ==> r[k] == body.fields[k]
  {
    body.fields - {key}
  }
}
