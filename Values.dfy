/**
 * Decoded JSON values as the crawler receives them from `response.json()`,
 * with the few pieces of Python semantics the crawler leans on: `dict.get`
 * with a default and truthiness.
 */
module Values {

  datatype Option<+T> = None | Some(value: T)

  /** A decoded JSON document. Numbers are integers (see README, "Left out"). */
  datatype Json =
    | JNull
    | JBool(b: bool)
    | JInt(n: int)
    | JStr(s: string)
    | JArr(items: seq<Json>)
    | JObj(obj: map<string, Json>)

  const EmptyObj: Json := JObj(map[])

  /** Python's `d.get(key, default)` on a dict. */
  function Get(m: map<string, Json>, key: string, default: Json): Json
  {
    if key in m then m[key] else default
  }

  /** Python's `d.get(key)`: a missing key reads as None. */
  function GetOrNull(m: map<string, Json>, key: string): Json
  {
    Get(m, key, JNull)
  }

  /** Python truthiness of a decoded JSON value. */
  predicate Truthy(j: Json)
  {
    match j
    case JNull => false
    case JBool(b) => b
    case JInt(n) => n != 0
    case JStr(s) => s != ""
    case JArr(items) => items != []
    case JObj(obj) => obj != map[]
  }

  /** Python truthiness of an optional string (None and "" are falsy). */
  predicate Present(o: Option<string>)
  {
    o.Some? && o.value != ""
  }

  /** What an f-string prints for an optional string. */
  function Display(o: Option<string>): string
  {
    match o
    case None => "None"
    case Some(s) => s
  }
}
