/** JSON values as JavaScript sees them after `JSON.parse`, with JavaScript truthiness.
    Numbers are integers here; fractional numbers are not modelled. */
module Json {
  import opened Wrappers
  import Decimal

  datatype Json =
    | JNull
    | JBool(b: bool)
    | JNum(n: int)
    | JStr(s: string)
    | JArr(items: seq<Json>)
    | JObj(fields: map<string, Json>)

  /** `!!v` in JavaScript. */
  predicate Truthy(v: Json) {
    match v
    case JNull => false
    case JBool(b) => b
    case JNum(n) => n != 0
    case JStr(s) => s != ""
    case _ => true
  }

  /** `typeof v === "object"` (null, arrays and objects). */
  predicate IsObjectType(v: Json) {
    v.JNull? || v.JArr? || v.JObj?
  }

  /** `v?.[key]`: the field of an object, or undefined (None) for anything else. */
  function Get(v: Json, key: string): Option<Json> {
    if v.JObj? && key in v.fields then Some(v.fields[key]) else None
  }

  /** Truthiness of `v?.[key]`, where undefined is falsy. */
  predicate FieldTruthy(v: Json, key: string) {
    Get(v, key).Some? && Truthy(Get(v, key).value)
  }

  /** `String(v)` for a JSON value (arrays join their elements with commas). */
  function ToJsString(v: Json): string
  {
    match v
    case JNull => "null"
    case JBool(b) => if b then "true" else "false"
    case JNum(n) => Decimal.IntToString(n)
    case JStr(s) => s
    case JArr(items) => JoinItems(items)
    case JObj(_) => "[object Object]"
  }

  function JoinItems(items: seq<Json>): string
    decreases items
  {
    if items == [] then ""
    else
      var first := if items[0].JNull? then "" else ToJsString(items[0]);
      if |items| == 1 then first else first + "," + JoinItems(items[1..])
  }
}
