/** JavaScript values as the client sees them: optional values, settled
    promises, parsed JSON bodies, truthiness and conversion to string. */
module Js {
  import opened JsStrings

  /** A value that may be `undefined` (or `null`, where the source treats both alike). */
  datatype Option<+T> = None | Some(value: T)

  /** A settled promise: fulfilled with a value, or rejected with an `Error`
      whose `message` is recorded. */
  datatype Result<+T> = Ok(value: T) | Err(message: string)

  /** A parsed JSON value. Numbers are integers here. */
  datatype Json =
    | JNull
    | JBool(b: bool)
    | JNumber(n: int)
    | JString(s: string)
    | JArray(items: seq<Json>)
    | JObject(fields: map<string, Json>)

  /** ECMAScript ToBoolean of a JSON value (`!!v`). */
  predicate Truthy(v: Json) {
    match v
    case JNull => false
    case JBool(b) => b
    case JNumber(n) => n != 0
    case JString(s) => s != ""
    case _ => true
  }

  /** ECMAScript ToString of a JSON value, as `String(v)`, a template literal
      or `localStorage.setItem` apply it. An array prints its elements joined
      by commas, with `null` printed as the empty string. */
  function ToString(v: Json): string
    decreases v, 1
  {
    match v
    case JNull => "null"
    case JBool(b) => if b then "true" else "false"
    case JNumber(n) => IntToString(n)
    case JString(s) => s
    case JArray(items) => Join(ElementStrings(v, items), ",")
    case JObject(_) => "[object Object]"
  }

  function ElementStrings(parent: Json, items: seq<Json>): (r: seq<string>)
    requires forall x :: x in items ==> x < parent
    ensures |r| == |items|
    decreases parent, 0, |items|
  {
    if items == [] then []
    else
      assert items[0] in items;
      assert forall x :: x in items[1..] ==> x in items;
      [if items[0] == JNull then "" else ToString(items[0])] + ElementStrings(parent, items[1..])
  }

  /** The string a possibly-`undefined` value converts to: `undefined`
      prints as "undefined". */
  function ToStringOrUndefined(v: Option<Json>): string {
    match v
    case None => "undefined"
    case Some(x) => ToString(x)
  }

  /** Reading property `key` of a JSON value, `v.key`: `null` throws a
      TypeError (recorded as `Err` with V8's message), an object yields the
      field if it has one, and every other value yields `undefined`. */
  function Property(v: Json, key: string): (r: Result<Option<Json>>)
    ensures r.Err? <==> v == JNull
    ensures v.JObject? && key in v.fields ==> r == Ok(Some(v.fields[key]))
    ensures !v.JObject? && v != JNull ==> r == Ok(None)
  {
    match v
    case JNull => Err("Cannot read properties of null (reading '" + key + "')")
    case JObject(fields) => Ok(if key in fields then Some(fields[key]) else None)
    case _ => Ok(None)
  }
}
