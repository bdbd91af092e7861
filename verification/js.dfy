/** The JSON values that arrive in request bodies, with JavaScript's
    truthiness and property access on them. */
module Js {
  import opened Base

  /** A value produced by `JSON.parse`, plus `undefined` for a missing
      property. JSON numbers are finite, so a `real` covers them. */
  datatype JsValue =
    | JsUndefined
    | JsNull
    | JsBool(b: bool)
    | JsNumber(n: real)
    | JsString(s: string)
    | JsArray(items: seq<JsValue>)
    | JsObject(fields: map<string, JsValue>)

  /** JavaScript truthiness: `undefined`, `null`, `false`, `0` and `""` are
      falsy, every other value (including empty arrays and objects) is truthy. */
  predicate Truthy(v: JsValue) {
    match v
    case JsUndefined => false
    case JsNull => false
    case JsBool(b) => b
    case JsNumber(n) => n != 0.0
    case JsString(s) => s != ""
    case JsArray(_) => true
    case JsObject(_) => true
  }

  /** `v.key` (also `const { key } = v`): a TypeError (`None`) on `null` and
      `undefined`, the field or `undefined` on an object, and `undefined` on
      any other value (the keys read by the modelled code are not built-in
      properties of primitives or arrays). */
  function Get(v: JsValue, key: string): (r: Option<JsValue>)
    ensures r.None? <==> v.JsNull? || v.JsUndefined?
    ensures v.JsObject? && key in v.fields ==> r == Some(v.fields[key])
    ensures v.JsObject? && key !in v.fields ==> r == Some(JsUndefined)
  {
    match v
    case JsUndefined => None
    case JsNull => None
    case JsObject(fields) => Some(if key in fields then fields[key] else JsUndefined)
    case _ => Some(JsUndefined)
  }
}
