/**
 * The slice of JavaScript values the core inspects: the untyped credential subject
 * fields, the rejection values of the version check and configuration flags.
 * Numbers are restricted to integers (NaN and fractions are not modelled).
 */
module Js {
  import opened Wrappers

  datatype JsValue =
    | Undefined
    | Null
    | Bool(b: bool)
    | Number(n: int)
    | Str(s: string)
    | Object(props: map<string, JsValue>)

  /** JavaScript truthiness: `undefined`, `null`, `false`, `0` and `""` are falsy. */
  predicate Truthy(v: JsValue) {
    match v
    case Undefined => false
    case Null => false
    case Bool(b) => b
    case Number(n) => n != 0
    case Str(s) => s != ""
    case Object(_) => true
  }

  /** Property read `record[key]` on an optional record (`(data || {})[key]`). */
  function Property(record: Option<map<string, JsValue>>, key: string): JsValue {
    match record
    case None => Undefined
    case Some(m) => if key in m then m[key] else Undefined
  }
}
