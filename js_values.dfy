/**
 * The JavaScript values a chat export turns into once `JSON.parse` has read it,
 * and the few JavaScript operations the parsers apply to them: truthiness,
 * property reads, `Array.isArray` and `typeof … === 'string'`.
 */
module JsValues {
  import opened Wrappers

  /** A value `JSON.parse` can produce. Object keys are unique once parsed. */
  datatype Json =
    | JNull
    | JBool(b: bool)
    | JNumber(n: real)
    | JString(s: string)
    | JArray(items: seq<Json>)
    | JObject(fields: map<string, Json>)

  /** The result of reading a property: `undefined`, or a JSON value. */
  datatype Val = Undefined | Defined(json: Json)

  /** The property names the import pipeline reads. None of them is an inherited
      property of arrays, strings, numbers, booleans or plain objects, so reading
      one from anything but an object that owns it yields `undefined`. */
  const ReadKeys: set<string> := {
    "chatlab", "version", "meta", "members", "messages", "name", "platform",
    "type", "platformId", "sender", "timestamp", "content"
  }

  /** JavaScript truthiness: `undefined`, `null`, `false`, `0` and `""` are falsy. */
  predicate Truthy(v: Val) {
    match v
    case Undefined => false
    case Defined(j) =>
      match j
      case JNull => false
      case JBool(b) => b
      case JNumber(n) => n != 0.0
      case JString(s) => s != ""
      case JArray(_) => true
      case JObject(_) => true
  }

  /** The own field `key` of a JSON value, `undefined` when it has none. */
  function FieldOf(j: Json, key: string): Val {
    if j.JObject? && key in j.fields then Defined(j.fields[key]) else Undefined
  }

  /** `v.key`. `None` stands for the TypeError the runtime throws when `v` is
      `undefined` or `null`. */
  function Prop(v: Val, key: string): Option<Val>
    requires key in ReadKeys
  {
    match v
    case Undefined => None
    case Defined(j) => if j == JNull then None else Some(FieldOf(j, key))
  }

  /** `Array.isArray(v)`. */
  predicate IsArray(v: Val) {
    v.Defined? && v.json.JArray?
  }

  /** `typeof v === 'string'`. */
  predicate IsString(v: Val) {
    v.Defined? && v.json.JString?
  }

  /** `v || fallback`: the value itself when truthy, otherwise the fallback. */
  function OrElse(v: Val, fallback: Json): Json {
    if Truthy(v) then v.json else fallback
  }
}
