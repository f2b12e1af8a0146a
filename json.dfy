/** Values produced by `JSON.parse`, and the JavaScript property access and
    truthiness tests the core applies to them. */
module JsonValues {
  import opened Wrappers

  /** A parsed JSON value. Numbers matter here only for truthiness, so they are integers. */
  datatype Json =
    | JNull
    | JBool(b: bool)
    | JNum(n: int)
    | JStr(s: string)
    | JArr(items: seq<Json>)
    | JObj(fields: map<string, Json>)

  /** A non-empty piece of text as `JSON.parse` sees it: either it throws, or it yields a value. */
  datatype JsonText = Unparsable | Parsed(value: Json)

  /** `j.key` for a data key: only an object has one; anything else yields `undefined` (None). */
  function Prop(j: Json, key: string): (r: Option<Json>)
    ensures r.Some? <==> j.JObj? && key in j.fields
  {
    if j.JObj? && key in j.fields then Some(j.fields[key]) else None
  }

  /** `o?.key`: optional chaining over a value that may be `undefined`. */
  function PropOf(o: Option<Json>, key: string): Option<Json> {
    if o.Some? then Prop(o.value, key) else None
  }

  /** `j[0]` on a value that is not `null`. */
  function Index0(j: Json): Option<Json> {
    match j
    case JArr(items) => if items != [] then Some(items[0]) else None
    case JObj(_) => Prop(j, "0")
    case JStr(s) => if s != [] then Some(JStr([s[0]])) else None
    case _ => None
  }

  /** JavaScript truthiness of a JSON value. */
  predicate Truthy(j: Json) {
    match j
    case JNull => false
    case JBool(b) => b
    case JNum(n) => n != 0
    case JStr(s) => s != []
    case _ => true
  }

  /** Truthiness of a value that may be `undefined`. */
  predicate TruthyOpt(o: Option<Json>) {
    o.Some? && Truthy(o.value)
  }
}
