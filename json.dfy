/**
 * The JSON values held in `site_settings.content` and edited by the admin page, with the
 * JavaScript operations the page applies to them: truthiness, `||` defaults, object
 * spread and property assignment. Object key order is not represented.
 */
module Json {

  datatype Json =
    | JNull
    | JBool(b: bool)
    | JNum(n: int)
    | JStr(s: string)
    | JArr(items: seq<Json>)
    | JObj(fields: map<string, Json>)

  /** JavaScript truthiness; `undefined` is represented by `JNull`. */
  predicate Truthy(j: Json) {
    match j
    case JNull => false
    case JBool(b) => b
    case JNum(n) => n != 0
    case JStr(s) => s != []
    case JArr(_) => true
    case JObj(_) => true
  }

  /** `a || b`. */
  function Or(a: Json, b: Json): (r: Json)
    ensures Truthy(a) ==> r == a
    ensures !Truthy(a) ==> r == b
  {
    if Truthy(a) then a else b
  }

  /** `obj.key`, with a missing key or a non-object read as `undefined`. */
  function Get(j: Json, key: string): (r: Json)
    ensures j.JObj? && key in j.fields ==> r == j.fields[key]
    ensures !(j.JObj? && key in j.fields) ==> r == JNull
  {
    if j.JObj? && key in j.fields then j.fields[key] else JNull
  }

  /** The properties `...j` contributes to an object literal: an object's own fields, nothing otherwise. */
  function Spread(j: Json): map<string, Json> {
    if j.JObj? then j.fields else map[]
  }

  /**
   * `{ ...defaults, ...j }`: every default and every field of `j`, where `j`'s value wins
   * on a shared key.
   */
  function WithDefaults(defaults: map<string, Json>, j: Json): (r: Json)
    ensures r.JObj?
    ensures forall k :: k in r.fields <==> k in defaults || k in Spread(j)
    ensures forall k :: k in Spread(j) ==> r.fields[k] == Spread(j)[k]
    ensures forall k :: k in defaults && k !in Spread(j) ==> r.fields[k] == defaults[k]
  {
    JObj(defaults + Spread(j))
  }

  /** `{ ...j, key: v }`. */
  function SetKey(j: Json, key: string, v: Json): (r: Json)
    ensures r.JObj? && key in r.fields && r.fields[key] == v
    ensures forall k :: k != key ==> (k in r.fields <==> k in Spread(j))
    ensures forall k :: k != key && k in Spread(j) ==> r.fields[k] == Spread(j)[k]
  {
    JObj(Spread(j)[key := v])
  }

  /**
   * `[...(j || [])]` on a value that is an array or falsy: its items, or none. A truthy
   * non-array value is read as no items.
   */
  function Items(j: Json): seq<Json> {
    if j.JArr? then j.items else []
  }

  /**
   * `j.key = v` on an object. On null or a primitive the page's strict-mode code throws a
   * TypeError; the model leaves such a value unchanged instead.
   */
  function Assign(j: Json, key: string, v: Json): (r: Json)
    ensures j.JObj? ==> r == JObj(j.fields[key := v])
    ensures !j.JObj? ==> r == j
  {
    if j.JObj? then JObj(j.fields[key := v]) else j
  }
}
