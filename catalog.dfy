/**
 * The catalog as the page receives it: parsed JSON records, read with
 * JavaScript's property access, truthiness, `||` and `===`.
 * Numbers are integers in this model.
 */
module Catalog {

  datatype Option<+T> = None | Some(value: T)

  /** The outcome of an expression that may raise a TypeError in the source. */
  datatype Eval<+T> = Value(v: T) | Throws(reason: string)

  /** A parsed JSON value. */
  datatype Json =
    | JNull
    | JBool(b: bool)
    | JNum(n: int)
    | JStr(s: string)
    | JArr(items: seq<Json>)
    | JObj(fields: map<string, Json>)

  /** A catalog entry (product, sample or accessory): its own properties. */
  type Record = map<string, Json>

  /** The catalog document; a missing top-level collection is None. */
  datatype Catalog = Catalog(
    products: Option<seq<Record>>,
    samples: Option<seq<Record>>,
    accessories: Option<seq<Record>>)

  /** `r.key`: None stands for `undefined`. */
  function Get(r: Record, key: string): Option<Json>
  {
    if key in r then Some(r[key]) else None
  }

  /** `obj.key` on a JSON value: only objects have properties of interest here. */
  function Prop(v: Json, key: string): Option<Json>
  {
    if v.JObj? then Get(v.fields, key) else None
  }

  /** JavaScript truthiness of a value that may be `undefined`. */
  predicate Truthy(v: Option<Json>)
  {
    match v
    case None => false
    case Some(JNull) => false
    case Some(JBool(b)) => b
    case Some(JNum(n)) => n != 0
    case Some(JStr(s)) => s != ""
    case Some(_) => true
  }

  /** `a || b` */
  function Or(a: Option<Json>, b: Option<Json>): Option<Json>
  {
    if Truthy(a) then a else b
  }

  /**
   * `a === b`. Objects and arrays coming out of JSON.parse are distinct
   * references, so two of them are never identical.
   */
  predicate StrictEq(a: Option<Json>, b: Option<Json>)
  {
    match (a, b)
    case (None, None) => true
    case (Some(JNull), Some(JNull)) => true
    case (Some(JBool(x)), Some(JBool(y))) => x == y
    case (Some(JNum(x)), Some(JNum(y))) => x == y
    case (Some(JStr(x)), Some(JStr(y))) => x == y
    case _ => false
  }

  /** `r.key === text` for a string `text`. */
  predicate HasText(r: Record, key: string, text: string)
  {
    Get(r, key) == Some(JStr(text))
  }

  /** The numeric value of `r.key || fallback`, for a field the source uses as a number. */
  function NumberOr(r: Record, key: string, fallback: int): int
  {
    match Get(r, key)
    case Some(JNum(n)) => if n != 0 then n else fallback
    case _ => fallback
  }
}
