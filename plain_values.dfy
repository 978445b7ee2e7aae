/** Plain JavaScript values, as handlers return them and as the persistence layer hands rows back. */
module PlainValues {
  import opened Wrappers

  /** Timestamps (`Date`) as milliseconds. */
  type Time = int

  datatype Value =
    | Null
    | Bool(b: bool)
    | Num(n: int)
    | Str(s: string)
    | Date(t: Time)
    | Arr(items: seq<Value>)
    | Obj(fields: Record)

  /** A plain object: property name to value; an absent key is `undefined`. */
  type Record = map<string, Value>

  /** `obj[key]`, with `None` for `undefined`. */
  function Get(r: Record, key: string): (v: Option<Value>)
    ensures v.Some? <==> key in r
    ensures v.Some? ==> v.value == r[key]
  {
    if key in r then Some(r[key]) else None
  }

  /** JavaScript truthiness of a property value (`undefined` is `None`). */
  predicate Truthy(v: Option<Value>) {
    match v
    case None => false
    case Some(Null) => false
    case Some(Bool(b)) => b
    case Some(Num(n)) => n != 0
    case Some(Str(s)) => s != ""
    case Some(_) => true
  }
}
