/** JSON values as the configuration and index files hold them.  A missing key is JavaScript's `undefined`. */
module Json {
  import opened Wrappers

  datatype Json =
    | Null
    | Bool(b: bool)
    | Num(n: int)
    | Str(s: string)
    | Arr(items: seq<Json>)
    | Obj(fields: Fields)

  type Fields = map<string, Json>

  type Value = Option<Json>

  function Get(m: Fields, key: string): Value {
    if key in m then Some(m[key]) else None
  }

  predicate Truthy(v: Value) {
    match v
    case None => false
    case Some(Null) => false
    case Some(Bool(b)) => b
    case Some(Num(n)) => n != 0
    case Some(Str(s)) => s != ""
    case Some(_) => true
  }

  /** The `??` operator. */
  function OrElse(v: Value, fallback: Value): Value {
    if v.None? || v.value.Null? then fallback else v
  }

  /** The fields a value contributes when spread or read from; anything but an object contributes none. */
  function FieldsOf(v: Value): Fields {
    match v
    case Some(Obj(fields)) => fields
    case _ => map[]
  }
}
