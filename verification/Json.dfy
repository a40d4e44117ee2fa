/** JSON values as both parsers deliver them: objects as maps, integers apart from other numbers. */
module Json {
  import opened Results
  import opened ByteStrings

  datatype Json =
    | Null
    | Bool(b: bool)
    | Int(n: int)
    | Fraction
    | Str(s: string)
    | Arr(items: seq<Json>)
    | Obj(fields: map<string, Json>)
  {
    /** `value.get(field)`: absent from anything that is not an object. */
    function Get(field: string): Option<Json> {
      if Obj? && field in fields then Some(fields[field]) else None
    }
  }

  /** `as_u64`. */
  function AsU64(v: Json): Option<nat> {
    if v.Int? && 0 <= v.n < U64_LIMIT then Some(v.n) else None
  }

  /** Python's `isinstance(found, int) and not bool and found >= 0`. */
  function AsUnsigned(v: Json): Option<nat> {
    if v.Int? && 0 <= v.n then Some(v.n) else None
  }

  /** The string a field holds, if it holds one. */
  function TextAt(v: Json, field: string): Option<string> {
    match v.Get(field)
    case Some(Str(s)) => Some(s)
    case _ => None
  }

  /** The natural number a field holds, if it holds one. */
  function NumberAt(v: Json, field: string): Option<nat> {
    match v.Get(field)
    case Some(Int(n)) => if n >= 0 then Some(n) else None
    case _ => None
  }
}
