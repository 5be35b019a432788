/**
 * JSON-shaped values. The node keeps messages, peers, corrections, patterns
 * and the budget as Python dicts decoded from JSON files; a `Record` is such a
 * dict. Python's `{**a, **b}` is Dafny's right-biased map union `a + b`.
 */
module Values {

  datatype Value =
    | VNull
    | VBool(b: bool)
    | VInt(i: int)
    | VReal(r: real)
    | VStr(s: string)
    | VList(items: seq<Value>)
    | VObj(fields: map<string, Value>)

  type Record = map<string, Value>

  /** `d.get(k, default)` */
  function Get(d: Record, k: string, default: Value): Value
  {
    if k in d then d[k] else default
  }

  /** Python truthiness of a JSON value (`if v:`). */
  predicate Truthy(v: Value)
  {
    match v
    case VNull => false
    case VBool(b) => b
    case VInt(i) => i != 0
    case VReal(x) => x != 0.0
    case VStr(s) => s != ""
    case VList(xs) => xs != []
    case VObj(m) => m != map[]
  }

  /** A JSON number read as a real; any other value reads as `default`. */
  function NumOf(v: Value, default: real): real
  {
    match v
    case VInt(i) => i as real
    case VReal(x) => x
    case _ => default
  }

  /** A JSON integer; any other value reads as `default`. */
  function IntOf(v: Value, default: int): int
  {
    match v
    case VInt(i) => i
    case _ => default
  }

  /** A JSON string; any other value reads as `default`. */
  function StrOf(v: Value, default: string): string
  {
    match v
    case VStr(s) => s
    case _ => default
  }

  /** `d.get(k, default)` for a numeric field. */
  function GetNum(d: Record, k: string, default: real): real
  {
    if k in d then NumOf(d[k], default) else default
  }

  /** `d.get(k, default)` for an integer field. */
  function GetInt(d: Record, k: string, default: int): int
  {
    if k in d then IntOf(d[k], default) else default
  }

  /** `d.get(k, default)` for a string field. */
  function GetStr(d: Record, k: string, default: string): string
  {
    if k in d then StrOf(d[k], default) else default
  }

  /** `d.setdefault(k, v)`, keeping only the updated dict. */
  function SetDefault(d: Record, k: string, v: Value): Record
  {
    if k in d then d else d[k := v]
  }
}
