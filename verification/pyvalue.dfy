/**
 Python values as the proxy handles them: what `r.json()` returns for an upstream
 body, and the dictionaries the handler builds from it. JSON objects become
 dictionaries keyed by strings; dictionaries the handler builds itself may be keyed
 by any hashable value (a metric name taken from the payload).
 */
module PyValue {

  /** A JSON-derived Python value. Python's `int` and `float` are both `Num`. */
  datatype Value =
    | Null
    | Bool(b: bool)
    | Num(n: real)
    | Str(s: string)
    | List(items: seq<Value>)
    | Dict(fields: map<Value, Value>)

  /** Exceptions the handler's own code can raise on an odd payload. */
  datatype Crash = AttributeError | TypeError | ValueError

  /** Python truthiness: `None`, `False`, zero, and empty strings, lists and dicts are false. */
  predicate Truthy(v: Value) {
    match v
    case Null => false
    case Bool(b) => b
    case Num(n) => n != 0.0
    case Str(s) => s != []
    case List(xs) => xs != []
    case Dict(m) => m != map[]
  }

  /** Python's `a or b`: the first operand when it is truthy, else the second. */
  function Or(a: Value, b: Value): (r: Value)
    ensures Truthy(a) ==> r == a
    ensures !Truthy(a) ==> r == b
    ensures Truthy(r) <==> Truthy(a) || Truthy(b)
  {
    if Truthy(a) then a else b
  }

  /** Values Python can use as a dictionary key (lists and dicts cannot). */
  predicate Hashable(v: Value) {
    !v.List? && !v.Dict?
  }

  /** `d.get(key, default)` for a string key. */
  function GetOr(d: map<Value, Value>, key: string, default: Value): Value {
    if Str(key) in d then d[Str(key)] else default
  }

  /** `d.get(key)`: `None` when the key is absent. */
  function Get(d: map<Value, Value>, key: string): Value {
    GetOr(d, key, Null)
  }

  /** `key in d` for a string key. */
  predicate Has(d: map<Value, Value>, key: string) {
    Str(key) in d
  }
}
