/**
 * The inbound notification as the JSON decoder hands it over: a tree of
 * values whose objects behave like Python dictionaries, and the `.get`
 * lookups with fallback defaults that every handler is built from.
 */
module Json {

  /** A decoded JSON value. Numbers are integers only (see README, "Left out"). */
  datatype Value =
    | Null
    | Bool(b: bool)
    | Int(i: int)
    | Str(s: string)
    | Array(items: seq<Value>)
    | Object(fields: map<string, Value>)

  /** `obj.get(key, default)` on a dictionary. */
  function Get(obj: map<string, Value>, key: string, default: Value): (v: Value)
    ensures key in obj ==> v == obj[key]
    ensures key !in obj ==> v == default
  {
    if key in obj then obj[key] else default
  }

  /** Python's truth value of a decoded JSON value, as used by `if value:`. */
  function Truthy(v: Value): (b: bool)
    ensures !b <==> v in [Null, Bool(false), Int(0), Str(""), Array([]), Object(map[])]
  {
    match v
    case Null => false
    case Bool(b) => b
    case Int(i) => i != 0
    case Str(s) => s != []
    case Array(items) => items != []
    case Object(fields) => fields != map[]
  }

  /** `obj.get(key, default)` for a field holding a string. */
  function GetString(obj: map<string, Value>, key: string, default: string): (s: string)
    ensures key !in obj ==> s == default
    ensures key in obj && obj[key].Str? ==> s == obj[key].s
    ensures key in obj && !obj[key].Str? ==> s == default
  {
    match Get(obj, key, Str(default))
    case Str(s) => s
    case _ => default
  }

  /** `obj.get(key, default)` for a field holding an integer. */
  function GetInt(obj: map<string, Value>, key: string, default: int): (n: int)
    ensures key !in obj ==> n == default
    ensures key in obj && obj[key].Int? ==> n == obj[key].i
    ensures key in obj && !obj[key].Int? ==> n == default
  {
    match Get(obj, key, Int(default))
    case Int(n) => n
    case _ => default
  }

  /** `obj.get(key, {})` for a field holding a nested object. */
  function GetObject(obj: map<string, Value>, key: string): (m: map<string, Value>)
    ensures key !in obj ==> m == map[]
    ensures key in obj && obj[key].Object? ==> m == obj[key].fields
    ensures key in obj && !obj[key].Object? ==> m == map[]
  {
    match Get(obj, key, Object(map[]))
    case Object(m) => m
    case _ => map[]
  }
}
