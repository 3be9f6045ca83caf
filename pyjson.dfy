/**
  Values produced by `json.loads` on the language model's replies, with the
  Python operations the core applies to them: truthiness, `dict.get`, `in`
  and numeric comparison.  Also the state of one key of a provider dictionary.
*/
module PyJson {
  import opened Wrappers
  import Text

  /** A parsed JSON value; integers and fractions are kept apart as Python keeps `int` and `float`. */
  datatype Json =
    | JNull
    | JBool(b: bool)
    | JInt(i: int)
    | JReal(r: real)
    | JStr(s: string)
    | JArr(items: seq<Json>)
    | JObj(fields: map<string, Json>)

  /** Python truthiness: `None`, `False`, zero, and empty strings, lists and dicts are falsy. */
  predicate Truthy(j: Json)
  {
    match j
    case JNull => false
    case JBool(b) => b
    case JInt(i) => i != 0
    case JReal(r) => r != 0.0
    case JStr(s) => s != []
    case JArr(xs) => xs != []
    case JObj(m) => m != map[]
  }

  /** `d.get(key, default)` on a dictionary. */
  function Get(m: map<string, Json>, key: string, default: Json): (v: Json)
    ensures key in m ==> v == m[key]
    ensures key !in m ==> v == default
  {
    if key in m then m[key] else default
  }

  /** The value as a Python number, or None when comparing it with a float raises `TypeError`. */
  function AsNumber(j: Json): (r: Option<real>)
    ensures r.Some? <==> (j.JBool? || j.JInt? || j.JReal?)
  {
    match j
    case JBool(b) => Some(if b then 1.0 else 0.0)
    case JInt(i) => Some(i as real)
    case JReal(x) => Some(x)
    case _ => None
  }

  /**
    Python `key in container` for a string key: key membership for a dict,
    substring search for a string, element equality for a list; None when
    the operator raises `TypeError` (numbers, booleans, None).
  */
  function PyIn(key: string, container: Json): (r: Option<bool>)
    ensures r.None? <==> !(container.JObj? || container.JStr? || container.JArr?)
    ensures container.JObj? ==> r == Some(key in container.fields)
  {
    match container
    case JObj(m) => Some(key in m)
    case JStr(s) => Some(Text.Contains(s, key))
    case JArr(xs) => Some(JStr(key) in xs)
    case _ => None
  }

  /** The state of one key in a dictionary whose values have a known type. */
  datatype Field<+T> = Absent | Null | Has(v: T)
  {
    /** `d.get(key)`, which reads an absent key and an explicit null alike as None. */
    function AsOption(): Option<T>
    {
      match this
      case Has(v) => Some(v)
      case _ => None
    }
  }
}
