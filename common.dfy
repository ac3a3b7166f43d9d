/** Values shared by every part of the model: optional values, results with an
    error, and the JSON values that Python's json module hands back. */
module Common {

  datatype Option<+T> = None | Some(value: T)

  datatype Result<+T, +E> = Ok(value: T) | Err(error: E)

  /** A JSON value as decoded into Python objects (numbers are limited to
      integers; objects are dicts). */
  datatype Json =
    | JNull
    | JBool(b: bool)
    | JNum(n: int)
    | JStr(s: string)
    | JArr(items: seq<Json>)
    | JObj(fields: map<string, Json>)

  /** `d.get(key, default)` on a dict: the stored value, or `default` when the
      key is absent (a stored null is returned as null, not replaced). */
  function GetOr(fields: map<string, Json>, key: string, default: Json): (r: Json)
    ensures key in fields ==> r == fields[key]
    ensures key !in fields ==> r == default
  {
    if key in fields then fields[key] else default
  }

  /** `d.get(key)`: a missing key reads as None. */
  function Get(fields: map<string, Json>, key: string): (r: Json)
    ensures r != JNull ==> key in fields && fields[key] == r
  {
    GetOr(fields, key, JNull)
  }

  /** Python truthiness of a decoded JSON value (`bool(x)`). */
  predicate Truthy(j: Json)
  {
    match j
    case JNull => false
    case JBool(b) => b
    case JNum(n) => n != 0
    case JStr(s) => s != ""
    case JArr(items) => items != []
    case JObj(fields) => fields != map[]
  }

  /** The name Python gives the type of a decoded JSON value, as it appears in
      an AttributeError message. */
  function TypeName(j: Json): string
  {
    match j
    case JNull => "NoneType"
    case JBool(_) => "bool"
    case JNum(_) => "int"
    case JStr(_) => "str"
    case JArr(_) => "list"
    case JObj(_) => "dict"
  }

  /** The AttributeError raised by calling `.get` on a decoded value that is not
      a dict. */
  function NoGetAttribute(j: Json): string
  {
    "'" + TypeName(j) + "' object has no attribute 'get'"
  }
}
