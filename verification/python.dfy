/** The slice of Python's runtime the application relies on: decoded JSON
    values, truthiness, the `in` operator and `[]` subscripting on them, and
    the exceptions those raise. */
module Python {
  import opened Wrappers

  /** A value produced by `json.loads` (floats are not modelled). Objects are
      maps: key order never matters to the code modelled here. */
  datatype Json =
    | JNull
    | JBool(b: bool)
    | JInt(i: int)
    | JStr(s: string)
    | JArr(items: seq<Json>)
    | JObj(fields: map<string, Json>)

  /** The exceptions the modelled code raises or lets escape. */
  datatype PyError =
    | KeyError(key: string)
    | TypeError(reason: string)
    | AttributeError(reason: string)
    | ValueError(reason: string)
    | ValidationError(message: string)
    | IntegrityError(reason: string)
    | TransportError(reason: string)

  /** Python's `bool(v)`. */
  predicate Truthy(v: Json) {
    match v
    case JNull => false
    case JBool(b) => b
    case JInt(i) => i != 0
    case JStr(s) => s != ""
    case JArr(items) => items != []
    case JObj(fields) => fields != map[]
  }

  /** Python's `key in container` for a string key: dictionary membership,
      substring test on a string, element test on a list; a TypeError for
      every other value. */
  function Contains(container: Json, key: string): (r: Result<bool, PyError>)
    ensures container.JObj? ==> r == Ok(key in container.fields)
    ensures r.Err? <==> !(container.JObj? || container.JStr? || container.JArr?)
  {
    match container
    case JObj(fields) => Ok(key in fields)
    case JStr(s) => Ok(exists i, j :: 0 <= i <= j <= |s| && s[i..j] == key)
    case JArr(items) => Ok(JStr(key) in items)
    case _ => Err(TypeError("argument is not iterable"))
  }

  /** Python's `container[key]` for a string key: only a dictionary that
      holds the key yields a value. */
  function Subscript(container: Json, key: string): (r: Result<Json, PyError>)
    ensures r.Ok? <==> container.JObj? && key in container.fields
    ensures r.Ok? ==> r.value == container.fields[key]
  {
    match container
    case JObj(fields) => if key in fields then Ok(fields[key]) else Err(KeyError(key))
    case _ => Err(TypeError("indices must be integers"))
  }
}
