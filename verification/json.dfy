/**
  * Decoded JSON values as the Python drafts see them after `json.loads`,
  * the Python runtime operations on them that the drafts use (`dict.get`,
  * the `in` operator, truthiness), and the exceptions those operations
  * raise on values of the wrong shape.
  *
  * JSON text itself is not modelled: `Runtime` carries `json.loads`,
  * `json.dumps`, `str()` and the decoder's error text as function values,
  * and `Sound` states the only facts about them the proofs rely on.
  */
module JsonValue {
  import opened Wrappers
  import Text

  /** A decoded JSON value. Numbers are integers (floating point is not
      modelled); objects are Python dicts keyed by string. */
  datatype Json =
    | JNull
    | JBool(b: bool)
    | JNum(n: int)
    | JStr(s: string)
    | JArr(items: seq<Json>)
    | JObj(fields: map<string, Json>)

  /** The Python runtime's JSON and text conversions. */
  datatype Runtime = Runtime(
    loads: string -> Option<Json>,   // json.loads; None when it raises JSONDecodeError
    dumps: Json -> string,           // json.dumps with default settings
    str: Json -> string,             // str(value), as used by f-strings
    decodeError: string -> string)   // str(e) of the JSONDecodeError raised for a text

  /** What the proofs assume of the runtime: `loads` reads back what `dumps`
      wrote, `dumps` (without `indent`) never writes a newline, and `str` of
      a string is the string itself. */
  ghost predicate Sound(rt: Runtime) {
    && (forall j :: rt.loads(rt.dumps(j)) == Some(j))
    && (forall j :: '\n' !in rt.dumps(j))
    && (forall s :: rt.str(JStr(s)) == s)
  }

  /** Python's `d.get(key, default)`. */
  function Get(fields: map<string, Json>, key: string, default: Json): Json {
    if key in fields then fields[key] else default
  }

  /** Python's truthiness of a decoded value (`x or default`, `if x:`). */
  predicate Truthy(j: Json) {
    match j
    case JNull => false
    case JBool(b) => b
    case JNum(n) => n != 0
    case JStr(s) => s != ""
    case JArr(a) => a != []
    case JObj(m) => m != map[]
  }

  /** Python's type name of a decoded value. */
  function TypeName(j: Json): string {
    match j
    case JNull => "NoneType"
    case JBool(_) => "bool"
    case JNum(_) => "int"
    case JStr(_) => "str"
    case JArr(_) => "list"
    case JObj(_) => "dict"
  }

  /** Python exceptions raised by the drafts' own code on decoded values. */
  datatype Fault =
    | Undecodable(text: string)              // json.JSONDecodeError
    | MissingKey(key: string)                // KeyError from d[key]
    | NotSubscriptable(value: Json)          // TypeError from value[key], value not a dict
    | NoAttribute(value: Json, attr: string) // AttributeError, e.g. list.get
    | NotIterable(value: Json)               // TypeError from `key in value`

  /** `str(e)` of the exception, in CPython 3.11's wording. */
  function FaultText(rt: Runtime, f: Fault): string {
    match f
    case Undecodable(t) => rt.decodeError(t)
    case MissingKey(k) => "'" + k + "'"
    case NotSubscriptable(v) =>
      if v.JArr? then "list indices must be integers or slices, not str"
      else if v.JStr? then "string indices must be integers, not 'str'"
      else "'" + TypeName(v) + "' object is not subscriptable"
    case NoAttribute(v, a) => "'" + TypeName(v) + "' object has no attribute '" + a + "'"
    case NotIterable(v) => "argument of type '" + TypeName(v) + "' is not iterable"
  }

  /** Python's `value[key]` with a string key. */
  function Subscript(value: Json, key: string): (r: Result<Json, Fault>)
    ensures r.Ok? <==> value.JObj? && key in value.fields
    ensures r.Ok? ==> r.value == value.fields[key]
  {
    match value
    case JObj(m) => if key in m then Ok(m[key]) else Err(MissingKey(key))
    case _ => Err(NotSubscriptable(value))
  }

  /** Python's `key in container` for a string key: dict keys, list
      elements, substrings; any other type raises. */
  function Contains(container: Json, key: string): (r: Result<bool, Fault>)
    ensures r.Err? <==> (container.JNull? || container.JBool? || container.JNum?)
    ensures container.JObj? ==> r == Ok(key in container.fields)
    ensures container.JArr? ==> r == Ok(JStr(key) in container.items)
  {
    match container
    case JObj(m) => Ok(key in m)
    case JArr(a) => Ok(JStr(key) in a)
    case JStr(s) => Ok(Text.IsSubstring(key, s))
    case _ => Err(NotIterable(container))
  }

  /** Reaching a dict's `.get` after testing `"error" in value`, as both
      reply classifiers do: non-dicts raise at the `in` test or at `.get`. */
  function AsDict(value: Json): (r: Result<map<string, Json>, Fault>)
    ensures r.Ok? <==> value.JObj?
    ensures r.Ok? ==> r.value == value.fields
  {
    match value
    case JObj(m) => Ok(m)
    case JArr(_) => Err(NoAttribute(value, "get"))
    case JStr(_) => Err(NoAttribute(value, "get"))
    case _ => Err(NotIterable(value))
  }
}
