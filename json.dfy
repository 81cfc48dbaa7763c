/**
 * The dynamically typed values the handlers receive and send: decoded JSON,
 * with Python's truthiness, `in`, indexing, `int()` and `>` on them, and the
 * library codecs the handlers call, which the model takes as given functions.
 */
module JsonValue {
  import opened Wrappers
  import opened Text

  /** A decoded JSON document. JSON numbers are integers here; floats are not modelled. */
  datatype Json =
    | JNull
    | JBool(b: bool)
    | JInt(i: int)
    | JStr(s: string)
    | JArr(items: seq<Json>)
    | JObj(fields: map<string, Json>)

  /** Python's `bool(v)`. */
  predicate Truthy(v: Json) {
    match v
    case JNull => false
    case JBool(b) => b
    case JInt(i) => i != 0
    case JStr(s) => s != ""
    case JArr(items) => items != []
    case JObj(fields) => fields != map[]
  }

  /**
   * Python's `key in v`: dictionary membership, list membership, substring
   * test on a string; `None` where Python raises TypeError.
   */
  function PyIn(key: string, v: Json): Option<bool> {
    match v
    case JObj(fields) => Some(key in fields)
    case JArr(items) => Some(JStr(key) in items)
    case JStr(s) => Some(Contains(s, key))
    case _ => None
  }

  /** Python's `v[key]` with a string key; `None` where Python raises KeyError or TypeError. */
  function Field(v: Json, key: string): Option<Json> {
    if v.JObj? && key in v.fields then Some(v.fields[key]) else None
  }

  /**
   * Python's `v[key]` with a string key, with the exception it raises:
   * KeyError, whose text is the quoted key, or TypeError.
   */
  function Index(v: Json, key: string): (r: Result<Json>)
    ensures r.Ok? <==> Field(v, key).Some?
    ensures r.Ok? ==> r.value == Field(v, key).value
    ensures v.JObj? && key !in v.fields ==> r == Err("'" + key + "'")
  {
    if !v.JObj? then Err("TypeError: the value cannot be indexed by '" + key + "'")
    else if key in v.fields then Ok(v.fields[key])
    else Err("'" + key + "'")
  }

  /** Python's `d.get(key, default)` on a dictionary. */
  function GetOr(fields: map<string, Json>, key: string, default: Json): Json {
    if key in fields then fields[key] else default
  }

  /** Python's `int(v)`; `None` where Python raises. */
  function PyInt(v: Json): Option<int> {
    match v
    case JInt(i) => Some(i)
    case JBool(b) => Some(if b then 1 else 0)
    case JStr(s) => ParseInt(s)
    case _ => None
  }

  /** Python's `v > n` for an integer `n`; `None` where Python raises TypeError. */
  function PyGreater(v: Json, n: int): Option<bool> {
    match v
    case JInt(i) => Some(i > n)
    case JBool(b) => Some((if b then 1 else 0) > n)
    case _ => None
  }

  /**
   * What `for x in v` visits: list items and string characters; `None` where
   * Python raises TypeError. A dictionary yields its keys in insertion order,
   * which a `map` does not keep: an empty one yields nothing and a non-empty
   * one is treated as a failure.
   */
  function Iterate(v: Json): Option<seq<Json>> {
    match v
    case JArr(items) => Some(items)
    case JStr(s) => Some(seq(|s|, i requires 0 <= i < |s| => JStr([s[i]])))
    case JObj(fields) => if fields == map[] then Some([]) else None
    case _ => None
  }

  /**
   * The library functions the handlers call, as given functions:
   * `json.loads`, `bytes.decode("utf-8")`, `json.dumps`,
   * `urllib.parse.unquote`, `float()` and `repr` of a list or dictionary.
   */
  datatype Codecs = Codecs(
    loads: string -> Result<Json>,
    decodeUtf8: seq<byte> -> Result<string>,
    dumps: Json -> string,
    unquote: string -> string,
    parseFloat: string -> Option<real>,
    reprContainer: Json -> string)

  /** What an f-string writes for a value: `str(v)`. */
  function Render(codecs: Codecs, v: Json): string {
    match v
    case JStr(s) => s
    case JInt(i) => IntToString(i)
    case JBool(b) => if b then "True" else "False"
    case JNull => "None"
    case _ => codecs.reprContainer(v)
  }

  /** One JSON object with string fields, as the handlers build response bodies. */
  function Message(key: string, text: string): Json {
    JObj(map[key := JStr(text)])
  }
}
