/**
 The Python values the detection service handles: decoded JSON request bodies,
 detector results and response payloads, together with the few Python
 operations the request handlers apply to them (truthiness, `dict.get`,
 `v[key]`, `v[key] = x`) and the exceptions those operations raise.
 */
module Values {

  /** A decoded JSON value. `JNull` is Python's `None`; an object is a `dict`. */
  datatype Json =
    | JNull
    | JBool(b: bool)
    | JInt(i: int)
    | JReal(r: real)
    | JStr(s: string)
    | JList(items: seq<Json>)
    | JObj(fields: map<string, Json>)

  datatype Option<+T> = None | Some(value: T)

  /** A Python exception: its class and what `str(e)` shows. */
  datatype PyError =
    | TypeError(msg: string)
    | ValueError(msg: string)
    | AttributeError(msg: string)
    | KeyError(key: string)
    | OverflowError(msg: string)
    /** An exception raised by a collaborator; only its text is observable. */
    | Raised(text: string)

  /** Either the value a Python expression evaluates to or the exception it raises. */
  datatype Result<+T> = Ok(value: T) | Err(error: PyError)

  /** `str(e)`: a `KeyError` shows the quoted key, every other class its message. */
  function Str(e: PyError): string
  {
    match e
    case TypeError(m) => m
    case ValueError(m) => m
    case AttributeError(m) => m
    case KeyError(k) => Quote(k)
    case OverflowError(m) => m
    case Raised(t) => t
  }

  /** Python's `repr` of a string, without the escaping of quotes and control characters. */
  function Quote(s: string): (q: string)
    ensures |q| == |s| + 2 && q[0] == '\'' && q[|q| - 1] == '\''
  {
    "'" + s + "'"
  }

  /** `type(v).__name__` */
  function TypeName(v: Json): string
  {
    match v
    case JNull => "NoneType"
    case JBool(_) => "bool"
    case JInt(_) => "int"
    case JReal(_) => "float"
    case JStr(_) => "str"
    case JList(_) => "list"
    case JObj(_) => "dict"
  }

  /** `bool(v)`: None, False, zero, and empty strings, lists and dicts are false. */
  function Truthy(v: Json): (b: bool)
    ensures !b <==> v in {JNull, JBool(false), JInt(0), JReal(0.0), JStr(""), JList([]), JObj(map[])}
  {
    match v
    case JNull => false
    case JBool(b) => b
    case JInt(i) => i != 0
    case JReal(r) => r != 0.0
    case JStr(s) => s != ""
    case JList(xs) => xs != []
    case JObj(m) => m != map[]
  }

  /** The `AttributeError` of calling `.get` on a value of type `typeName`. */
  function NoGetError(typeName: string): PyError
  {
    AttributeError(Quote(typeName) + " object has no attribute 'get'")
  }

  /** `v.get(key, default)`: only a dict has a `get` method. */
  function Get(v: Json, key: string, default: Json): (r: Result<Json>)
    ensures r.Ok? <==> v.JObj?
    ensures r.Ok? && key in v.fields ==> r.value == v.fields[key]
    ensures r.Ok? && key !in v.fields ==> r.value == default
    ensures !v.JObj? ==> r == Err(NoGetError(TypeName(v)))
  {
    match v
    case JObj(m) => Ok(if key in m then m[key] else default)
    case _ => Err(NoGetError(TypeName(v)))
  }

  /** `v[key]` for a string key. */
  function Subscript(v: Json, key: string): (r: Result<Json>)
    ensures r.Ok? <==> v.JObj? && key in v.fields
    ensures r.Ok? ==> r.value == v.fields[key]
    ensures v.JObj? && key !in v.fields ==> r == Err(KeyError(key))
  {
    match v
    case JObj(m) => if key in m then Ok(m[key]) else Err(KeyError(key))
    case JList(_) => Err(TypeError("list indices must be integers or slices, not str"))
    case JStr(_) => Err(TypeError("string indices must be integers, not 'str'"))
    case _ => Err(TypeError(Quote(TypeName(v)) + " object is not subscriptable"))
  }

  /** `v[key] = x` for a string key: a dict gains or overwrites `key`, nothing else can be assigned to. */
  function SetItem(v: Json, key: string, x: Json): (r: Result<Json>)
    ensures r.Ok? <==> v.JObj?
    ensures r.Ok? ==> r.value.JObj? && r.value.fields.Keys == v.fields.Keys + {key}
    ensures r.Ok? ==> r.value.fields[key] == x
    ensures r.Ok? ==> forall k :: k in v.fields && k != key ==> r.value.fields[k] == v.fields[k]
  {
    match v
    case JObj(m) => Ok(JObj(m[key := x]))
    case JList(_) => Err(TypeError("list indices must be integers or slices, not str"))
    case _ => Err(TypeError(Quote(TypeName(v)) + " object does not support item assignment"))
  }

  /** The "undetermined" score every failure payload carries in place of a real one. */
  const Neutral: Json := JReal(0.5)

  /** What `request.json` evaluates to: the decoded body (`JNull` when it is `None`) or an exception. */
  datatype RequestJson = Parsed(data: Json) | ParseRaises(msg: string)

  /** An HTTP response: a status code and the JSON payload `jsonify` renders. */
  datatype Response = Response(status: int, body: Json)

  /** `{"error": msg}` */
  function ErrorBody(msg: string): Json
  {
    JObj(map["error" := JStr(msg)])
  }

  /** `{"error": msg, "ai_probability": 0.5}` */
  function NeutralErrorBody(msg: string): Json
  {
    JObj(map["error" := JStr(msg), "ai_probability" := Neutral])
  }

  /** The error text of a payload built by `ErrorBody` or `NeutralErrorBody`. */
  predicate HasError(body: Json, msg: string)
  {
    body.JObj? && "error" in body.fields && body.fields["error"] == JStr(msg)
  }

  /** The error text of a payload starts with `prefix`. */
  predicate ErrorStartsWith(body: Json, prefix: string)
  {
    && body.JObj? && "error" in body.fields && body.fields["error"].JStr?
    && prefix <= body.fields["error"].s
  }

  /** The payload reports the neutral score. */
  predicate IsNeutral(body: Json)
  {
    body.JObj? && "ai_probability" in body.fields && body.fields["ai_probability"] == Neutral
  }
}
