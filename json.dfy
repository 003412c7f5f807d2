/** Decoded JSON values as `json.loads` returns them, with Python's notions of
    truthiness and `str()` on them. */
module Json {

  import opened Common
  import opened Text

  datatype JValue =
    | JNull
    | JBool(b: bool)
    | JInt(i: int)
    | JFloat(x: real)
    | JStr(s: string)
    | JList(items: seq<JValue>)
    | JObject(fields: map<string, JValue>)

  /** `not v` for a decoded value: None, False, 0, 0.0, "", [] and {} are falsy. */
  predicate Falsy(v: JValue)
  {
    match v
    case JNull => true
    case JBool(b) => !b
    case JInt(i) => i == 0
    case JFloat(x) => x == 0.0
    case JStr(s) => s == ""
    case JList(items) => |items| == 0
    case JObject(fields) => |fields| == 0
  }

  /** `not d.get(k)`: an absent key is falsy too. */
  predicate FalsyOpt(v: Option<JValue>)
  {
    v.None? || Falsy(v.value)
  }

  /** `isinstance(v, int)`: Python's `bool` is a subclass of `int`. */
  predicate IsInt(v: JValue)
  {
    v.JInt? || v.JBool?
  }

  /** The integer value of an `int` (a bool counts as 0 or 1). */
  function IntValue(v: JValue): (r: int)
    requires IsInt(v)
    ensures v.JInt? ==> r == v.i
    ensures v.JBool? ==> r == (if v.b then 1 else 0)
  {
    if v.JInt? then v.i else if v.b then 1 else 0
  }

  /** `str(v)`. Floats, lists and objects print through `repr`, the
      interpreter's own formatting. */
  function PyStr(v: JValue, repr: JValue -> string): (r: string)
    ensures v.JStr? ==> r == v.s
    ensures v.JInt? ==> r == IntToString(v.i)
    ensures v.JNull? ==> r == "None"
  {
    match v
    case JNull => "None"
    case JBool(b) => if b then "True" else "False"
    case JInt(i) => IntToString(i)
    case JStr(s) => s
    case _ => repr(v)
  }
}
