/** Decoded JSON values, which also stand for the Python values the client passes
    around (`None` is `JNull`), and the Python operations the core applies to them:
    truthiness, `d[key]`, `d.get(key, default)`, iteration, `x[0]`, `int(x)`,
    `x <= n` and `str(n)`. */
module Json {
  import opened Wrappers
  import opened Chars

  datatype Value =
    | JNull
    | JBool(b: bool)
    | JInt(i: int)
    | JStr(s: string)
    | JList(items: seq<Value>)
    | JObject(fields: map<string, Value>)

  /** The exceptions the modelled code raises or lets through. */
  datatype Error =
    | HttpError(status: int)
    | KeyError(key: Value)
    | IndexError
    | TypeError
    | AttributeError(name: string)
    | ValueError

  /** An instance's attribute dictionary, or a JSON object's fields. */
  type Dict = map<string, Value>

  /** Python truthiness: `None`, `False`, `0` and empty strings, lists and dicts are false. */
  predicate Truthy(v: Value) {
    match v
    case JNull => false
    case JBool(b) => b
    case JInt(i) => i != 0
    case JStr(s) => s != []
    case JList(xs) => xs != []
    case JObject(m) => m != map[]
  }

  /** `v[key]` with a string key: a `KeyError` on a dict without it, a `TypeError` on anything else. */
  function Index(v: Value, key: string): (r: Result<Value, Error>)
    ensures r.Success? <==> v.JObject? && key in v.fields
    ensures r.Success? ==> r.value == v.fields[key]
    ensures r.Failure? && v.JObject? ==> r.error == KeyError(JStr(key))
  {
    match v
    case JObject(m) => if key in m then Success(m[key]) else Failure(KeyError(JStr(key)))
    case _ => Failure(TypeError)
  }

  /** `v.get(key, default)`: only dicts have `get`. */
  function Get(v: Value, key: string, default: Value): (r: Result<Value, Error>)
    ensures r.Success? <==> v.JObject?
    ensures r.Success? ==> r.value == if key in v.fields then v.fields[key] else default
  {
    match v
    case JObject(m) => Success(if key in m then m[key] else default)
    case _ => Failure(AttributeError("get"))
  }

  /** `for item in v`: a list yields its elements and a string its characters. */
  function Iterate(v: Value): (r: Result<seq<Value>, Error>)
    ensures r.Success? <==> v.JList? || v.JStr?
    ensures v.JList? ==> r == Success(v.items)
    ensures v.JStr? ==> |r.value| == |v.s| && forall i :: 0 <= i < |v.s| ==> r.value[i] == JStr([v.s[i]])
  {
    match v
    case JList(xs) => Success(xs)
    case JStr(s) => Success(seq(|s|, i requires 0 <= i < |s| => JStr([s[i]])))
    case _ => Failure(TypeError)
  }

  /** `v[0]`: the first element of a list or character of a string. A JSON object has
      only string keys, so indexing it with the int 0 raises `KeyError(0)`. */
  function First(v: Value): (r: Result<Value, Error>)
    ensures r.Success? <==> (v.JList? && v.items != []) || (v.JStr? && v.s != [])
    ensures v.JList? && v.items != [] ==> r == Success(v.items[0])
    ensures v.JStr? && v.s != [] ==> r == Success(JStr([v.s[0]]))
    ensures r.Failure? ==> r.error == (if v.JObject? then KeyError(JInt(0))
                                       else if v.JList? || v.JStr? then IndexError else TypeError)
  {
    match v
    case JList(xs) => if xs == [] then Failure(IndexError) else Success(xs[0])
    case JStr(s) => if s == [] then Failure(IndexError) else Success(JStr([s[0]]))
    case JObject(_) => Failure(KeyError(JInt(0)))
    case _ => Failure(TypeError)
  }

  /** `v <= n` for an `int` `n`: only numbers (and booleans, which are numbers) compare. */
  function AtMost(v: Value, n: int): (r: Result<bool, Error>)
    ensures r.Success? <==> v.JInt? || v.JBool?
    ensures v.JInt? ==> r == Success(v.i <= n)
    ensures v.JBool? ==> r == Success(if v.b then n >= 1 else n >= 0)
  {
    match v
    case JInt(i) => Success(i <= n)
    case JBool(b) => Success((if b then 1 else 0) <= n)
    case _ => Failure(TypeError)
  }

  /** Python's `str(n)` for an integer. */
  function IntString(n: int): (s: string)
    ensures s != []
    ensures n >= 0 <==> s[0] != '-'
  {
    if n < 0 then "-" + NatString(-n) else NatString(n)
  }

  /** Python's `int(s)` for a string: an optional sign, then one or more ASCII digits. */
  function ParseInt(s: string): (r: Result<int, Error>)
    ensures r.Success? <==> s != [] && (AllDigits(s) || (s[0] in "+-" && |s| > 1 && AllDigits(s[1..])))
    ensures r.Success? && AllDigits(s) ==> r.value == DigitsValue(s)
    ensures r.Success? && s[0] == '+' ==> r.value == DigitsValue(s[1..])
    ensures r.Success? && s[0] == '-' ==> r.value == -(DigitsValue(s[1..]) as int)
    ensures r.Failure? ==> r.error == ValueError
  {
    if s != [] && (s[0] == '-' || s[0] == '+') then
      var digits := s[1..];
      if digits != [] && AllDigits(digits) then
        var magnitude: int := DigitsValue(digits);
        Success(if s[0] == '-' then -magnitude else magnitude)
      else Failure(ValueError)
    else if s != [] && AllDigits(s) then Success(DigitsValue(s))
    else Failure(ValueError)
  }

  /** Python's `int(v)`. */
  function ToInt(v: Value): (r: Result<int, Error>)
    ensures r.Success? <==> v.JInt? || v.JBool? || (v.JStr? && ParseInt(v.s).Success?)
    ensures v.JInt? ==> r == Success(v.i)
    ensures v.JBool? ==> r == Success(if v.b then 1 else 0)
    ensures v.JStr? ==> r == ParseInt(v.s)
  {
    match v
    case JInt(i) => Success(i)
    case JBool(b) => Success(if b then 1 else 0)
    case JStr(s) => ParseInt(s)
    case _ => Failure(TypeError)
  }
}
