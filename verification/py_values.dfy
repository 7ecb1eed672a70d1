/** Python-side vocabulary the server relies on: the JSON values a websocket
    message carries, Python truthiness and equality on them, `str()` of a
    value, and the exceptions the dispatcher can raise.

    A message (and the shared view `MESSAGE`) is a Python `dict` from field
    names to JSON values; here it is a `map<string, Value>`, so `dict.update`
    is the right-biased map union `+` and `dict.get(k, d)` is `GetOr`.
 */
module PyValues {

  /** The JSON scalars a message field can hold (`null`, booleans, integers,
      strings). */
  datatype Value = Null | Bool(b: bool) | Int(i: int) | Str(s: string)

  type Message = map<string, Value>

  /** The exceptions raised along the dispatch path. */
  datatype PyError =
    | KeyError(key: string)
    | TypeError
    | IndexError
    | AttributeError
      /** `validate_message` failed; the set holds the required keys that were
          absent (Python reports whichever it meets first). */
    | AssertionError(missing: set<string>)
    | ValueError

  /** A computation that either returns a value or raises. */
  datatype Result<T> = Ok(value: T) | Err(error: PyError)

  /** How a step ends: normally, or by raising. */
  datatype Outcome = Done | Raised(error: PyError)

  /** Python's `bool(v)`. */
  predicate Truthy(v: Value)
  {
    match v
    case Null => false
    case Bool(b) => b
    case Int(i) => i != 0
    case Str(s) => s != ""
  }

  /** Python's `==` on these values: `True == 1` and `False == 0` hold. */
  predicate PyEq(a: Value, b: Value)
  {
    match (a, b)
    case (Bool(x), Int(y)) => (if x then 1 else 0) == y
    case (Int(x), Bool(y)) => x == (if y then 1 else 0)
    case _ => a == b
  }

  /** `d.get(k, default)`. */
  function GetOr(m: Message, k: string, default: Value): (v: Value)
    ensures k in m ==> v == m[k]
    ensures k !in m ==> v == default
  {
    if k in m then m[k] else default
  }

  /** `d[k]`, which raises `KeyError` for a missing key. */
  function Lookup(m: Message, k: string): (r: Result<Value>)
    ensures r.Ok? <==> k in m
    ensures r.Ok? ==> r.value == m[k]
    ensures r.Err? ==> r.error == KeyError(k)
  {
    if k in m then Ok(m[k]) else Err(KeyError(k))
  }

  /** The decimal digits of a natural number, most significant first. */
  function NatToDecimal(n: nat): (r: string)
    ensures |r| > 0
    ensures forall i :: 0 <= i < |r| ==> '0' <= r[i] <= '9'
    decreases n
  {
    var d := ['0' + (n % 10) as char];
    if n < 10 then d else NatToDecimal(n / 10) + d
  }

  /** Python's `str(v)`, as an f-string applies it. */
  function PyStr(v: Value): string
  {
    match v
    case Null => "None"
    case Bool(b) => if b then "True" else "False"
    case Int(i) => if i < 0 then "-" + NatToDecimal(-i) else NatToDecimal(i)
    case Str(s) => s
  }
}
