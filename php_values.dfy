/**
  PHP values as the 2FA sensor sees them, and the few language built-ins the
  sensor relies on: `empty()`, `isset()`, reading a missing array key,
  `?? ''`, and `implode()`.
 */
module PhpValues {

  /** A PHP value. Floats and objects never reach the sensor's comparisons and are not modelled;
      a PHP list (an array with keys 0..n-1) is a `List`. Structural equality is PHP's `===`. */
  datatype Value = Null | Bool(b: bool) | Int(i: int) | Str(s: string) | List(items: seq<Value>)

  /** The outcome of an expression that may throw a PHP `TypeError`. */
  datatype Result<T> = Ok(value: T) | TypeError(message: string)

  datatype Option<T> = None | Some(value: T)

  /** An associative PHP array with string keys: an option value, the `$_REQUEST` superglobal, a cache. */
  type Record = map<string, Value>

  /** PHP's `empty()`: false, 0, "", "0", null and the empty array are empty. */
  predicate IsEmpty(v: Value)
    ensures IsEmpty(v) <==> v in {Null, Bool(false), Int(0), Str(""), Str("0"), List([])}
  {
    match v
    case Null => true
    case Bool(b) => !b
    case Int(i) => i == 0
    case Str(s) => s == "" || s == "0"
    case List(items) => items == []
  }

  /** `$r[$key]` read without a guard: a missing key reads as null (PHP only warns). */
  function Get(r: Record, key: string): Value {
    if key in r then r[key] else Null
  }

  /** PHP's `isset($r[$key])`: the key is present and its value is not null. */
  predicate IsSet(r: Record, key: string)
    ensures IsSet(r, key) <==> key in r && r[key] != Null
  {
    Get(r, key) != Null
  }

  /** PHP's `$r[$key] ?? $default`. */
  function Coalesce(r: Record, key: string, default: Value): (v: Value)
    ensures IsSet(r, key) ==> v == r[key]
    ensures !IsSet(r, key) ==> v == default
  {
    if IsSet(r, key) then r[key] else default
  }

  function DigitChar(d: int): char
    requires 0 <= d < 10
  {
    "0123456789"[d]
  }

  function NatToDecimal(n: nat): string
    decreases n
  {
    if n < 10 then [DigitChar(n)] else NatToDecimal(n / 10) + [DigitChar(n % 10)]
  }

  /** PHP's conversion of an integer to its decimal string. */
  function IntToDecimal(i: int): string {
    if i < 0 then "-" + NatToDecimal(-i) else NatToDecimal(i)
  }

  /** PHP's conversion of an array element to a string inside `implode()`:
      true is "1", false and null are "", a nested array is "Array" (with a warning). */
  function ToPhpString(v: Value): string {
    match v
    case Null => ""
    case Bool(b) => if b then "1" else ""
    case Int(i) => IntToDecimal(i)
    case Str(s) => s
    case List(_) => "Array"
  }

  /** The strings of the elements of a list, in order. */
  function ElementStrings(items: seq<Value>): (r: seq<string>)
    ensures |r| == |items|
    ensures forall k :: 0 <= k < |items| ==> r[k] == ToPhpString(items[k])
  {
    seq(|items|, k requires 0 <= k < |items| => ToPhpString(items[k]))
  }

  /** The parts written one after the other with `sep` between two neighbours. */
  function Join(sep: string, parts: seq<string>): string
    decreases |parts|
  {
    if |parts| == 0 then ""
    else if |parts| == 1 then parts[0]
    else parts[0] + sep + Join(sep, parts[1..])
  }

  /** PHP 8's `implode($sep, $v)`: an array is joined; any other value is a `TypeError`. */
  function Implode(sep: string, v: Value): (r: Result<string>)
    ensures r.Ok? <==> v.List?
    ensures v.List? ==> r.value == Join(sep, ElementStrings(v.items))
  {
    match v
    case List(items) => Ok(Join(sep, ElementStrings(items)))
    case _ => TypeError("implode(): Argument #2 ($array) must be of type ?array")
  }
}
