/**
 * The slice of PHP's value semantics that the YoutubeExtra code relies on:
 * truthiness (`if ($id)`, `!$status`), `isset`, `is_array`/`count`,
 * `array_key_exists` on nested arrays, and the conversion to string done by
 * the `.` operator.
 */
module Php {

  /**
   * A PHP value. String-keyed arrays are `Arr`, list arrays are `List`;
   * floats and objects other than the response records of the list decoder
   * are not needed by the code that is modelled. An absent object property
   * reads as `Null`, exactly as PHP reads it (with a notice).
   */
  datatype Value =
    | Null
    | Bool(b: bool)
    | Int(i: int)
    | Str(s: string)
    | Arr(entries: map<string, Value>)
    | List(elems: seq<Value>)

  /** PHP's conversion to boolean, as used by `if ($v)` and `!$v`. */
  predicate Truthy(v: Value) {
    match v
    case Null => false
    case Bool(b) => b
    case Int(i) => i != 0
    case Str(s) => s != "" && s != "0"
    case Arr(m) => |m| != 0
    case List(xs) => |xs| != 0
  }

  /** `isset($v)`: the value exists and is not null. */
  predicate Isset(v: Value) {
    !v.Null?
  }

  /** `isset($m[$k])` on a string-keyed array. */
  predicate IssetKey(m: map<string, Value>, k: string) {
    k in m && Isset(m[k])
  }

  /** `is_array($v)`. */
  predicate IsArray(v: Value) {
    v.Arr? || v.List?
  }

  /** `count($v)` for an array. */
  function Count(v: Value): nat
    requires IsArray(v)
  {
    if v.Arr? then |v.entries| else |v.elems|
  }

  /**
   * The keys `array_key_exists($k, $v)` finds in `$v`. A value that is not a
   * string-keyed array has none (PHP 7 warns and answers null, which is falsy).
   */
  function Entries(v: Value): map<string, Value> {
    if v.Arr? then v.entries else map[]
  }

  /** The character of one decimal digit. */
  function DigitChar(d: nat): (c: char)
    requires d < 10
    ensures '0' <= c <= '9' && (c as int) - ('0' as int) == d
  {
    (('0' as int) + d) as char
  }

  predicate IsDigits(s: string) {
    forall i :: 0 <= i < |s| ==> '0' <= s[i] <= '9'
  }

  /** The decimal notation PHP prints for a non-negative integer. */
  function NatToString(n: nat): (s: string)
    ensures |s| >= 1 && IsDigits(s)
    ensures |s| > 1 ==> s[0] != '0'
    decreases n
  {
    if n < 10 then [DigitChar(n)] else NatToString(n / 10) + [DigitChar(n % 10)]
  }

  /** The number a string of decimal digits denotes. */
  function DigitsValue(s: string): nat
    requires IsDigits(s)
  {
    if |s| == 0 then 0
    else DigitsValue(s[..|s| - 1]) * 10 + ((s[|s| - 1] as int) - ('0' as int))
  }

  /** Printing a number and reading the digits back gives the number. */
  lemma {:induction false} NatToStringRoundTrip(n: nat)
    ensures DigitsValue(NatToString(n)) == n
    decreases n
  {
    if n >= 10 {
      var s := NatToString(n);
      NatToStringRoundTrip(n / 10);
      assert s[..|s| - 1] == NatToString(n / 10);
    }
  }

  /** The decimal notation PHP prints for an integer. */
  function IntToString(i: int): string {
    if i < 0 then "-" + NatToString(-i) else NatToString(i)
  }

  /** What the string concatenation operator `.` makes of a value. */
  function ToPhpString(v: Value): string {
    match v
    case Null => ""
    case Bool(b) => if b then "1" else ""
    case Int(i) => IntToString(i)
    case Str(s) => s
    case Arr(_) => "Array"
    case List(_) => "Array"
  }
}
