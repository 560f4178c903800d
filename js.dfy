/**
 * The JavaScript values that cross the library's interface: configuration
 * options, the arguments handed to callbacks, and the errors the store
 * reports. Only the coercions the library relies on are modelled: truthiness
 * (`if (err)`) and string conversion (`prefix + '/' + ns`).
 */
module Js {

  datatype Option<+T> = None | Some(value: T)

  /** A JavaScript value. `Obj` is a plain object reduced to its own properties. */
  datatype Value =
    | Undefined
    | Null
    | Bool(b: bool)
    | Num(n: int)
    | Str(s: string)
    | Obj(fields: map<string, Value>)

  /** The outcome of an operation that either yields a value or hands an error to its callback. */
  datatype Result<+T> = Ok(value: T) | Fail(err: Value)

  /** `obj.name`: the own property, or `undefined` when there is none. */
  function Prop(obj: map<string, Value>, name: string): Value
  {
    if name in obj then obj[name] else Undefined
  }

  /** The condition `if (v)` tests. */
  predicate Truthy(v: Value) {
    match v
    case Undefined => false
    case Null => false
    case Bool(b) => b
    case Num(n) => n != 0
    case Str(s) => s != ""
    case Obj(_) => true
  }

  function DigitChar(d: nat): (c: char)
    requires d < 10
    ensures '0' <= c <= '9'
    ensures c as int - '0' as int == d
  {
    "0123456789"[d]
  }

  /** The number a string of decimal digits denotes. */
  function DecimalValue(s: string): nat
    requires forall i :: 0 <= i < |s| ==> '0' <= s[i] <= '9'
    decreases |s|
  {
    if |s| == 0 then 0 else DecimalValue(s[..|s| - 1]) * 10 + (s[|s| - 1] as int - '0' as int)
  }

  /**
   * Decimal notation of a natural number: digits only, denoting `n`, with
   * no leading zero except for `0` itself.
   */
  function NatToString(n: nat): (s: string)
    ensures |s| >= 1
    ensures forall i :: 0 <= i < |s| ==> '0' <= s[i] <= '9'
    ensures DecimalValue(s) == n
    ensures s[0] == '0' <==> n == 0
  {
    if n < 10 then [DigitChar(n)] else NatToString(n / 10) + [DigitChar(n % 10)]
  }

  /** `String(v)`, the conversion `+` applies when one operand is a string. */
  function ToStr(v: Value): string {
    match v
    case Undefined => "undefined"
    case Null => "null"
    case Bool(b) => if b then "true" else "false"
    case Num(n) => if n < 0 then "-" + NatToString(-n) else NatToString(n)
    case Str(s) => s
    case Obj(_) => "[object Object]"
  }

  /** The error a JavaScript engine throws for an illegal operation, reduced to its name. */
  const TypeError: Value := Obj(map["name" := Str("TypeError")])
}
