/** Values of the JavaScript host that the inventory client runs on.

    Numbers carry NaN explicitly (infinities are not modelled), a record field or a
    JSON cell is a dynamically typed `Value`, and the host-library operations whose
    exact behaviour is not part of this model (Unicode case mapping, Vietnamese accent
    folding, locale collation, locale number formatting, number parsing and printing)
    are the fields of a `Lib` value passed to every operation that uses them. */
module Js {

  datatype Option<+T> = None | Some(value: T)

  /** A JavaScript number: NaN or a finite value. */
  datatype Num = NaN | Fin(val: real)

  /** A dynamically typed value, as found in a JSON cell or an object property. */
  datatype Value = Str(s: string) | Number(n: Num) | Bool(b: bool) | Null | Undefined

  /** The host-library operations the source calls, left uninterpreted. */
  datatype Lib = Lib(
    fold: string -> string,                 // accent folding of a non-empty string (normalize('NFD') + strip marks, đ -> d)
    lower: string -> string,                // String.prototype.toLowerCase
    upper: string -> string,                // String.prototype.toUpperCase
    localeCompare: (string, string) -> int, // localeCompare(b, 'vi', {numeric: true}); only its sign matters
    formatNumber: real -> string,           // Intl.NumberFormat('vi-VN').format
    numberOf: string -> Num,                // Number(string)
    parseFloat: string -> Num,              // parseFloat(string)
    numberText: real -> string              // String(number) for a finite number
  )

  /** JavaScript truthiness. */
  predicate Truthy(v: Value)
  {
    match v
    case Str(s) => s != ""
    case Number(n) => n.Fin? && n.val != 0.0
    case Bool(b) => b
    case Null => false
    case Undefined => false
  }

  predicate IsNullish(v: Value)
  {
    v.Null? || v.Undefined?
  }

  /** `String(v)`. */
  function ToString(lib: Lib, v: Value): string
  {
    match v
    case Str(s) => s
    case Number(NaN) => "NaN"
    case Number(Fin(r)) => lib.numberText(r)
    case Bool(b) => if b then "true" else "false"
    case Null => "null"
    case Undefined => "undefined"
  }

  /** `Number(v)`. */
  function ToNumber(lib: Lib, v: Value): Num
  {
    match v
    case Str(s) => lib.numberOf(s)
    case Number(n) => n
    case Bool(b) => Fin(if b then 1.0 else 0.0)
    case Null => Fin(0.0)
    case Undefined => NaN
  }

  /** `x || 0` for a number `x`: NaN and zero both give zero. */
  function OrZero(n: Num): (r: real)
    ensures n.Fin? ==> r == n.val
    ensures n.NaN? ==> r == 0.0
  {
    match n
    case NaN => 0.0
    case Fin(r) => r
  }

  /** The strict equality `a === b`; NaN is not equal to itself. */
  predicate StrictEquals(a: Value, b: Value)
  {
    match (a, b)
    case (Str(x), Str(y)) => x == y
    case (Number(Fin(x)), Number(Fin(y))) => x == y
    case (Bool(x), Bool(y)) => x == y
    case (Null, Null) => true
    case (Undefined, Undefined) => true
    case _ => false
  }

  /** `Math.ceil`. */
  function Ceil(x: real): (r: int)
    ensures x <= r as real < x + 1.0
  {
    -((-x).Floor)
  }

  /** The sign of a real, as the value a comparator hands back to `Array.prototype.sort`. */
  function Sign(r: real): (s: int)
    ensures s == -1 || s == 0 || s == 1
    ensures (s < 0 <==> r < 0.0) && (s > 0 <==> r > 0.0)
  {
    if r < 0.0 then -1 else if r > 0.0 then 1 else 0
  }

  /** The sign a comparator result `n` stands for; `sort` treats NaN as 0. */
  function NumSign(n: Num): int
  {
    match n
    case NaN => 0
    case Fin(r) => Sign(r)
  }

  /** `a - b` on numbers. */
  function Sub(a: Num, b: Num): (r: Num)
    ensures r.Fin? <==> a.Fin? && b.Fin?
  {
    if a.Fin? && b.Fin? then Fin(a.val - b.val) else NaN
  }
}
