/**
 * The parts of JavaScript's run-time semantics that the storefront's logic
 * depends on: dynamically typed request values, truthiness, the `number`
 * results of parsing, and the truncating remainder operator.
 */
module Js {

  /** A JSON-like request value as an Express handler receives it in `req.body`. */
  datatype Value =
    | Undefined
    | Null
    | Bool(b: bool)
    | Num(n: int)
    | Str(s: string)
    | Arr(elems: seq<Value>)
    | Obj(fields: seq<(string, Value)>)

  /** JavaScript truthiness: `undefined`, `null`, `false`, `0` and `""` are falsy, every array and object is truthy. */
  predicate Truthy(v: Value)
  {
    match v
    case Undefined => false
    case Null => false
    case Bool(b) => b
    case Num(n) => n != 0
    case Str(s) => s != ""
    case Arr(_) => true
    case Obj(_) => true
  }

  /** `x || fallback` */
  function OrElse(v: Value, fallback: Value): (r: Value)
    ensures Truthy(v) ==> r == v
    ensures !Truthy(v) ==> r == fallback
  {
    if Truthy(v) then v else fallback
  }

  /** A JavaScript `number` as produced by parsing: an integer or `NaN`. */
  datatype Number = Finite(n: int) | NaN

  /**
   * The host's conversions, which the model does not interpret: `parseFloat`, `parseInt`
   * and `new Date(v)` as a timestamp, `NaN` standing for an Invalid Date.
   */
  datatype Host = Host(parseFloat: Value -> Number, parseInt: Value -> Number, newDate: Value -> Number)

  /** `parseInt(v) || 0`: `NaN` and `0` both fall back to `0`. */
  function IntOrZero(x: Number): (r: int)
    ensures x.Finite? ==> r == x.n
    ensures x.NaN? ==> r == 0
  {
    match x
    case Finite(n) => n
    case NaN => 0
  }

  /** JavaScript's `a % n` on integers: the remainder truncates toward zero, so it takes the sign of `a`. */
  function Rem(a: int, n: int): (r: int)
    requires n != 0
    ensures a >= 0 ==> 0 <= r < (if n > 0 then n else -n)
    ensures a <= 0 ==> -(if n > 0 then n else -n) < r <= 0
    ensures exists q :: a == q * n + r
  {
    var m := if n > 0 then n else -n;
    var r := if a >= 0 then a % m else -((-a) % m);
    assert a == (if a >= 0 then a / m else -((-a) / m)) * m + r;
    assert n > 0 ==> a == (if a >= 0 then a / m else -((-a) / m)) * n + r;
    assert n < 0 ==> a == (if a >= 0 then -(a / m) else (-a) / m) * n + r;
    r
  }

  /** `a % n` as a JavaScript number: a remainder by zero is `NaN`. */
  function Remainder(a: int, n: int): (r: Number)
    ensures n == 0 <==> r.NaN?
    ensures n != 0 ==> r == Finite(Rem(a, n))
  {
    if n == 0 then NaN else Finite(Rem(a, n))
  }
}
