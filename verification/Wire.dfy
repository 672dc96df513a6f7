/** Values as they arrive from outside: optional results and untyped message fields. */
module Wire {
  datatype Option<+T> = None | Some(value: T)

  datatype Result<+T, +E> = Ok(value: T) | Err(error: E)

  /** One field of a decoded message, with the distinctions the validators make.
      `Text` carries the number that `float()` reads from it, when it reads a finite one;
      `NonFinite` is a float that is infinite or not a number. */
  datatype Value =
    | Absent
    | Bool(flag: bool)
    | Int(whole: int)
    | Float(decimal: real)
    | NonFinite
    | Text(text: string, number: Option<real>)
    | Other

  function Min(a: real, b: real): (r: real)
    ensures r <= a && r <= b && (r == a || r == b)
  {
    if a <= b then a else b
  }

  function Max(a: real, b: real): (r: real)
    ensures r >= a && r >= b && (r == a || r == b)
  {
    if a >= b then a else b
  }

  function Abs(a: real): (r: real)
    ensures r >= 0.0 && (r == a || r == -a)
  {
    if a >= 0.0 then a else -a
  }

  /** `max(low, min(x, high))`. */
  function Clamp(x: real, low: real, high: real): (r: real)
    requires low <= high
    ensures low <= r <= high
    ensures low <= x <= high ==> r == x
  {
    Max(low, Min(x, high))
  }

  /** `float(value)` followed by the finiteness test; booleans are refused. */
  function FiniteNumber(v: Value): Option<real> {
    match v
    case Int(i) => Some(i as real)
    case Float(f) => Some(f)
    case Text(_, number) => number
    case _ => None
  }

  /** `float(value)` alone followed by the finiteness test: a boolean reads as 1 or 0. */
  function FloatOf(v: Value): Option<real> {
    if v.Bool? then Some(if v.flag then 1.0 else 0.0) else FiniteNumber(v)
  }
}
