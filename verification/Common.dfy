/** Small vocabulary shared by the models: optional values, fallible results and the
    integer conversions that C performs implicitly. */
module Common {

  datatype Option<+T> = None | Some(value: T)

  datatype Result<+T, +E> = Success(value: T) | Failure(error: E)

  /** Integer division as in C: the quotient is truncated toward zero. */
  function TruncDiv(a: int, b: int): int
    requires b > 0
  {
    if a >= 0 then a / b else -((-a) / b)
  }

  /** The cast from a floating-point value to an integer: truncation toward zero. */
  function Truncate(r: real): int {
    if r >= 0.0 then r.Floor else -((-r).Floor)
  }

  const TWO_31 := 0x8000_0000
  const TWO_32 := 0x1_0000_0000
  const TWO_63 := 0x8000_0000_0000_0000
  const TWO_64 := 0x1_0000_0000_0000_0000

  /** Conversion to a 32-bit unsigned integer. */
  function ToUint32(i: int): (u: int) {
    i % TWO_32
  }

  /** Conversion to a 32-bit signed integer. */
  function ToInt32(i: int): (s: int) {
    var u := i % TWO_32;
    if u < TWO_31 then u else u - TWO_32
  }

  function MaxInt(a: int, b: int): int {
    if a > b then a else b
  }

  function MaxReal(a: real, b: real): real {
    if a > b then a else b
  }
}
