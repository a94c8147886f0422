/** Small shared vocabulary: the optional value that stands for the JavaScript code's
    `null` / `undefined`. */
module Base {

  datatype Option<+T> = None | Some(value: T) {

    /** The value, or `d` when absent (the `??` operator of the JavaScript code). */
    function GetOr(d: T): T {
      match this
      case Some(v) => v
      case None => d
    }
  }

  /** A JavaScript time value: `NaN` (an invalid date) or whole epoch
      milliseconds. */
  datatype Millis = Invalid | Valid(ms: int)

  function Max(a: int, b: int): int {
    if a >= b then a else b
  }

  function Min(a: int, b: int): int {
    if a <= b then a else b
  }
}
