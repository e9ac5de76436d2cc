/** The optional value used across the model: JavaScript's `null`/`undefined`
    (and, for numbers, `NaN`) on one side, a present value on the other. */
module Maybe {

  datatype Option<+T> = None | Some(value: T) {

    /** The value, or `default` when absent (JavaScript's `x ?? default`). */
    function GetOr(default: T): T {
      match this
      case Some(v) => v
      case None => default
    }
  }
}
