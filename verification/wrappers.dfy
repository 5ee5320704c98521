/** The optional-value datatype used throughout the model for JavaScript's
    `undefined`, `null` and `NaN` results. */
module Wrappers {

  datatype Option<+T> = None | Some(value: T) {

    /** Returns the value in Some, or `default` if None (JavaScript's `x || default`
        when every present value is truthy). */
    function GetOr(default: T): T
    {
      match this
      case Some(v) => v
      case None => default
    }
  }
}
