/** Option and Result values for the optional fields and error paths of the dashboard's logic. */
module Wrappers {

  /** A value that may be absent: JavaScript's `undefined`/`null`. */
  datatype Option<+T> = None | Some(value: T)

  /** The outcome of a step that can throw: its value, or the error it raised. */
  datatype Result<+T, +E> = Ok(value: T) | Err(error: E)

  /** `x || 0` applied to a parsed number: a missing value (NaN, null) and 0 both give 0. */
  function OrZero(o: Option<real>): real {
    match o
    case Some(x) => x
    case None => 0.0
  }
}
