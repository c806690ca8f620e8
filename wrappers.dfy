/** Result shapes of the graph's operations. */
module Wrappers {

  /** Python's `None` versus a returned value. */
  datatype Option<+T> = None | Some(value: T)

  /** A call that either returns a value or ends with an uncaught `ValueError`. */
  datatype Outcome<+T> = Returned(value: T) | RaisedValueError
}
