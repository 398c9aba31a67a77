/** The optional-value datatype used throughout the model. */
module Wrappers {

  /** `None` stands for Python's `None` or for a failed parse. */
  datatype Option<+T> = None | Some(value: T) {

    /** Returns the wrapped value, or `default` when there is none. */
    function GetOr(default: T): T {
      match this
      case Some(v) => v
      case None => default
    }
  }
}
