/** The optional value used throughout the model: JavaScript's `undefined`
    result of `Array.prototype.find`, an absent prop, a control that cannot
    fire. */
module Wrappers {

  datatype Option<+T> = None | Some(value: T) {

    /** Returns the value in Some, or `default` when None. */
    function GetOr(default: T): T {
      match this
      case Some(v) => v
      case None => default
    }
  }
}
