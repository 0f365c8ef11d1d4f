/** Option, for values a JavaScript expression may lack (undefined, NaN, a missing attribute). */
module Wrappers {
  datatype Option<+T> = None | Some(value: T) {
    /** `x ?? default`, and `x || default` where the present value is truthy. */
    function GetOr(default: T): T {
      match this
      case Some(v) => v
      case None => default
    }
  }
}
