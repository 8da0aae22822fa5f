/** Swift's `Optional`, as the rest of the model uses it. */
module Wrappers {

  /** `nil` is `None`; a present value is `Some`. */
  datatype Option<+T> = None | Some(value: T) {

    /** The wrapped value, or `default` when there is none (Swift's `??`). */
    function GetOr(default: T): T {
      if Some? then value else default
    }
  }
}
