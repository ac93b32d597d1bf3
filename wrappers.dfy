/** A value that may be absent: the model of a JavaScript field that is
    `undefined` (or `null`) when the provider leaves it out. */
module Wrappers {

  datatype Option<+T> = None | Some(value: T) {

    /** The value, or `default` when absent. This agrees with JavaScript's
        `x || default` on strings only when `default` is `""`: there
        `"" || "x"` is `"x"`, while `Some("").GetOr("x")` is `""`. The model
        uses it only with the default `""`. */
    function GetOr(default: T): T {
      match this
      case Some(v) => v
      case None => default
    }
  }
}
