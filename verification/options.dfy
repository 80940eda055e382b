/** Optional values and the outcome of JavaScript code that may throw. */
module Options {

  /** A value that may be missing: JavaScript's `undefined`/`null` for a field. */
  datatype Option<+T> = None | Some(value: T) {

    /** The value, or `default` when missing. */
    function GetOr(default: T): T {
      match this
      case Some(v) => v
      case None => default
    }
  }

  /** The result of an expression that may throw a `TypeError` (a property read on `undefined`). */
  datatype Outcome<+T> = Returns(value: T) | TypeError
}
