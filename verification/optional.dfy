/** The value-or-nothing wrapper used wherever the source has `null`, `undefined` or `NaN`. */
module Optional {

  datatype Option<T> = None | Some(value: T) {

    /** The wrapped value, or `default` when there is none (JavaScript's fallback through
        the `or` operator, once falsy values have been mapped to `None`). */
    function GetOr(default: T): T {
      match this
      case Some(v) => v
      case None => default
    }
  }
}
