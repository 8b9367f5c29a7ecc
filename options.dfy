/** An optional value: `None` where the Python code has a missing value or
    raises a coercion error, `Some` otherwise. */
module Options {

  datatype Option<+T> = None | Some(value: T) {

    /** The wrapped value, or `default` when there is none. */
    function GetOr(default: T): T {
      match this
      case Some(v) => v
      case None => default
    }
  }
}
