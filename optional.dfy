/** A value that may be missing: JavaScript's `null` / `undefined`, or a
    Python key that is not present. */
module Optional {

  datatype Option<+T> = None | Some(value: T) {

    /** The value, or `default` when it is missing. */
    function GetOr(default: T): T {
      match this
      case Some(v) => v
      case None => default
    }
  }
}
