/** The optional value used wherever the program reads something that may be
    absent: a key missing from the store, bytes that do not decode, text that
    is not a decimal number. */
module Options {

  datatype Option<+T> = None | Some(value: T) {

    /** The wrapped value, or `default` when there is none: Python's `x or default`
        for a lookup that returns `None` when the key is missing. */
    function GetOr(default: T): T {
      match this
      case Some(v) => v
      case None => default
    }
  }
}
