/** Optional values: `None` stands for Python's `None`, for "no match" and,
    where a member says so, for an exception that escapes the call. */
module Options {

  datatype Option<+T> = None | Some(value: T) {

    /** The wrapped value, or `default` when there is none (Python's `x or default`
        for values whose only falsy form is `None`). */
    function GetOr(default: T): T {
      match this
      case Some(v) => v
      case None => default
    }
  }
}
