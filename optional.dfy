/** The absent-or-present values of the agent: Python's `None` defaults and
    the results of searches that may find nothing. */
module Optional {

  datatype Option<T> = None | Some(value: T) {

    /** The value, or `default` when absent (Python's `x if x is not None else default`). */
    function GetOr(default: T): T
    {
      match this
      case Some(v) => v
      case None => default
    }
  }
}
