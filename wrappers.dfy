/** Option values for Python's `None`-or-value results. */
module Wrappers {
  datatype Option<T> = None | Some(value: T)
  {
    function UnwrapOr(default: T): T {
      match this
      case Some(v) => v
      case None => default
    }

    /** Python's `a or b` on an optional value whose presence is its truth. */
    function OrElse(other: Option<T>): Option<T> {
      if this.Some? then this else other
    }
  }

  /** A Python call that either raises or returns a value. */
  datatype Attempt<T> = Raises | Ok(value: T)
}
