/** Option and Result: the model's stand-ins for `None`-or-value returns and for calls that raise. */
module Outcomes {

  /** A value that may be absent, as a regex search that finds nothing. */
  datatype Option<T> = None | Some(value: T) {

    /** The value, or `default` when absent. */
    function GetOr(default: T): T {
      if Some? then value else default
    }
  }

  /** The outcome of a call that either returns `value` or raises `error`. */
  datatype Result<T, E> = Success(value: T) | Failure(error: E) {

    /** Forgets the error: what a `try ... except Exception: continue` keeps of a call. */
    function ToOption(): Option<T> {
      if Success? then Some(value) else None
    }
  }
}
