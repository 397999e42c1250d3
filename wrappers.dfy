/** Optional values and results with an error, the way the Python code uses `None` and exceptions. */
module Wrappers {

  datatype Option<T> = None | Some(value: T)
  {
    /** Python's `x or default` when the only falsy value of `x` is `None`. */
    function GetOr(default: T): T
    {
      if Some? then value else default
    }
  }

  datatype Result<T, E> = Ok(value: T) | Err(error: E)
}
