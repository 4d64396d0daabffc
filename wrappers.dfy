/** Optional values: `null`/`undefined` on the JavaScript side. */
module Wrappers {

  datatype Option<T> = None | Some(value: T)
  {
    /** `x || fallback` for an optional value that is never falsy when present. */
    function GetOr(fallback: T): T
    {
      if Some? then value else fallback
    }
  }

  /** The outcome of a guarded action: the first failed guard, or the value it produces. */
  datatype Result<T, E> = Failure(error: E) | Success(value: T)
}
