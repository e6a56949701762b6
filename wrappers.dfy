/** Optional values: Python's `None` versus a present value. */
module Wrappers {

  datatype Option<T> = None | Some(value: T)

  /** `x or default` on an optional value. */
  function OrElse<T>(o: Option<T>, default: T): T {
    if o.Some? then o.value else default
  }
}
