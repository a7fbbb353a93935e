/** Optional values and results, as Rust's `Option` and `Result`. */
module Wrappers {
  datatype Option<+T> = None | Some(value: T)

  /** `Option::or`. */
  function Or<T>(a: Option<T>, b: Option<T>): Option<T> { if a.Some? then a else b }

  datatype Result<+T, +E> = Success(value: T) | Failure(error: E)
}
