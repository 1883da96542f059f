/** Failure-compatible wrappers used across the model: `Option` for the
    source's `None`-or-value returns and `Result` for its raised exceptions. */
module Wrappers {

  datatype Option<+T> = None | Some(value: T) {

    /** The contained value, or `default` when there is none (Python's `x or default` / `.get(k, default)`). */
    function GetOr(default: T): T {
      match this
      case Some(v) => v
      case None => default
    }
  }

  /** `Failure` stands for an exception the source raises (a `ValueError`). */
  datatype Result<+R, +E> = Success(value: R) | Failure(error: E)
}
