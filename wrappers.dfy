/** Option and Result, the two failure-compatible wrappers the model uses. */
module Wrappers {

  datatype Option<+T> = None | Some(value: T) {
    function GetOr(default: T): T {
      match this
      case Some(v) => v
      case None => default
    }
  }

  /** `Failure` stands for an exception the source raises instead of returning. */
  datatype Result<+R, +E> = Success(value: R) | Failure(error: E)
}
