/** Failure-carrying wrappers used throughout the model: `Option` for the source's
    `null`/`undefined` results and `Result` for the errors it throws. */
module Wrappers {

  datatype Option<+T> = None | Some(value: T) {
    function GetOr(default: T): T {
      match this
      case Some(v) => v
      case None => default
    }
  }

  datatype Result<+R, +E> = Success(value: R) | Failure(error: E)
}
