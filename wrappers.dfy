/** Optional values and success-or-failure results, standing for Kotlin's nullable types and `Result`. */
module Wrappers {

  datatype Option<T> = None | Some(value: T)
  {
    function GetOr(default: T): (r: T)
      ensures Some? ==> r == value
      ensures None? ==> r == default
    {
      match this
      case Some(v) => v
      case None => default
    }
  }

  /** `Result.success(value)` or `Result.failure(Exception(message))`. */
  datatype Result<T> = Success(value: T) | Failure(message: string)
}
