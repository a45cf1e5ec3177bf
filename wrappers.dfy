/** Optional values and the outcome of an operation that may throw. */
module Wrappers {

  /** A value that may be absent: TypeScript's `T | null | undefined`. */
  datatype Option<+T> = None | Some(value: T) {

    /** The `??` operator: the value, or `default` when absent. */
    function GetOr(default: T): T {
      match this
      case Some(v) => v
      case None => default
    }
  }

  /** The result of an async operation that either resolves or throws. */
  datatype Result<+R, +E> = Success(value: R) | Failure(error: E)

  /** What a failed operation in the modelled code throws. */
  datatype Thrown =
    | Error(message: string)   // `new Error(message)`
    | TypeError                // reading `.message` of a missing first error

  function Min(a: int, b: int): (m: int)
    ensures m <= a && m <= b && (m == a || m == b)
  {
    if a <= b then a else b
  }
}
