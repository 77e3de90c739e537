/** Option and Result, used for JavaScript's null/undefined/NaN and for thrown errors. */
module Wrappers {

  /** `None` stands for JavaScript's `null`/`undefined` (or `NaN` for numbers). */
  datatype Option<+T> = None | Some(value: T) {
    function GetOr(default: T): T {
      match this
      case Some(v) => v
      case None => default
    }
  }

  /** `Failure` stands for an exception thrown (or a promise rejected) by the source. */
  datatype Result<+R, +E> = Success(value: R) | Failure(error: E)

  function Max(a: int, b: int): int { if a < b then b else a }

  function Min(a: int, b: int): int { if a < b then a else b }
}
