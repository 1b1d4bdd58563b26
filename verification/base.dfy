/** Failure-carrying wrappers shared by every module of the model. */
module Base {

  /** A value that may be absent (a Go nil pointer, an unset error). */
  datatype Option<+T> = None | Some(value: T)

  /** A Go `(value, error)` pair where exactly one side is meaningful. */
  datatype Result<+T, +E> = Success(value: T) | Failure(error: E)

  /** Raw bytes of an uploaded file. */
  type Bytes = seq<bv8>

  function Min(a: int, b: int): int { if a <= b then a else b }

  function Max(a: int, b: int): int { if a <= b then b else a }
}
