/** Fixed-width integers and failure-carrying values shared by the models. */
module Numbers {

  const TWO31: int := 0x8000_0000
  const TWO32: int := 0x1_0000_0000
  const TWO63: int := 0x8000_0000_0000_0000
  const TWO64: int := 0x1_0000_0000_0000_0000

  type uint64 = x: int | 0 <= x < TWO64
  type byte = x: int | 0 <= x < 256

  /** The value a Go uint64 operation leaves behind: the exact result modulo 2^64. */
  function Wrap(x: int): (r: uint64)
    ensures 0 <= x < TWO64 ==> r == x
  {
    x % TWO64
  }

  /** Go's conversion of a uint64 to int64: two's complement. */
  function ToInt64(x: uint64): (r: int)
    ensures -TWO63 <= r < TWO63
    ensures x < TWO63 ==> r == x
  {
    if x < TWO63 then x else x - TWO64
  }

  function Min(a: int, b: int): int {
    if a <= b then a else b
  }
}

module Wrappers {

  datatype Option<+T> = None | Some(value: T) {
    function GetOr(default: T): T {
      match this
      case Some(v) => v
      case None => default
    }
  }

  datatype Result<+T, +E> = Success(value: T) | Failure(error: E) {
    predicate IsFailure() {
      Failure?
    }

    function PropagateFailure<U>(): Result<U, E>
      requires Failure?
    {
      Failure(error)
    }

    function Extract(): T
      requires Success?
    {
      value
    }
  }

  datatype Check<+E> = Pass | Fail(error: E) {
    predicate IsFailure() {
      Fail?
    }

    function PropagateFailure<U>(): Result<U, E>
      requires Fail?
    {
      Result.Failure(error)
    }
  }

  /** The guard of a handler: `:- Need(condition, error);`. */
  function Need<E>(condition: bool, error: E): Check<E> {
    if condition then Pass else Fail(error)
  }
}
