/** Failure-compatible wrappers used by the decoder and the render parser. */
module Wrappers {

  /** A value that may be absent; usable with `:-`. */
  datatype Option<+T> = None | Some(value: T) {

    predicate IsFailure() {
      None?
    }

    function PropagateFailure<U>(): Option<U>
      requires None?
    {
      None
    }

    function Extract(): T
      requires Some?
    {
      value
    }
  }

  /** Either a decoded value or the reason decoding stopped. */
  datatype Result<+R, +E> = Success(value: R) | Failure(error: E)
}
