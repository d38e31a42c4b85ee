/** The exceptions the chess engine can raise, as values, and the failure-compatible
    wrappers that carry them. */
module Outcomes {

  /** One constructor per exception class the modelled code throws or runs into. */
  datatype Error =
    | BoardError(message: string)        // exceptions.BoardException
    | ChessError(message: string)        // exceptions.ChessException
    | IllegalState(message: string)      // java.lang.IllegalStateException
    | InvalidParameter(message: string)  // java.security.InvalidParameterException
    | NullPointer                        // a method called on, or a field of, null
    | IndexOutOfBounds                   // an array index past the end of a matrix

  /** A Java value that is either returned normally or replaced by a thrown exception. */
  datatype Result<+T> = Success(value: T) | Failure(error: Error) {
    predicate IsFailure() { Failure? }

    function PropagateFailure<U>(): Result<U>
      requires Failure?
    {
      Failure(error)
    }

    function Extract(): T
      requires Success?
    {
      value
    }
  }

  /** A Java reference that may be null, for values that are not objects. */
  datatype Option<+T> = None | Some(value: T)
}
