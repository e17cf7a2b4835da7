/** Option and Result, the two failure-carrying datatypes the model uses
    for JavaScript's `undefined` and for thrown errors. */
module Wrappers {

  datatype Option<+T> = None | Some(value: T) {
    function GetOr(default: T): T {
      match this
      case Some(v) => v
      case None => default
    }
  }

  datatype Result<+T, +E> = Success(value: T) | Failure(error: E) {
    predicate IsFailure() {
      Failure?
    }
    function PropagateFailure<U>(): Result<U, E>
      requires Failure?
    {
      Failure(error)
    }
    function Extract(): T
      requires Success?
    {
      value
    }
  }

  /** The JavaScript `Error` object: its `name` and its `message`. */
  datatype Error = Error(name: string, message: string)

  /** What a `catch` clause receives: an `Error` instance or some other value. */
  datatype Thrown = AnError(error: Error) | NotAnError

  /** `e instanceof Error ? e : new Error(fallback)` */
  function AsError(t: Thrown, fallback: string): Error {
    match t
    case AnError(e) => e
    case NotAnError => Error("Error", fallback)
  }
}
