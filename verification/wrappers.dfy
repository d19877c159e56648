/**
 * The two outcome types the engine is written in: Option for a value that may
 * be missing (a C# null or a false TryGet), and Result for a step that may
 * throw. Both provide the three members `:-` needs, so a missing value or a
 * fault ends the enclosing expression early.
 */
module Wrappers {

  datatype Option<+T> = None | Some(value: T) {

    /** `:-` stops on a missing value. */
    predicate IsFailure() {
      None?
    }

    /** A missing value stays missing whatever type is expected next. */
    function PropagateFailure<U>(): Option<U>
      requires None?
    {
      None
    }

    /** The value `:-` continues with. */
    function Extract(): T
      requires Some?
    {
      value
    }

    /** The value, or `default` when it is missing (C#'s `?? default`). */
    function GetOr(default: T): T {
      match this
      case Some(v) => v
      case None => default
    }
  }

  /** The outcome of a step that may throw: its value, or the fault it raised. */
  datatype Result<+R, +E> = Success(value: R) | Failure(error: E) {

    /** `:-` stops on a fault. */
    predicate IsFailure() {
      Failure?
    }

    /** The fault, carried on unchanged to a step with another value type. */
    function PropagateFailure<U>(): Result<U, E>
      requires Failure?
    {
      Failure(error)
    }

    /** The value `:-` continues with. */
    function Extract(): R
      requires Success?
    {
      value
    }
  }
}
