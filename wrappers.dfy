/** Failure-compatible wrappers shared by every module of the model. */
module Wrappers {

  /** A Python value that may be None. */
  datatype Option<+T> = None | Some(value: T)
  {
    predicate IsFailure() { None? }

    function PropagateFailure<U>(): Option<U>
      requires None?
    {
      None
    }

    function Extract(): T
      requires Some?
    {
      value
    }

    function GetOr(default: T): T
    {
      match this
      case Some(v) => v
      case None => default
    }
  }

  /** The outcome of a Python computation that may raise an exception. */
  datatype Result<+T> = Ok(value: T) | Raised(message: string)
}
