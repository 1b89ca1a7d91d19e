/** Option and Result values shared by every module of the model. */
module Wrappers {

  /** A value that may be absent: what C and C++ represent with NULL. */
  datatype Option<+T> = None | Some(value: T)
  {
    function GetOr(default: T): T
    {
      match this
      case Some(v) => v
      case None => default
    }
  }

  /** The error classes raised by the modelled code (`dba_error_*`, `error_*` exceptions). */
  datatype Error =
    | NotFound(what: string)
    | Consistency(what: string)
    | Unimplemented(what: string)
    | Domain(what: string)

  /** Either a value, or the error the source would raise or return. */
  datatype Result<+T> = Ok(value: T) | Err(error: Error)
  {
    predicate IsFailure() { Err? }

    function PropagateFailure<U>(): Result<U>
      requires Err?
    {
      Err(error)
    }

    function Extract(): T
      requires Ok?
    {
      value
    }
  }
}
