/** Shared result types: Python's exceptions become values of `Error`,
    and an operation that may raise returns a `Result`. */
module Outcomes {

  datatype Option<+T> = None | Some(value: T) {
    function GetOr(default: T): T {
      match this
      case Some(v) => v
      case None => default
    }
  }

  /** The exceptions the modelled functions raise. `ImportError` carries the
      offending path and, when attribute traversal stopped part-way, the
      components that had been resolved (`components[:index]`). */
  datatype Error =
    | TypeError
    | IndexError
    | AttributeError
    | ValueError
    | UnboundLocalError
    | ImportError(path: string, resolved: Option<seq<string>>)

  datatype Result<+T> = Ok(value: T) | Err(error: Error) {
    predicate IsFailure() {
      Err?
    }

    function PropagateFailure<U>(): Result<U>
      requires Err?
    {
      Err(error)
    }

    function Extract(): T
      requires Ok?
    {
      value
    }
  }
}
