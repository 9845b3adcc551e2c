/** The source's exceptions as values. */
module Outcomes {
  datatype Option<+T> = None | Some(value: T)

  datatype Outcome<+T> = Success(value: T) | Failure(error: Error)
  {
    predicate IsFailure() { Failure? }

    function PropagateFailure<U>(): Outcome<U>
      requires Failure?
    {
      Failure(error)
    }

    function Extract(): T
      requires Success?
    {
      value
    }
  }

  /** One constructor per exception class thrown by the modelled code. */
  datatype Error =
    | DomainError
    | InvalidArgument
    | LengthError
    | DataTooLong
    | LogicError
    | RuntimeError
    | DatabaseError
    | KeyImageExists
    | TxExists
    | TxDoesNotExist
    | BlockExists
    | BlockParentDoesNotExist
    | BlockDoesNotExist
    | OutputDoesNotExist
    | OutOfBounds
}
