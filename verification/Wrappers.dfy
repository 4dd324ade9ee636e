module Wrappers {

  datatype Option<+T> = None | Some(value: T)

  /** The source raises an exception; the model returns which one. */
  datatype Error =
    | UnknownItem
    | BadValue
    | FieldOverflow
    | TooManyPages
    | FrontierExceeded
    | BudgetExceeded
    | OutOfRange
    | NotPlaced
    | EpochExhausted
    | Malformed
    | Overflow
    | Duplicate

  datatype Result<+T> = Ok(value: T) | Err(error: Error)
}
