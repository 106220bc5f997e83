/** The result types that every other module shares. */
module Outcomes {

  datatype Option<+T> = None | Some(value: T)

  datatype Result<+T, +E> = Ok(value: T) | Err(error: E)

  /** How a background task ended: with a value, or cancelled for a reason. */
  datatype TaskOutput<+T, +E> = Value(value: T) | Cancelled(reason: E)
}
