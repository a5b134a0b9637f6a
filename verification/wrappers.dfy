/** Failure-carrying datatypes shared by the rendering and player modules. */
module Wrappers {

  /** An optional value: a missing section, a missing pivot, a failed size query. */
  datatype Option<+T> = None | Some(value: T)

  /** Either a value or the reason a draw call reported failure. */
  datatype Result<+T, +E> = Ok(value: T) | Err(error: E)
}
