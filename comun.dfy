/** Small value types shared by every module of the model. */
module Comun {

  /** Python's `x | None`. */
  datatype Option<+T> = None | Some(value: T)

  /** A call that either returns a value or raises an exception. */
  datatype Result<+T, +E> = Ok(value: T) | Err(error: E)

  /** A wall-clock reading (CURRENT_TIMESTAMP, datetime.now()); only its order matters. */
  type Instante = int
}
