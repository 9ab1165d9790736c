/** Small value types shared by the models of the other modules. */
module Basics {

  datatype Option<+T> = None | Some(value: T)

  datatype Outcome<+T, +E> = Ok(value: T) | Err(error: E)

  /** Clock readings, in milliseconds since the epoch. */
  type Time = int

  /** The largest integer a JavaScript number holds exactly. */
  const MAX_SAFE_INTEGER := 9007199254740991
}
