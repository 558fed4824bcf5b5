/** Result and option types shared by the other modules. */
module Wrappers {

  datatype Option<+T> = None | Some(value: T)

  /** A value, or the reason the source throws instead of returning one. */
  datatype Result<+T, +E> = Ok(value: T) | Err(error: E)

}
