/** Java's nullable references and Optional<T>, as one datatype. */
module Wrappers {

  datatype Option<+T> = None | Some(value: T) {

    function GetOr(default: T): T {
      match this
      case Some(v) => v
      case None => default
    }
  }

  /** A return value or the exception the call throws instead. */
  datatype Result<+T, +E> = Ok(value: T) | Err(error: E)
}
