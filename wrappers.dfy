/** Option and Result, in the shape the Rust code uses them: `Result<T, String>` carries a
    human-readable message on failure. */
module Wrappers {

  datatype Option<+T> = None | Some(value: T) {
    function GetOr(default: T): T {
      match this
      case Some(v) => v
      case None => default
    }
  }

  datatype Result<+T> = Ok(value: T) | Err(error: string)

  /** The unit value carried by `Result<(), String>`. */
  datatype Unit = Unit
}
