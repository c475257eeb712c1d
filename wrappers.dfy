/** Nullable values and operations that can fail, as the C# code expresses them with
    `T?` and with thrown exceptions. */
module Wrappers {

  /** A nullable reference or value: `None` stands for C#'s `null`. */
  datatype Option<+T> = None | Some(value: T) {

    /** The C# null-coalescing operator `x ?? d`. */
    function GetOr(default: T): T {
      match this
      case Some(v) => v
      case None => default
    }
  }

  /** The outcome of an operation that either returns a value or throws. */
  datatype Result<+T, +E> = Ok(value: T) | Err(error: E)
}
