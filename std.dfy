/** Rust's `Option<T>` and `Result<T, E>`, with the variant names Rust uses. */
module Std {

  datatype Option<+T> = None | Some(value: T) {

    /** `Option::unwrap_or`: the wrapped value, or `default` when there is none. */
    function UnwrapOr(default: T): (r: T)
      ensures Some? ==> r == value
      ensures None? ==> r == default
    {
      match this
      case Some(v) => v
      case None => default
    }
  }

  datatype Result<+T, +E> = Ok(value: T) | Err(error: E)

  /** The unit type `()`. */
  datatype Unit = Unit
}
