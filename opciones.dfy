/** Values that the backend may leave out: a JavaScript `null`/`undefined` field
    becomes `None`, a present value `Some(v)`. */
module Opciones {

  datatype Option<+T> = None | Some(value: T) {

    /** The value, or `default` when absent (JavaScript `x ?? default`). */
    function GetOr(default: T): T {
      match this
      case Some(v) => v
      case None => default
    }
  }

  /** The outcome of a call whose failure the source catches. */
  datatype Result<+R, +E> = Ok(value: R) | Err(error: E)
}
