/** Optional values: the model of TypeScript's `undefined` for optional fields. */
module Wrappers {

  datatype Option<+T> = None | Some(value: T) {

    /** `x ?? default` in the source. */
    function GetOr(default: T): T {
      match this
      case Some(v) => v
      case None => default
    }
  }

  datatype Result<+T, +E> = Ok(value: T) | Err(error: E)
}
