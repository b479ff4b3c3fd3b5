/** Option and Result values used for the error paths of the model. */
module Wrappers {

  datatype Option<+T> = None | Some(value: T) {
    /** The value when present, otherwise the given default. */
    function GetOr(default: T): T {
      match this
      case Some(v) => v
      case None => default
    }
  }

  datatype Result<+T, +E> = Ok(value: T) | Err(error: E)

  /**
   * Python truthiness of an optional string (`if title`, `if data_id`):
   * present and not the empty string.
   */
  predicate Truthy(x: Option<string>) {
    x.Some? && x.value != ""
  }
}
