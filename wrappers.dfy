/** Small failure-compatible datatypes shared by every module. */
module Wrappers {

  /** A value that may be absent (a missing document, an unset field, a missing key). */
  datatype Option<+T> = None | Some(value: T) {
    function GetOr(default: T): T {
      match this
      case Some(v) => v
      case None => default
    }
  }

  /** What an HTTP handler answers: a value, or an error status with its message. */
  datatype Result<+T> = Ok(value: T) | Err(status: nat, message: string)

  /** JavaScript truthiness of an optional string field: present and non-empty. */
  predicate Truthy(v: Option<string>) {
    v.Some? && v.value != ""
  }
}
