/** Nullable values and thrown errors, as they appear in the services. */
module Wrappers {

  /** A nullable column or an optional argument: `None` is `null`/`undefined`. */
  datatype Option<+T> = None | Some(value: T) {
    function GetOr(default: T): T {
      match this
      case Some(v) => v
      case None => default
    }
  }

  /** The outcome of a service call that may throw: `Err` carries the message of the `Error`. */
  datatype Result<+T> = Ok(value: T) | Err(message: string)

  /** JavaScript truthiness of a nullable number: `null`, `undefined` and `0` are falsy. */
  predicate Truthy(v: Option<real>) {
    v.Some? && v.value != 0.0
  }

  /** JavaScript truthiness of a nullable id. */
  predicate TruthyId(v: Option<int>) {
    v.Some? && v.value != 0
  }

  /** JavaScript truthiness of a nullable string: the empty string is falsy. */
  predicate TruthyText(v: Option<string>) {
    v.Some? && v.value != ""
  }
}
