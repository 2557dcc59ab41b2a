/** The two failure shapes the models share. */
module Wrappers {

  /** Python's `None` or a value. */
  datatype Option<+T> = None | Some(value: T) {
    function GetOr(default: T): T {
      match this
      case None => default
      case Some(v) => v
    }
  }

  /** A value, or the exception that was raised instead. */
  datatype Result<+T, +E> = Ok(value: T) | Raised(error: E)

  /** The dict has no keys. */
  predicate IsEmpty<K, T>(m: map<K, T>) {
    m.Keys == {}
  }
}
