/** Optional values and success/failure results, used where the Java code returns
    null or throws. */
module Wrappers {

  /** A Java reference that may be null: `None` stands for null. */
  datatype Option<+T> = None | Some(value: T) {
    function GetOr(default: T): T {
      match this
      case Some(v) => v
      case None => default
    }
  }

  /** The outcome of a call that either returns a value or throws. */
  datatype Result<+T, +E> = Ok(value: T) | Err(error: E)

  /** The outcome of a `void` call that may throw. */
  datatype Outcome<+E> = Pass | Fail(error: E)

  /** A nullable string read as text, the way the ledger writes `x == null ? "" : x`. */
  function OrEmpty(s: Option<string>): string {
    s.GetOr("")
  }
}
