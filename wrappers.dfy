/** Option and Result values used where the original code returns None,
    raises, or silently skips. */
module Wrappers {

  datatype Option<+T> = None | Some(value: T)

  datatype Result<+T, +E> = Ok(value: T) | Err(error: E)

  /** An extended real: Python's float('inf') or a finite value. */
  datatype Extended = Infinity | Finite(r: real) {
    /** Strict comparison `this < other` with +inf on either side. */
    predicate Less(other: Extended) {
      match (this, other)
      case (Finite(a), Finite(b)) => a < b
      case (Finite(_), Infinity) => true
      case (Infinity, _) => false
    }
  }
}
