/** Failure-compatible wrappers used for lookups that may find nothing and for
    parses that may be rejected. */
module Optional {

  /** A value that may be absent, as returned by the colour registry lookups. */
  datatype Option<+T> = None | Some(value: T)

  /** The outcome of a parse: a value, or the reason it was rejected. */
  datatype Result<+T, +E> = Ok(value: T) | Err(error: E)
}
