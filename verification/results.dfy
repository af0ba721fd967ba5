/** Failure-carrying wrappers used in place of Java's null and exceptions. */
module Results {

  /** A value that may be absent; stands for a Java reference that may be null. */
  datatype Option<+T> = None | Some(value: T)

  /** The outcome of an operation that may raise an error instead of returning. */
  datatype Result<+T, +E> = Ok(value: T) | Err(error: E)
}
