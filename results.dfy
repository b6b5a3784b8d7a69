/** Typed outcomes that stand in for the Java exceptions of both evaluators. */
module Results {

  /** Either a value or the kind of error that the Java code would have thrown. */
  datatype Result<T, E> = Ok(value: T) | Err(error: E)

}
