/** The success-or-error value returned by the operations that can throw. */
module Results {

  datatype Result<+T, +E> = Ok(value: T) | Err(error: E)
}
