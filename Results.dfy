/** Failure-carrying values standing in for the exceptions the modelled C# code throws. */
module Results {

  datatype Option<+T> = None | Some(value: T)

  datatype Result<+T, +E> = Success(value: T) | Failure(error: E)

  /** The outcome of a `void` operation that either returns normally or throws. */
  datatype Outcome<+E> = Pass | Fail(error: E)
}
