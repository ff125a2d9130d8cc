/** Failure-carrying values used throughout the model: an optional value, a
    value-or-error, and a pass-or-error outcome of an effect. */
module Results {

  datatype Option<+T> = None | Some(value: T)

  datatype Result<+T, +E> = Success(value: T) | Failure(error: E)

  datatype Outcome<+E> = Pass | Fail(error: E)
}
