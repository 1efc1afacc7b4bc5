/** Failure-carrying return values shared by the modules of this model. */
module Results {

  /** A value that may be absent. */
  datatype Option<+T> = None | Some(value: T)

  /** Either a computed value or the error the operation raises instead. */
  datatype Result<+R, +E> = Success(value: R) | Failure(error: E)
}
