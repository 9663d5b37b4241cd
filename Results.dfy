/** Option, Result and Outcome values for reads that may fail and calls that may throw. */
module Results {

  datatype Option<+T> = None | Some(value: T)

  /** The value of a read, or the error the read failed with. */
  datatype Result<+T, +E> = Ok(value: T) | Err(error: E)

  /** The completion of a call that returns nothing: it resolved, or it rejected with `error`. */
  datatype Outcome<+E> = Pass | Fail(error: E)
}
