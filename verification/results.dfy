/** The two failure-carrying shapes the model uses: Option for a value that may be
    missing (a text that does not parse), Result for a computation that may raise. */
module Results {

  datatype Option<+T> = None | Some(value: T)

  /** `Err` stands for an exception that propagates out of the computation. */
  datatype Result<+T, +E> = Ok(value: T) | Err(error: E)
}
