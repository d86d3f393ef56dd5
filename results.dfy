/** Failure-carrying wrappers shared by the other modules. */
module Results {

  /** An optional value: JavaScript's `undefined` versus a present value. */
  datatype Option<T> = None | Some(value: T)
  {
    function GetOr(default: T): T
    {
      match this
      case Some(v) => v
      case None => default
    }
  }

  /** The value a call returns, or the error it throws. */
  datatype Result<T, E> = Ok(value: T) | Err(error: E)

  /** A check that either passes or throws an error. */
  datatype Outcome<E> = Pass | Fail(error: E)
}
