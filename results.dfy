/** Failure values shared by the card codec and the round handlers.

    The contract aborts a transaction in two ways: `eosio::check(cond, msg)`
    with a message, and a C++ `std::out_of_range` exception from `at()`
    (also used here for reading past the end of a deck).  Either way the
    whole event is rolled back. */
module Results {

  datatype Error =
    | Check(msg: string)   // a failed eosio::check, with its message
    | OutOfRange           // an index past the end of a vector

  datatype Result<T> = Success(value: T) | Failure(error: Error) {
    predicate IsFailure() { Failure? }

    function PropagateFailure<U>(): Result<U>
      requires Failure?
    {
      Failure(error)
    }

    function Extract(): T
      requires Success?
    {
      value
    }
  }

  /** Outcome of a check that produces no value. */
  datatype Status = Pass | Fail(error: Error) {
    predicate IsFailure() { Fail? }

    function PropagateFailure(): Status
      requires Fail?
    {
      this
    }
  }

  datatype Option<T> = None | Some(value: T)
}
