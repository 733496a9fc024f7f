/** Optional values and the error-carrying result every API procedure returns. */
module Results {

  /** The failure codes a procedure surfaces to its caller: tRPC's UNAUTHORIZED,
      FORBIDDEN and NOT_FOUND, an input the schema parser rejects (BAD_REQUEST),
      and a write the database refuses (a foreign key naming a missing row, or a
      duplicate unique key), after which the transaction rolls back. */
  datatype ApiError = Unauthorized | Forbidden | NotFound | Validation | DatabaseError

  /** A nullable or optional value. */
  datatype Option<+T> = None | Some(value: T) {

    /** The value, or the given default when absent (JavaScript's `x ?? d`). */
    function GetOr(default: T): T {
      match this
      case Some(v) => v
      case None => default
    }
  }

  /** Success with a value, or a failure code. A failed procedure never carries
      a new store, so a failed mutation leaves the store as it was. */
  datatype Result<+T> = Ok(value: T) | Err(error: ApiError) {

    predicate IsFailure() {
      Err?
    }

    function PropagateFailure<U>(): Result<U>
      requires Err?
    {
      Err(error)
    }

    function Extract(): T
      requires Ok?
    {
      value
    }
  }

  function Min(a: int, b: int): int {
    if a <= b then a else b
  }

  function Max(a: int, b: int): int {
    if a <= b then b else a
  }
}
