/** Failure-carrying values shared by every service of the model.

    Java's `null` becomes `Option.None`; every exception a service can raise
    becomes an `Error` inside `Result.Err`, so that an operation that throws
    leaves the store exactly as it was (the services are transactional).
 */
module Results {

  /** A value that may be absent (a nullable Java reference). */
  datatype Option<+T> = None | Some(value: T) {

    /** The value, or `default` when absent (the source's `x != null ? x : d`). */
    function GetOr(default: T): T {
      match this
      case Some(v) => v
      case None => default
    }
  }

  /** The exceptions the modelled services raise, by Java class. */
  datatype Error =
    | NotFound(message: string)          // jakarta.persistence.EntityNotFoundException
    | IllegalState(message: string)      // java.lang.IllegalStateException
    | UsernameNotFound(message: string)  // UsernameNotFoundException
    | BadCredentials                     // AuthenticationException from the credential check
    | NullPointer                        // dereference of a null reference
    | ClassCast                          // failed cast of a native query cell
    | UniqueViolation(column: string)    // a database unique constraint rejected an insert

  /** Either the value a service returns or the exception it throws. */
  datatype Result<+T> = Ok(value: T) | Err(error: Error) {

    predicate IsFailure() {
      Err?
    }

    function PropagateFailure<U>(): Result<U>
      requires Err?
    {
      Err(error)
    }

    function Extract(): T
      requires Ok?
    {
      value
    }
  }

  /** Decimal rendering of an id, as Java's string concatenation of a `Long` prints it. */
  function NatToString(n: nat): (s: string)
    ensures |s| >= 1
    ensures forall i :: 0 <= i < |s| ==> '0' <= s[i] <= '9'
  {
    if n < 10 then ["0123456789"[n]]
    else NatToString(n / 10) + ["0123456789"[n % 10]]
  }
}
