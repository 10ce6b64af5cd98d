/**
  Small value types shared by every part of the model: optional values, the
  Python exceptions the service raises and inspects, and the outcome of one
  call into a backing store.
 */
module Base {

  /** An optional value: a missing dictionary entry, a `None` argument. */
  datatype Option<T> = None | Some(value: T) {

    /** The value, or `default` when absent. */
    function GetOr(default: T): T {
      if Some? then value else default
    }
  }

  /** The exception classes the service tells apart. `Exception` stands for
      the plain `Exception(...)` the service re-raises with a prefix. */
  datatype ExcKind = ClientError | ValueError | KeyError | RuntimeError | Exception

  /** A raised exception; `message` is what `str(e)` gives. */
  datatype Exc = Exc(kind: ExcKind, message: string)

  /** A value, or the exception raised instead of producing it. */
  datatype Result<T> = Ok(value: T) | Raised(exc: Exc)

  /** How one request to a backing store ends; supplied by the caller of the
      model in place of the network. */
  datatype CallOutcome = Succeeds | Fails(exc: Exc)
}
