/** Small value wrappers shared by the whole model. */
module Wrappers {

  /** A value that may be absent: the model's stand-in for a C# null or a nullable value type. */
  datatype Option<T> = None | Some(value: T) {
    function GetOr(default: T): T {
      match this
      case Some(v) => v
      case None => default
    }
  }

  /** Exceptions that the model makes explicit: a list index out of range, and a
      failure inside a cryptographic collaborator. */
  datatype Exception = ArgumentOutOfRange | CryptographicFailure

  /** The outcome of a call that either returns a value or throws. */
  datatype Result<T> = Success(value: T) | Failure(error: Exception)

  /** A C# `int`. */
  type Int32 = x: int | -0x8000_0000 <= x < 0x8000_0000
}

/** Time as the count of 100-nanosecond ticks that a .NET DateTime carries. */
module Clock {
  const TicksPerMinute: int := 600_000_000
}

/** What a piece of ASP.NET Core middleware did with one request. */
module Http {
  datatype MiddlewareOutcome =
    | ShortCircuit(statusCode: int, body: string)  // response written here; `next` not invoked
    | InvokedNext                                  // `next` invoked once; status left untouched
    | Faulted                                      // an exception escaped the middleware
}
