/** Optional values, the exceptions the core throws, and results that carry them. */
module Outcomes {

  /** A C# nullable value: `None` is null. */
  datatype Option<+T> = None | Some(value: T)

  /** The .NET exceptions the repositories and the link service throw, with
      the constructor arguments the code passes to them. */
  datatype Error =
    /** ArgumentNullException(paramName, message): .NET's two-string
        constructor takes the parameter name FIRST. */
    | ArgumentNull(paramName: string, message: string)
    /** ArgumentException(message, paramName). */
    | Argument(message: string, paramName: string)
    | NotFound(message: string)
    | BadRequest(message: string)
    | InvalidOperation(message: string)
    /** What `Task.Result` throws for a faulted Task: an
        AggregateException wrapping the fault. */
    | Aggregate(inner: Error)

  /** The value an operation returns, or the exception it throws. */
  datatype Result<+T> = Success(value: T) | Failure(error: Error)
}
