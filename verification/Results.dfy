/** utils.Result: a value, or an error with its details and the two flags that decide whether
    the event is retried and whether the error is reported. */
module Results {
  datatype Result<+T> =
    | Success(value: T)
    | Failure(error: string, code: string, message: string, retryable: bool, capture: bool)

  /** FailedResult and FailedBoolResult */
  function Failed<T>(error: string): Result<T> {
    Failure(error, "", "", true, true)
  }

  function NonRetryable<T>(r: Result<T>): Result<T> {
    match r
    case Success(_) => r
    case Failure(_, _, _, _, _) => r.(retryable := false)
  }

  /** failedResult, failedMultiEventsResult and toMultiEventsResult: a failure wrapped with
      new details; error and flags are those of the failure inside. */
  function Wrapped<S, T>(r: Result<S>, code: string, message: string): (w: Result<T>)
    requires r.Failure?
    ensures w.Failure? && w.retryable == r.retryable && w.capture == r.capture && w.error == r.error
  {
    Failure(r.error, code, message, r.retryable, r.capture)
  }
}
