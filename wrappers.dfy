/** Optional values and results with an error, used where the scanner returns
    "nothing" (a failed probe, an unparsable number) or raises an error. */
module Wrappers {

  datatype Option<+T> = None | Some(value: T)

  datatype Result<+T, +E> = Success(value: T) | Failure(error: E)
}
