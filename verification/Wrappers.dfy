/** Optional values, and the two outcomes of a call that the source ends with an exception. */
module Wrappers {

  datatype Option<+T> = None | Some(value: T)

  datatype Result<+T> = Ok(value: T) | Err(error: Error)

  /** The exceptions the modelled code raises itself. */
  datatype Error =
    | WriteValidationError(rejected: string)
    | NamespaceError(metricKey: string)
    | RateNotPositive
    | AboveCapacity
    | MalformedId
}
