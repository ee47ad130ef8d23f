/** Failure-carrying results, used for the service's error returns, and how a call to the outside ends. */
module Wrappers {
  datatype Option<+T> = None | Some(value: T)

  datatype Result<+T, +E> = Ok(value: T) | Err(error: E)

  /** With `ReplyLost` the call takes effect and the caller sees an error. */
  datatype Outcome = Succeeds | Fails | ReplyLost
}
