/** Option and Outcome, the failure-carrying values used throughout the model. */
module Wrappers {

  /** A value that may be missing: a C pointer that may be NULL. */
  datatype Option<+T> = None | Some(value: T)

  /** The result of a step that either produces a value or fails with the
      message the agent reports. */
  datatype Outcome<+T> = Done(value: T) | Failed(msg: string)
}
