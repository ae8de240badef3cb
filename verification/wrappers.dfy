/** Failure-compatible wrappers used across the model.
    `Option` stands for a Java reference that may be `null`;
    `Result` stands for a call that either returns or throws. */
module Wrappers {

  /** `None` plays the role of a Java `null`. */
  datatype Option<+T> = None | Some(value: T)

  /** `Failure` plays the role of an exception escaping the call. */
  datatype Result<+R, +E> = Success(value: R) | Failure(error: E)
}
