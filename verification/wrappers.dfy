/** Failure-carrying results, standing in for the exceptions the Python code raises. */
module Wrappers {

  datatype Option<+T> = None | Some(value: T)

  /** `Err(message)` stands for a raised exception whose text is `message`. */
  datatype Result<+R> = Ok(value: R) | Err(message: string)
}
