/** Failure-carrying datatypes shared by the ledger modules. */
module Wrappers {

  /** A value that may be absent; stands for the source's `null`. */
  datatype Option<+T> = None | Some(value: T)

  /** The result of an operation that either returns a value or throws with a message. */
  datatype Result<+T> = Ok(value: T) | Err(message: string)

  /** The result of an operation that returns nothing or throws with a message. */
  datatype Outcome = Pass | Fail(message: string)
}
