/** Option and Result, the failure-carrying values the rest of the model returns. */
module Wrappers {

  datatype Option<+T> = None | Some(value: T)

  /** `Err` carries the message of the exception the source would throw; for a
      database error, the driver's code prefix followed by SQLite's message. */
  datatype Result<+T> = Ok(value: T) | Err(error: string)
}
