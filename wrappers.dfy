/** Option and Result values used across the model. */
module Wrappers {

  datatype Option<+T> = None | Some(value: T)

  /**
   * Outcome of an operation that may hit the one fatal error the review
   * engine knows of: asking the application for a command it does not have.
   */
  datatype Result<+T> = Ok(value: T) | Unknown(command: string)
}
