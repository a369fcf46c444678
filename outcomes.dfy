/** Optional values and results with the failures the modelled Python code raises. */
module Outcomes {

  /** Python's `None` versus a present value. */
  datatype Option<+T> = None | Some(value: T)

  /** The exceptions that end a handler before it acknowledges. */
  datatype Failure =
    | KeyError(key: string)       // a dictionary lookup of a missing key
    | TaskCreationFailed          // the task queue refused or lost a `create_task` call

  datatype Result<+T> = Ok(value: T) | Err(error: Failure)
}
