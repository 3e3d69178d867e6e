/** Failure-carrying values shared by every module of the model.
    Python raises exceptions; the model returns them as values, so that each
    error path the source has is visible in a contract. */
module Wrappers {

  datatype Option<+T> = None | Some(value: T)

  /** The Python exceptions that the modelled code raises or lets through. */
  datatype Error =
    | KeyError(key: string)            // dict lookup of a missing key
    | NoneKeyError                     // dict lookup of the key None
    | TypeError(message: string)       // wrong kind of argument
    | ValueError(message: string)      // a value the operation refuses
    | IndexError(message: string)      // list.pop on a missing index
    | UnboundLocalError(name: string)  // a local read before any assignment
    | JsonDecodeError                  // json.loads on text that is not JSON
    | ToolFailure(message: string)     // whatever a tool's own callable raised

  datatype Result<+T> = Ok(value: T) | Err(error: Error)

  /** The result of an operation that returns nothing (Python's None) or raises. */
  datatype Outcome = Pass | Fail(error: Error)
}
