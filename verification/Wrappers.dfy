/** Values that may be missing, and checks that may refuse. */
module Wrappers {

  datatype Option<+T> = None | Some(value: T)

  /** The outcome of a checking tool: a value, or the refusal it raises. */
  datatype Result<+T> = Ok(value: T) | Refused(reason: string)
}
