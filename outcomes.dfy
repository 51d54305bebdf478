/** The two wrappers the components' values need: a nullable reference and
    the outcome of a handler that either applies or is refused with a toast. */
module Outcomes {

  /** A TypeScript value of type `T | null`. */
  datatype Option<T> = None | Some(value: T)

  /** A handler that either produces the new state or stops early with the
      error message it shows the user. */
  datatype Result<T> = Ok(value: T) | Rejected(reason: string)
}
