/** The optional value used for lookups that can miss, and the outcome of an operation that can throw. */
module Wrappers {
  datatype Option<T> = None | Some(value: T)

  datatype Result<T> = Ok(value: T) | Err(message: string)
}
