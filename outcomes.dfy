/** Option and Result: the two sum types Rust's `Option<T>` and `Result<T, E>` give the
    repository, the service and the handlers. Absence (`None`) and failure (`Err`) are
    different constructors of different types, so no layer can confuse them. */
module Outcomes {

  datatype Option<+T> = None | Some(value: T)

  datatype Result<+T, +E> = Ok(value: T) | Err(error: E)
}
