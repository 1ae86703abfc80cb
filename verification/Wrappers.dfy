/** Option and result types shared by the components. */
module Wrappers {

  datatype Option<+T> = None | Some(value: T)

  datatype Result<+T, +E> = Ok(value: T) | Err(error: E)

  function OrElse<T>(given: Option<T>, default: T): T {
    if given.Some? then given.value else default
  }
}
