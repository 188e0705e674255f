/** Failure-carrying results: the interpolator signals an impossible query
    with a value instead of an exception. */
module Outcomes {

  datatype Option<T> = None | Some(value: T)

  datatype Result<T, E> = Ok(value: T) | Err(error: E)
}
