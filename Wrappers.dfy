/** The two wrappers the rest of the model shares: an optional value (a
    JavaScript `undefined` or missing key is `None`) and the outcome of a
    call that either returns a value or throws an error. */
module Wrappers {

  datatype Option<+T> = None | Some(value: T)

  datatype Result<+T, +E> = Ok(value: T) | Err(error: E)
}
