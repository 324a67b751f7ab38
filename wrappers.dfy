/** Optional values and error results, used for what the source expresses with a
    caught `ValueError`: a number that did not parse, or a refused withdrawal. */
module Wrappers {

  datatype Option<+T> = None | Some(value: T)

  datatype Result<+T, +E> = Ok(value: T) | Err(error: E)
}
