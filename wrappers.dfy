/** Optional values and results with an error, used for every outcome that
    the updater receives from the network. */
module Wrappers {

  datatype Option<+T> = None | Some(value: T)

  datatype Result<+T, +E> = Success(value: T) | Failure(error: E)
}
