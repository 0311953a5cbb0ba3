/** Optional values (the source's nullable references and strings) and
    results (the source's thrown exceptions, carried as a message). */
module Wrappers {

  datatype Option<+T> = None | Some(value: T)

  datatype Result<+R, +E> = Success(value: R) | Failure(error: E)
}
