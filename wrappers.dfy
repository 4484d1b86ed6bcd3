/** Option and Result: Option for queries that may find nothing, Result for
    lookups that raise DBLayerError on a miss. */
module Wrappers {

  datatype Option<+T> = None | Some(value: T)

  datatype Result<+R, +E> = Success(value: R) | Failure(error: E)
}
