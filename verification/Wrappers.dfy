/** Optional values and results with an error, the two shapes the area's
    fields and its map-object factory need. */
module Wrappers {

  /** A value that may be absent; `None` plays the role of `undefined`. */
  datatype Option<+T> = None | Some(value: T)

  /** Either a value built successfully or the error that stopped it. */
  datatype Result<+T, +E> = Success(value: T) | Failure(error: E)
}
