/** Optional values and results with an error, as the scraper's functions return them
    (Python's `None` and raised exceptions made explicit). */
module Wrappers {

  datatype Option<+T> = None | Some(value: T)

  datatype Result<+R, +E> = Success(value: R) | Failure(error: E)
}
