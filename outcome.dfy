/** Optional values and results with an error, used for the scraper's lookups and exceptions. */
module Outcome {

  datatype Option<+T> = None | Some(value: T)

  datatype Result<+T, +E> = Ok(value: T) | Err(error: E)
}
