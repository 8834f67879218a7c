/** Optional values, and results that carry either a value or the Python
    exception the scraper would raise. */
module Wrappers {

  datatype Option<+T> = None | Some(value: T)

  /** The exceptions the scraper raises on purpose or lets escape. */
  datatype Error =
    | IndexError(message: string)   // indexing an empty list
    | ValueError(message: string)   // an argument outside the accepted set

  datatype Result<+T> = Ok(value: T) | Err(error: Error)
}
