/** Optional values, results, and the Python exception kinds the core raises. */
module Wrappers {

  datatype Option<+T> = None | Some(value: T)

  /** The exceptions the modelled code raises or lets through. */
  datatype Error =
    | KeyError(key: string)
    | TypeError
    | ValueError
    | AttributeError
    | MalformedDocstr
    | DoctestParseError
    | OtherError(name: string)

  datatype Result<+T> = Ok(value: T) | Err(error: Error)

  /** A Python generator that yields `items` and then either stops or raises `error`. */
  datatype Stream<+T> = Stream(items: seq<T>, error: Option<Error>)
}
