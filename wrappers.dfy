/** Optional values, and the outcome of an operation that may raise one of the
    exceptions the two translators raise. */
module Wrappers {

  datatype Option<+T> = None | Some(value: T)

  /** The exceptions the translators raise; each aborts the whole run. */
  datatype Error =
    | SyntaxError(line: string)        // a VM line that is no known command
    | AssertionError(message: string)  // a failed `assert` in the source
    | KeyError(key: string)            // a lookup in a fixed table that misses
    | ValueError(text: string)         // `int(text)` on a non-numeric text
    | IndexError                       // a list index past the end

  datatype Result<+T> = Ok(value: T) | Err(error: Error)
}
