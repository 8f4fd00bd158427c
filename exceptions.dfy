/** Failure-compatible results standing for the exceptions the scraper raises.
    Every failure of the Python code propagates to the caller unhandled, so an
    operation either yields a value or the first exception it ran into. */
module Exceptions {

  datatype Option<+T> = None | Some(value: T)

  /** The exceptions the core can raise. */
  datatype Error =
    | IndexError              // `xs[i]` past the end of a list or string
    | KeyError(key: string)   // `d[k]` for a key the dict lacks
    | AttributeError          // an attribute read on `None` (missing markup)
    | MainTableNotFound       // "Not found main table on page ..."
    | HttpStatus(status: int) // a fetch that did not answer 200

  datatype Result<+T> = Ok(value: T) | Err(error: Error) {

    predicate IsFailure() {
      Err?
    }

    function PropagateFailure<U>(): Result<U>
      requires Err?
    {
      Err(error)
    }

    function Extract(): T
      requires Ok?
    {
      value
    }
  }
}
