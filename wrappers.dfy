/**
 * Optional values, standing for the source's nullable and absent fields,
 * and the outcome of reading JSON text.
 */
module Wrappers {

  datatype Option<+T> = None | Some(value: T) {

    /** The value, or `default` when absent (JavaScript's `x ?? d`). */
    function GetOr(default: T): T {
      match this
      case Some(v) => v
      case None => default
    }
  }

  /** `JSON.parse` or `req.json()`: the value read, or the message of the error thrown. */
  datatype Parse<+T> = Parsed(value: T) | ParseError(message: string)
}
