/** Option and Result values standing in for Python's `None` and for the
    exceptions the modelled code raises. */
module Wrappers {

  datatype Option<+T> = None | Some(value: T)

  /** The only exception the modelled code raises on its own: an index past
      the end of a list (`parts[0]`, `parts[1]`, `PIECE_TABLE[color]`, the
      64-entry square table). */
  datatype Error = IndexError

  datatype Result<+T> = Ok(value: T) | Err(error: Error)
}
