/** Option and Result, the two wrappers the rest of the model uses for
    "no value" and for the error paths of the experiment code. */
module Wrappers {

  /** A value that may be absent; the export uses None where the
      Python code starts from a NaN mean. */
  datatype Option<+T> = None | Some(value: T)

  /** Either a value or the error that the Python code would raise. */
  datatype Result<+R, +E> = Ok(value: R) | Err(error: E)
}
