/** Option and Result types shared by the model, plus the Python exception kinds that the
    modelled code can raise. */
module Wrappers {

  datatype Option<+T> = None | Some(value: T)

  /** The exceptions the modelled Python code raises on malformed input. */
  datatype Error =
    | KeyError(key: string)   // a dict lookup `d[key]` on a missing key
    | IndexError              // a sequence index out of range
    | ValueError              // a failed conversion (`int(...)`, `float(...)`, `str.index`)

  datatype Result<+T> = Ok(value: T) | Err(error: Error)
}
