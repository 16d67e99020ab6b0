/** Option and Result types, and the failures a derivation pass can raise. */
module Wrappers {

  /** A value that may be absent: a missing (NaN) cell, or a rate whose denominator is zero. */
  datatype Option<+T> = None | Some(value: T)

  /** The exception a mode handler raises instead of producing its view. */
  datatype Error =
    | KeyError(key: string)             // a name or column that is not present
    | IndexError                        // [0] or [-1] of an empty array, or a parallel array that ran out
    | RangeError(n: int, lo: int, hi: int)  // a window length outside lo..hi

  datatype Result<+T> = Ok(value: T) | Err(error: Error)
}
