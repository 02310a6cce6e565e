/** The two ways the modelled operations fail, in place of the exceptions
    the program would raise. */
module Outcomes {

  datatype Failure =
    | ChannelIndexOutOfRange  // `arr[:, :, 2]` on an array with fewer than three channels
    | DivisionByZero          // `svd_bytes / original_bytes` with `original_bytes == 0`

  datatype Result<T> = Ok(value: T) | Err(failure: Failure)
}
