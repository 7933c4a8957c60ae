/** Outcomes of the operations in this model: a value, or the exception that
    the Python program would raise at that point (which aborts the whole run);
    and `Option`, for a slice bound that may be `None`. */
module Failures {

  /** A value that may be absent, as Python's `None`. */
  datatype Option<+T> = None | Some(value: T)

  /** The exceptions the modelled code can raise. */
  datatype Failure =
    | AxisOutOfRange      // IndexError: `newshape[axis]` with `axis` past the last dimension
    | NegativeDimension   // ValueError: refining an axis of length 0 asks for length -1
    | NoCells             // IndexError: `nidxs[0]` when some cell count is 0
    | HeaderLength        // ValueError: the header record does not unpack into six names
    | ReshapeSize         // ValueError: a record's length does not fit the requested shape

  datatype Result<+T> = Ok(value: T) | Err(error: Failure)
}
