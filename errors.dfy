/** Error values and the small result wrappers used across the model. */
module Errors {

  /** An optional value; `None` in an error position stands for Go's `nil`. */
  datatype Option<+T> = None | Some(value: T)

  /** The outcome of a conversion: a value, or the kind of error returned. */
  datatype Result<+T> = Success(value: T) | Failure(error: Error)

  /** The error kinds the package returns, without their message text:
      end of input (`io.EOF`), and the two sentinels `ErrParse` and
      `ErrUnsupported` that every conversion error wraps. */
  datatype Error = EOF | ParseErr | Unsupported
}
