/** Small value types shared by every module of the model. */
module Common {

  /** An optional value, as Rust's `Option`. */
  datatype Option<+T> = None | Some(value: T)

  /** A success or an error, as Rust's `Result`. */
  datatype Result<+T, +E> = Success(value: T) | Failure(error: E)

  /** One octet of a serialized payload. */
  newtype byte = x: int | 0 <= x < 256

  /** An opaque `std::io::Error`: the model only needs to carry it along. */
  datatype IoError = IoError(description: string)
}
