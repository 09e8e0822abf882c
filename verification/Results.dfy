/** The shapes of a Go `(value, error)` return and of a missing value. */
module Results {
  datatype Error =
    | NotFound
    | Corrupted
    | InvalidRange
    | InvalidFormat
    | InvalidString
    | Io

  datatype Result<+T> = Ok(value: T) | Err(error: Error)

  datatype Option<+T> = None | Some(value: T)
}
