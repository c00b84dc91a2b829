/** Success-or-nothing and success-or-failure results, standing in for Rust's `Option` and `Result`. */
module Options {
  datatype Option<+T> = None | Some(value: T)

  /** A failed operation carries no payload: which internal error it was is presentation. */
  datatype Result<+T> = Ok(value: T) | Err
}
