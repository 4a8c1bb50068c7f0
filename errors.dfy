// The error surface of the filter (src/main.rs:17-20) and the Result type
// that `hash`, `add_element` and `check_for` return.
module Errors {

  /** BloomFilterError: the filter's single error kind, "the hashing step failed". */
  datatype BloomFilterError = HashError

  /** Rust's `Result<R, BloomFilterError>`. */
  datatype Result<+R> = Ok(value: R) | Err(error: BloomFilterError)
}
