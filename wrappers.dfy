/** Option and Result, the two failure-carrying shapes of the gateway's Rust code. */
module Wrappers {

  /** Rust's `Option<T>`. */
  datatype Option<+T> = None | Some(value: T)

  /** Rust's `Result<T, String>`: every command of the gateway reports its errors as text. */
  datatype Result<+T> = Ok(value: T) | Err(error: string)
}
