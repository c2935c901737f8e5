/** Failure-carrying return values: `Option` for Rust's `Option` and for a
    conversion that panics, `Result` for `anyhow::Result`, `Outcome` for a
    `Result<()>` that carries no value. */
module Wrappers {

  datatype Option<+T> = None | Some(value: T)

  datatype Result<+T, +E> = Ok(value: T) | Err(error: E)

  datatype Outcome<+E> = Pass | Fail(error: E)
}
