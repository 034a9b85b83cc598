/** Option and Result, the two wrapper shapes the modelled code uses:
    Rust's `Option`/`Result` in the canister, `undefined` and `{Ok}|{Err}` in the client. */
module Wrappers {

  datatype Option<+T> = None | Some(value: T)

  datatype Result<+T, +E> = Ok(value: T) | Err(error: E)

}
