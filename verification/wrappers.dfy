/** Failure-carrying values shared by every module of the model.
    Errors of the Rust program are `anyhow::Error` or `String`; the model keeps
    only the text they display, so the error type is fixed to `string`. */
module Wrappers {

  /** Rust's `Option<T>`. */
  datatype Option<+T> = None | Some(value: T)

  /** `anyhow::Result<T>` / `Result<T, String>`, reduced to the displayed error text. */
  datatype Result<+T> = Ok(value: T) | Err(error: string)

  /** True when `suffix` is the tail of `s`. */
  predicate EndsWith(s: string, suffix: string)
  {
    |suffix| <= |s| && s[|s| - |suffix|..] == suffix
  }

  /** True when `prefix` is the head of `s`. */
  predicate StartsWith(s: string, prefix: string)
  {
    |prefix| <= |s| && s[..|prefix|] == prefix
  }
}
