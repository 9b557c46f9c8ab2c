/** The error and optional-value types the watcher layer passes around. */
module Wrappers {

  /** An `anyhow` error. Its payload is never inspected by the watcher layer, so it stays opaque. */
  type Error

  datatype Option<+T> = None | Some(value: T)

  /** `anyhow::Result<T>`: a value, or an opaque error. */
  datatype Result<+T> = Ok(value: T) | Err(error: Error)
}
