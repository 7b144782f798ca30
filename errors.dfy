/**
 * The error vocabulary of the clone generator model: C-style error codes and
 * the result of a library helper that can fail.
 */
module Errors {

  /** A negative errno value, as systemd functions return on failure. */
  type Errno = e: int | e < 0 witness -1

  /** What an I/O primitive or a generator step returns: 0 or a negative errno. */
  type Status = r: int | r <= 0

  /** A helper that either yields a value or fails with a negative errno. */
  datatype Result<T> = Ok(value: T) | Err(code: Errno)

  datatype Option<T> = None | Some(value: T)
}
