/** Values shared by every layer of the console-stream model: bytes, the
    option and result types the Rust code returns, and the error kinds this
    layer can produce. */
module Base {

  /** Rust's `u8`. */
  newtype byte = x: int | 0 <= x < 256

  /** `b'\r'`, carriage return. */
  const CR: byte := 13
  /** `b'\n'`, line feed. */
  const LF: byte := 10

  datatype Option<+T> = None | Some(value: T)

  /** `AxResult<T>` and `LinuxResult<T>`: a value or an error. */
  datatype Result<+T, +E> = Ok(value: T) | Err(error: E)

  /** The variants of `axerrno::AxError` that this layer produces. */
  datatype AxError = WouldBlock

  /** The variants of `axerrno::LinuxError` that this layer produces. */
  datatype LinuxError = EPERM | EAGAIN

  /** The conversion that `?` applies when an `AxResult` is returned as a
      `LinuxResult`: a would-block condition becomes EAGAIN. */
  function FromAxError(e: AxError): (l: LinuxError)
    ensures l == EAGAIN
  {
    match e
    case WouldBlock => EAGAIN
  }
}
