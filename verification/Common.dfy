/** Types shared by every module of the project. */
module Common {

  datatype Option<+T> = None | Some(value: T)

  datatype Result<+T, +E> = Ok(value: T) | Err(error: E)

  /** One element of a JavaScript Uint8Array. */
  type Byte = b: int | 0 <= b < 256

  type Bytes = seq<Byte>
}
