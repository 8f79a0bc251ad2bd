/** Failure-carrying values shared by every module. */
module Wrappers {
  datatype Option<+T> = None | Some(value: T)

  datatype Result<+T, +E> = Ok(value: T) | Err(error: E)

  /** One code point of a Python string (lone surrogates included), or one byte of a byte string. */
  type CodePoint = c: int | 0 <= c < 0x11_0000

  type Text = seq<CodePoint>

  /** The process environment, restricted to the ownership variables the scopes read. */
  type Env = map<string, Text>
}
