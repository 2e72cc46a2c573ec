/** Types shared by the other modules. */
module Common {

  type byte = x: int | 0 <= x < 256

  const NEWLINE: byte := '\n' as int

  /** The bytes of an ASCII text. */
  function Ascii(s: string): seq<byte>
    requires forall i :: 0 <= i < |s| ==> s[i] < '\U{80}'
  {
    seq(|s|, i requires 0 <= i < |s| => s[i] as int)
  }

  datatype Option<+T> = None | Some(value: T)

  datatype Result<+T, +E> = Ok(value: T) | Err(error: E)
}
