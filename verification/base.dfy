/** Shared value types. */
module Base {

  datatype Option<+T> = None | Some(value: T)

  /** A Python call that either returns or raises. */
  datatype Outcome<+T, +E> = Ok(value: T) | Raised(error: E)

  newtype byte = x: int | 0 <= x < 256

  type Bytes = seq<byte>

  /** Case folding of the ASCII letters; other characters are left alone. */
  function LowerChar(c: char): char {
    if 'A' <= c <= 'Z' then c + 32 as char else c
  }

  function Lower(s: string): (l: string)
    ensures |l| == |s|
  {
    seq(|s|, i requires 0 <= i < |s| => LowerChar(s[i]))
  }
}
