/** Types that several modules share. */
module Wrappers {
  datatype Option<+T> = None | Some(value: T)

  type Byte = x: int | 0 <= x < 256

  /** The result of a 256-bit hash. */
  type Digest = b: seq<Byte> | |b| == 32 witness seq(32, _ => 0)
}
