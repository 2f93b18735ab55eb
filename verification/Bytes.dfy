/** Bytes, text as UTF-8 bytes, and 32-byte digests. */
module Bytes {
  newtype byte = b: int | 0 <= b < 256

  type Text = seq<byte>

  const ZEROS: seq<byte> := seq(32, _ => 0)

  type Digest = d: seq<byte> | |d| == 32 witness ZEROS
}
