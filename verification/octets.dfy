/** Bytes and byte strings. */
module Octets {
  newtype byte = b: int | 0 <= b < 256

  type Bytes = seq<byte>
}
