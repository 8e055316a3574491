/** Bytes, as streams and buffers hold them. */
module Bytes {
  newtype byte = b: int | 0 <= b < 256
}
