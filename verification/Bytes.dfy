/** Bytes, shared by every module that moves data. */
module Bytes {
  type byte = x: int | 0 <= x < 256
}
