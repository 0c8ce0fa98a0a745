/** Bytes, shared by everything that works on text, blocks or sectors. */
module Bytes {
  type byte = x: int | 0 <= x < 256
}
