/** The bytes of sections, rings and strings. */
module Bytes {
  type Byte = x: int | 0 <= x < 256
}
