/** The bytes of texts and identifiers. */
module Bytes {

  type Byte = b: int | 0 <= b < 256
}
