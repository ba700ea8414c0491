/** Byte strings. */
module Bytes {
  type Bytes = seq<bv8>
}
