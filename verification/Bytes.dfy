/** Bytes, shared by the codecs, the file store and the wire. */
module Bytes {
  newtype byte = x: int | 0 <= x < 256
  type bytes = seq<byte>
}
