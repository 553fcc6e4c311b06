/** The unsigned 8-bit sample type shared by frames, outputs and heap memory. */
module Bytes {
  newtype byte = x: int | 0 <= x < 256
}
