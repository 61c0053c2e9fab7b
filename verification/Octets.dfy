/** The bytes that packets, frames and files are made of. */
module Octets {
  type byte = x: int | 0 <= x < 256
}
