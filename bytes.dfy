/** Octets, as read from and written to files and carried in request bodies. */
module Bytes {

  /** One octet: Python's `bytes` element, an element of a Node `Buffer`. */
  type byte = b: int | 0 <= b < 256
}
