/** Conversion between numbers and bytes. */
module Bytes {
  /** A byte holds every number below 256. */
  lemma SmallByte(n: int)
    requires 0 <= n < 256
    ensures (n as bv8) as int == n
  {}
}
