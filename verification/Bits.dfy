/** Bytes and the numbers they stand for. */
module Bits {
  lemma ByteRoundTrip(n: nat)
    requires n < 256
    ensures (n as bv8) as nat == n
  {
  }
}
