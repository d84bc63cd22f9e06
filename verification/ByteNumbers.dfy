/** Numbers below 256 as bytes. */
module ByteNumbers {
  lemma ByteOfNumber(n: int)
    requires 0 <= n < 256
    ensures (n as bv8) as int == n
  {}
}
