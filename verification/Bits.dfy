/** Bytes as numbers and as bit vectors. */
module Bits {
  type Octet = n: nat | n < 256

  function And(x: Octet, mask: bv8): Octet {
    (x as bv8 & mask) as int
  }

  lemma Nibbles(high: int, low: int)
    requires 0 <= high < 16 && 0 <= low < 16
    ensures (16 * high + low) as bv8 as int == 16 * high + low
  {
  }

  lemma RoundTrip(x: int)
    requires 0 <= x < 256
    ensures x as bv8 as int == x
  {
    Nibbles(x / 16, x % 16);
  }

  lemma AndFull(x: Octet)
    ensures And(x, 0xFF) == x
  {
    RoundTrip(x);
    assert x as bv8 & 0xFF == x as bv8;
  }

  lemma HighBits(b: bv8)
    ensures (b & 0xF0) as int == b as int - b as int % 16
  {
    assert b & 0xF0 == b - b % 16;
  }

  lemma AndHigh(x: Octet)
    ensures And(x, 0xF0) == x - x % 16
  {
    RoundTrip(x);
    HighBits(x as bv8);
  }
}
