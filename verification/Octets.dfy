/** Numbers below 256 as bytes, half a byte at a time. */
module Octets {

  function Octet(n: nat): bv8
    requires n < 0x100
  {
    ((n / 0x10) as bv8 << 4) | (n % 0x10) as bv8
  }

  lemma OctetBack(n: nat)
    requires n < 0x100
    ensures (Octet(n) as int) == n
  {
    HalfBack(n / 0x10);
    HalfBack(n % 0x10);
    HalvesJoin((n / 0x10) as bv8, (n % 0x10) as bv8);
  }

  lemma HalfBack(n: int)
    requires 0 <= n < 0x10
    ensures ((n as bv8) as int) == n && n as bv8 < 0x10
  {}

  lemma HalvesJoin(h: bv8, l: bv8)
    requires h < 0x10 && l < 0x10
    ensures (((h << 4) | l) as int) == 0x10 * (h as int) + (l as int)
  {}
}
