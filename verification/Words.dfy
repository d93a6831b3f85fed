/** The machine types of server/MD5.h and the bit operations of server/MD5.cpp.
    Words and bytes are bit vectors.  Lengths and counters, which index memory, are
    integers below 2^32 whose wrap-around is written out. */
module Words {

  type uint1 = bv8
  type uint4 = bv32

  const TWO_32 := 0x1_0000_0000
  const TWO_64 := 0x1_0000_0000_0000_0000

  type size32 = n: int | 0 <= n < 0x1_0000_0000

  /** Unsigned 32-bit addition. */
  function Add32(x: size32, y: size32): size32 {
    (x + y) % TWO_32
  }

  // ----- the four round functions

  function F(x: uint4, y: uint4, z: uint4): uint4 { (x & y) | (!x & z) }

  function G(x: uint4, y: uint4, z: uint4): uint4 { (x & z) | (y & !z) }

  function H(x: uint4, y: uint4, z: uint4): uint4 { x ^ y ^ z }

  function I(x: uint4, y: uint4, z: uint4): uint4 { y ^ (x | !z) }

  // ----- rotation

  /** The sixteen rotation amounts S11 .. S44. */
  predicate IsShift(n: uint4) {
    n == 7 || n == 12 || n == 17 || n == 22 ||
    n == 5 || n == 9 || n == 14 || n == 20 ||
    n == 4 || n == 11 || n == 16 || n == 23 ||
    n == 6 || n == 10 || n == 15 || n == 21
  }

  function RotateLeft(x: uint4, n: uint4): uint4
    requires n < 32
  {
    (x << n) | (x >> (32 - n))
  }

  function RotateRight(x: uint4, n: uint4): uint4
    requires n < 32
  {
    (x >> n) | (x << (32 - n))
  }

  // One lemma per amount: the solver decides each of them at once, and several together not at all.

  lemma Back7(x: uint4)
    ensures RotateRight(RotateLeft(x, 7), 7) == x == RotateLeft(RotateRight(x, 7), 7)
  {}

  lemma Back12(x: uint4)
    ensures RotateRight(RotateLeft(x, 12), 12) == x == RotateLeft(RotateRight(x, 12), 12)
  {}

  lemma Back17(x: uint4)
    ensures RotateRight(RotateLeft(x, 17), 17) == x == RotateLeft(RotateRight(x, 17), 17)
  {}

  lemma Back22(x: uint4)
    ensures RotateRight(RotateLeft(x, 22), 22) == x == RotateLeft(RotateRight(x, 22), 22)
  {}

  lemma Back5(x: uint4)
    ensures RotateRight(RotateLeft(x, 5), 5) == x == RotateLeft(RotateRight(x, 5), 5)
  {}

  lemma Back9(x: uint4)
    ensures RotateRight(RotateLeft(x, 9), 9) == x == RotateLeft(RotateRight(x, 9), 9)
  {}

  lemma Back14(x: uint4)
    ensures RotateRight(RotateLeft(x, 14), 14) == x == RotateLeft(RotateRight(x, 14), 14)
  {}

  lemma Back20(x: uint4)
    ensures RotateRight(RotateLeft(x, 20), 20) == x == RotateLeft(RotateRight(x, 20), 20)
  {}

  lemma Back4(x: uint4)
    ensures RotateRight(RotateLeft(x, 4), 4) == x == RotateLeft(RotateRight(x, 4), 4)
  {}

  lemma Back11(x: uint4)
    ensures RotateRight(RotateLeft(x, 11), 11) == x == RotateLeft(RotateRight(x, 11), 11)
  {}

  lemma Back16(x: uint4)
    ensures RotateRight(RotateLeft(x, 16), 16) == x == RotateLeft(RotateRight(x, 16), 16)
  {}

  lemma Back23(x: uint4)
    ensures RotateRight(RotateLeft(x, 23), 23) == x == RotateLeft(RotateRight(x, 23), 23)
  {}

  lemma Back6(x: uint4)
    ensures RotateRight(RotateLeft(x, 6), 6) == x == RotateLeft(RotateRight(x, 6), 6)
  {}

  lemma Back10(x: uint4)
    ensures RotateRight(RotateLeft(x, 10), 10) == x == RotateLeft(RotateRight(x, 10), 10)
  {}

  lemma Back15(x: uint4)
    ensures RotateRight(RotateLeft(x, 15), 15) == x == RotateLeft(RotateRight(x, 15), 15)
  {}

  lemma Back21(x: uint4)
    ensures RotateRight(RotateLeft(x, 21), 21) == x == RotateLeft(RotateRight(x, 21), 21)
  {}

  /** Rotation by any of the sixteen amounts is a bijection on words. */
  lemma RotateInverse(x: uint4, n: uint4)
    requires IsShift(n)
    ensures RotateRight(RotateLeft(x, n), n) == x
    ensures RotateLeft(RotateRight(x, n), n) == x
  {
    hide RotateLeft, RotateRight;
    Back7(x); Back12(x); Back17(x); Back22(x);
    Back5(x); Back9(x); Back14(x); Back20(x);
    Back4(x); Back11(x); Back16(x); Back23(x);
    Back6(x); Back10(x); Back15(x); Back21(x);
  }
}
