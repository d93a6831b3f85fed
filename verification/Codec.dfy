/** Words to bytes and back, low-order byte first (section 2 of RFC 1321). */
module Codec {
  import opened Words
  import opened Octets

  // ----- one word

  /** Byte k of w, counted from the low-order end. */
  function ByteOf(w: uint4, k: nat): uint1
    requires k < 4
  {
    if k == 0 then (w & 0xff) as uint1
    else if k == 1 then ((w >> 8) & 0xff) as uint1
    else if k == 2 then ((w >> 16) & 0xff) as uint1
    else ((w >> 24) & 0xff) as uint1
  }

  function WordOf(b0: uint1, b1: uint1, b2: uint1, b3: uint1): uint4 {
    (b0 as uint4) | ((b1 as uint4) << 8) | ((b2 as uint4) << 16) | ((b3 as uint4) << 24)
  }

  // ----- many words

  function EncodeWords(ws: seq<uint4>): (bs: seq<uint1>)
    ensures |bs| == 4 * |ws|
  {
    seq(4 * |ws|, j requires 0 <= j < 4 * |ws| => ByteOf(ws[j / 4], j % 4))
  }

  lemma EncodeSnoc(ws: seq<uint4>, w: uint4)
    ensures EncodeWords(ws + [w]) == EncodeWords(ws) + [ByteOf(w, 0), ByteOf(w, 1), ByteOf(w, 2), ByteOf(w, 3)]
  {}

  lemma EncodeNone(ws: seq<uint4>)
    requires ws == []
    ensures EncodeWords(ws) == []
  {}

  function WordAt(bs: seq<uint1>, j: nat): uint4
    requires j + 4 <= |bs|
  {
    WordOf(bs[j], bs[j + 1], bs[j + 2], bs[j + 3])
  }

  function DecodeWords(bs: seq<uint1>): (ws: seq<uint4>)
    requires |bs| % 4 == 0
    ensures |ws| == |bs| / 4
  {
    seq(|bs| / 4, i requires 0 <= i < |bs| / 4 => WordAt(bs, 4 * i))
  }

  /** Decoding undoes encoding. */
  lemma DecodeEncode(ws: seq<uint4>)
    ensures DecodeWords(EncodeWords(ws)) == ws
  {}

  /** Encoding undoes decoding, on every length that is a multiple of four. */
  lemma EncodeDecode(bs: seq<uint1>)
    requires |bs| % 4 == 0
    ensures EncodeWords(DecodeWords(bs)) == bs
  {}

  lemma EncodeInjective(v: seq<uint4>, w: seq<uint4>)
    requires EncodeWords(v) == EncodeWords(w)
    ensures v == w
  {
    DecodeEncode(v);
    DecodeEncode(w);
  }

  // ----- numbers

  lemma OctetInjective(m: nat, n: nat)
    requires m < 256 && n < 256 && Octet(m) == Octet(n)
    ensures m == n
  {
    hide Octet;
    OctetBack(m);
    OctetBack(n);
  }

  /** The k low-order bytes of n, lowest first. */
  function LittleEndian(n: nat, k: nat): (bs: seq<uint1>)
    ensures |bs| == k
  {
    if k == 0 then [] else [Octet(n % 256)] + LittleEndian(n / 256, k - 1)
  }

  function Pow256(k: nat): (p: nat)
    ensures p > 0
  {
    if k == 0 then 1 else 256 * Pow256(k - 1)
  }

  /** k bytes determine a number below 256^k. */
  lemma {:induction false} LittleEndianInjective(m: nat, n: nat, k: nat)
    requires m < Pow256(k) && n < Pow256(k)
    requires LittleEndian(m, k) == LittleEndian(n, k)
    ensures m == n
  {
    hide Octet;
    if k > 0 {
      assert LittleEndian(m, k)[0] == Octet(m % 256) && LittleEndian(n, k)[0] == Octet(n % 256);
      OctetInjective(m % 256, n % 256);
      assert LittleEndian(m, k)[1..] == LittleEndian(m / 256, k - 1);
      assert LittleEndian(n, k)[1..] == LittleEndian(n / 256, k - 1);
      LittleEndianInjective(m / 256, n / 256, k - 1);
    }
  }

  lemma LittleEndianStep(n: nat, k: nat)
    ensures LittleEndian(n, k + 1) == [Octet(n % 256)] + LittleEndian(n / 256, k)
  {}

  lemma LittleEndianNone(n: nat)
    ensures LittleEndian(n, 0) == []
  {}

  lemma DivideTwice(n: nat)
    ensures n / 256 / 256 == n / 0x1_0000
  {}

  lemma DivideThrice(n: nat)
    ensures n / 0x1_0000 / 256 == n / 0x100_0000
  {}

  lemma DivideFourTimes(n: nat)
    ensures n / 0x100_0000 / 256 == n / 0x1_0000_0000
  {}

  /** Four bytes of n are those of its low 32 bits; the bytes after them are those of n / 2^32. */
  lemma LittleEndianSplit(n: nat, k: nat)
    ensures LittleEndian(n, k + 4) ==
            [Octet(n % 256), Octet(n / 0x100 % 256), Octet(n / 0x1_0000 % 256), Octet(n / 0x100_0000 % 256)]
            + LittleEndian(n / 0x1_0000_0000, k)
  {
    hide Octet, LittleEndian;
    DivideTwice(n);
    DivideThrice(n);
    DivideFourTimes(n);
    LittleEndianStep(n, k + 3);
    LittleEndianStep(n / 0x100, k + 2);
    LittleEndianStep(n / 0x1_0000, k + 1);
    LittleEndianStep(n / 0x100_0000, k);
  }

  /** A 32-bit counter read as a bit vector. */
  function ToWord(n: size32): uint4 {
    WordOf(Octet(n % 256), Octet(n / 0x100 % 256), Octet(n / 0x1_0000 % 256), Octet(n / 0x100_0000 % 256))
  }

  lemma ToWordBytes(n: size32)
    ensures ByteOf(ToWord(n), 0) == Octet(n % 256)
    ensures ByteOf(ToWord(n), 1) == Octet(n / 0x100 % 256)
    ensures ByteOf(ToWord(n), 2) == Octet(n / 0x1_0000 % 256)
    ensures ByteOf(ToWord(n), 3) == Octet(n / 0x100_0000 % 256)
  {}

  lemma EncodeOne(n: size32)
    ensures EncodeWords([ToWord(n)]) == LittleEndian(n, 4)
  {
    hide ByteOf, ToWord, Octet, LittleEndian;
    ToWordBytes(n);
    LittleEndianSplit(n, 0);
    LittleEndianNone(n / 0x1_0000_0000);
  }

  lemma EncodeTwo(v: uint4, w: uint4)
    ensures EncodeWords([v, w]) == EncodeWords([v]) + EncodeWords([w])
  {}

  lemma ModShift(r: nat, q: nat)
    ensures (r + 256 * q) % 256 == r % 256
  {}

  lemma LowDigits(hi: nat, lo: nat, n: nat)
    requires n == hi * TWO_32 + lo
    ensures n % 256 == lo % 256
    ensures n / 0x100 % 256 == lo / 0x100 % 256
    ensures n / 0x1_0000 % 256 == lo / 0x1_0000 % 256
    ensures n / 0x100_0000 % 256 == lo / 0x100_0000 % 256
  {
    ModShift(lo, hi * 0x100_0000);
    assert n / 0x100 == lo / 0x100 + 256 * (hi * 0x1_0000);
    ModShift(lo / 0x100, hi * 0x1_0000);
    assert n / 0x1_0000 == lo / 0x1_0000 + 256 * (hi * 0x100);
    ModShift(lo / 0x1_0000, hi * 0x100);
    assert n / 0x100_0000 == lo / 0x100_0000 + 256 * hi;
    ModShift(lo / 0x100_0000, hi);
  }

  /** Two counter words encoded low word first are the eight bytes of the 64-bit number. */
  lemma EncodeCount(lo: size32, hi: size32)
    ensures EncodeWords([ToWord(lo), ToWord(hi)]) == LittleEndian(hi * TWO_32 + lo, 8)
  {
    hide EncodeWords, ToWord, Octet, LittleEndian;
    var n := hi * TWO_32 + lo;
    EncodeTwo(ToWord(lo), ToWord(hi));
    EncodeOne(lo);
    EncodeOne(hi);
    LittleEndianSplit(n, 4);
    LittleEndianSplit(lo, 0);
    LittleEndianNone(lo / 0x1_0000_0000);
    assert n / 0x1_0000_0000 == hi;
    LowDigits(hi, lo, n);
  }
}
