/** The text form of a digest. */
module Hex {
  import opened Words
  import opened Wrappers
  import opened WordNumbers

  function HexDigit(n: uint1): char {
    if n == 0 then '0' else if n == 1 then '1' else if n == 2 then '2' else if n == 3 then '3'
    else if n == 4 then '4' else if n == 5 then '5' else if n == 6 then '6' else if n == 7 then '7'
    else if n == 8 then '8' else if n == 9 then '9' else if n == 10 then 'a' else if n == 11 then 'b'
    else if n == 12 then 'c' else if n == 13 then 'd' else if n == 14 then 'e' else 'f'
  }

  predicate IsHexDigit(c: char) {
    '0' <= c <= '9' || 'a' <= c <= 'f'
  }

  /** What "%02x" prints for one byte. */
  function HexByte(b: uint1): (s: string)
    ensures |s| == 2
  {
    [HexDigit(b >> 4), HexDigit(b & 0xf)]
  }

  function ToHex(bytes: seq<uint1>): (s: string)
    ensures |s| == 2 * |bytes|
  {
    if bytes == [] then [] else HexByte(bytes[0]) + ToHex(bytes[1..])
  }

  // ----- a parser for it

  function DigitValue(c: char): uint1 {
    if c == '0' then 0 else if c == '1' then 1 else if c == '2' then 2 else if c == '3' then 3
    else if c == '4' then 4 else if c == '5' then 5 else if c == '6' then 6 else if c == '7' then 7
    else if c == '8' then 8 else if c == '9' then 9 else if c == 'a' then 10 else if c == 'b' then 11
    else if c == 'c' then 12 else if c == 'd' then 13 else if c == 'e' then 14 else 15
  }

  function FromHex(s: string): Option<seq<uint1>> {
    if s == [] then Some([])
    else if |s| == 1 || !IsHexDigit(s[0]) || !IsHexDigit(s[1]) then None
    else match FromHex(s[2..])
      case None => None
      case Some(rest) => Some([(DigitValue(s[0]) << 4) | DigitValue(s[1])] + rest)
  }

  const DIGITS: string := "0123456789abcdef"

  /** A byte is printed as its two digits to the base 16, high one first. */
  lemma PrintedDigits(b: uint1)
    ensures HexByte(b) == [DIGITS[Val(b) / 16], DIGITS[Val(b) % 16]]
  {
    DigitOf(b >> 4);
    DigitOf(b & 0xf);
    TwoHalves(b);
  }

  lemma DigitOf(n: uint1)
    requires n < 16
    ensures Val(n) < 16 && HexDigit(n) == DIGITS[Val(n)]
  {}

  lemma TwoHalves(b: uint1)
    ensures b >> 4 < 16 && b & 0xf < 16 && Val(b) == 16 * Val(b >> 4) + Val(b & 0xf)
  {}

  lemma DigitBack(n: uint1)
    requires n < 16
    ensures IsHexDigit(HexDigit(n)) && DigitValue(HexDigit(n)) == n
  {}

  lemma DigitForth(c: char)
    requires IsHexDigit(c)
    ensures DigitValue(c) < 16 && HexDigit(DigitValue(c)) == c
  {}

  lemma Nibbles(b: uint1)
    ensures b >> 4 < 16 && b & 0xf < 16 && ((b >> 4) << 4) | (b & 0xf) == b
  {}

  lemma NibblesBack(h: uint1, l: uint1)
    requires h < 16 && l < 16
    ensures ((h << 4) | l) >> 4 == h && ((h << 4) | l) & 0xf == l
  {}

  /** Printing gives lower-case hexadecimal digits only, and parsing gives the bytes back. */
  lemma {:induction false} ParsePrint(bytes: seq<uint1>)
    ensures FromHex(ToHex(bytes)) == Some(bytes)
    ensures forall c :: c in ToHex(bytes) ==> IsHexDigit(c)
  {
    hide HexDigit, DigitValue, IsHexDigit;
    if bytes != [] {
      var b := bytes[0];
      Nibbles(b);
      DigitBack(b >> 4);
      DigitBack(b & 0xf);
      ParsePrint(bytes[1..]);
      var s := ToHex(bytes);
      assert s[0] == HexDigit(b >> 4) && s[1] == HexDigit(b & 0xf) && s[2..] == ToHex(bytes[1..]);
      assert [b] + bytes[1..] == bytes;
    }
  }

  /** Whatever parses is the printed form of what it parses to. */
  lemma {:induction false} PrintParse(s: string)
    requires FromHex(s).Some?
    ensures ToHex(FromHex(s).value) == s
  {
    hide HexDigit, DigitValue, IsHexDigit;
    if s != [] {
      DigitForth(s[0]);
      DigitForth(s[1]);
      NibblesBack(DigitValue(s[0]), DigitValue(s[1]));
      PrintParse(s[2..]);
      assert s == [s[0], s[1]] + s[2..];
    }
  }

  lemma {:induction false} ToHexAppend(p: seq<uint1>, q: seq<uint1>)
    ensures ToHex(p + q) == ToHex(p) + ToHex(q)
  {
    hide HexByte;
    if p == [] {
      assert p + q == q;
    } else {
      assert (p + q)[1..] == p[1..] + q;
      ToHexAppend(p[1..], q);
    }
  }
}
