/** What the operations on words come to, bit by bit and as numbers. */
module WordNumbers {
  import opened Words
  import opened Octets
  import opened Codec

  /** A word as a number. */
  function Num(w: uint4): (n: nat) { w as int }

  /** A byte as a number. */
  function Val(b: uint1): (n: nat) { b as int }

  lemma NumBelow(w: uint4)
    ensures Num(w) < TWO_32
  {}

  // ----- the round functions, section 3.4 of RFC 1321

  /** F chooses by its first argument: where it has ones the second, elsewhere the third. */
  lemma FChooses(x: uint4, y: uint4, z: uint4)
    ensures F(x, y, z) & x == y & x && F(x, y, z) & !x == z & !x
  {}

  /** G chooses by its last argument: where it has ones the first, elsewhere the second. */
  lemma GChooses(x: uint4, y: uint4, z: uint4)
    ensures G(x, y, z) & z == x & z && G(x, y, z) & !z == y & !z
  {}

  /** H is the parity of its arguments: flipping bits of one of them flips these bits. */
  lemma HFlips(x: uint4, y: uint4, z: uint4, w: uint4)
    ensures H(x ^ w, y, z) == H(x, y, z) ^ w
    ensures H(x, y ^ w, z) == H(x, y, z) ^ w
    ensures H(x, y, z ^ w) == H(x, y, z) ^ w
    ensures H(0, 0, 0) == 0
  {
    FlipFirst(x, y, z, w);
    FlipSecond(x, y, z, w);
    FlipThird(x, y, z, w);
  }

  lemma FlipFirst(x: uint4, y: uint4, z: uint4, w: uint4)
    ensures H(x ^ w, y, z) == H(x, y, z) ^ w
  {}

  lemma FlipSecond(x: uint4, y: uint4, z: uint4, w: uint4)
    ensures H(x, y ^ w, z) == H(x, y, z) ^ w
  {}

  lemma FlipThird(x: uint4, y: uint4, z: uint4, w: uint4)
    ensures H(x, y, z ^ w) == H(x, y, z) ^ w
  {}

  /** I flips its second argument wherever the third has a zero, and elsewhere where the first has a one. */
  lemma IFlips(x: uint4, y: uint4, z: uint4)
    ensures (I(x, y, z) ^ y) & !z == !z && (I(x, y, z) ^ y) & z == x & z
  {}

  // ----- rotation as a number

  function Pow2(k: nat): (p: nat)
    ensures p > 0
  {
    if k == 0 then 1 else 2 * Pow2(k - 1)
  }

  /** What leaves 32 bits at the top comes back at the bottom. */
  function Wrapped(u: nat): nat {
    u % TWO_32 + u / TWO_32
  }

  /** Rotating left by n multiplies by 2^n, and brings back at the bottom what leaves the word at the top. */
  lemma {:induction false} RotateIsNumber(x: uint4, n: uint4)
    requires n < 32
    ensures Num(RotateLeft(x, n)) == Wrapped(Num(x) * Pow2(Num(n)))
    decreases n
  {
    hide RotateLeft, Num, Wrapped, Pow2;
    NumBelow(x);
    if n == 0 {
      RotateNone(x);
      NoPower(Num(x));
    } else {
      OneLess(n);
      RotateIsNumber(x, n - 1);
      RotateMore(x, n - 1);
      RotateOne(RotateLeft(x, n - 1));
      NextPower(Num(x), Num(n - 1));
    }
  }

  lemma RotateNone(x: uint4)
    ensures RotateLeft(x, 0) == x && Num(0) == 0
  {}

  function Shl(x: uint4, n: uint4): uint4
    requires n < 32
  {
    x << n
  }

  function Shr(x: uint4, n: uint4): uint4
    requires n <= 32
  {
    x >> n
  }

  lemma RotateAsShifts(x: uint4, n: uint4)
    requires n < 32
    ensures RotateLeft(x, n) == Shl(x, n) | Shr(x, 32 - n)
    ensures RotateLeft(x, 1) == (x << 1) | (x >> 31)
  {}

  lemma NextAsShifts(x: uint4, n: uint4)
    requires n < 31
    ensures RotateLeft(x, n + 1) == Shl(x, n + 1) | Shr(x, 31 - n)
  {}

  lemma ShiftLeftMore(x: uint4, n: uint4)
    requires n < 31
    ensures Shl(x, n) << 1 == Shl(x, n + 1)
  {}

  lemma ShiftRightLess(x: uint4, n: uint4)
    requires n < 31
    ensures (Shr(x, 32 - n) << 1) | (Shl(x, n) >> 31) == Shr(x, 31 - n)
  {}

  lemma NothingAbove(x: uint4, n: uint4)
    requires n < 31
    ensures Shr(x, 32 - n) >> 31 == 0
  {}

  lemma Spread(l: uint4, h: uint4)
    ensures ((l | h) << 1) | ((l | h) >> 31) == ((l << 1) | ((h << 1) | (l >> 31))) | (h >> 31)
  {}

  lemma RotateMore(x: uint4, n: uint4)
    requires n < 31
    ensures RotateLeft(x, n + 1) == RotateLeft(RotateLeft(x, n), 1)
  {
    hide RotateLeft, Shl, Shr;
    RotateAsShifts(x, n);
    NextAsShifts(x, n);
    RotateAsShifts(RotateLeft(x, n), 1);
    Spread(Shl(x, n), Shr(x, 32 - n));
    ShiftLeftMore(x, n);
    ShiftRightLess(x, n);
    NothingAbove(x, n);
    NoBits(Shl(x, n + 1) | Shr(x, 31 - n));
  }

  lemma NoBits(w: uint4)
    ensures w | 0 == w
  {}

  lemma OneLess(n: uint4)
    requires 0 < n < 32
    ensures Num(n) == Num(n - 1) + 1 < 32 && n - 1 < 31
  {}

  function Top(x: uint4): uint4 { x >> 31 }

  function Low(x: uint4): uint4 { x & 0x7fff_ffff }

  // The solver sees through these one at a time, over variables.

  lemma Joined(x: uint4, r: uint4, top: uint4, low: uint4)
    requires r == (x << 1) | (x >> 31) && top == x >> 31 && low == x & 0x7fff_ffff
    ensures (r as int) == 2 * (low as int) + (top as int)
  {}

  lemma TurnedBack(x: uint4, r: uint4, top: uint4, low: uint4)
    requires r == (x << 1) | (x >> 31) && top == x >> 31 && low == x & 0x7fff_ffff
    ensures x == (r << 31) | (r >> 1) && low == r >> 1 && top == r & 1
  {}

  lemma Rejoined(x: uint4, r: uint4, top: uint4, low: uint4)
    requires x == (r << 31) | (r >> 1) && low == r >> 1 && top == r & 1
    ensures (x as int) == (top as int) * 0x8000_0000 + (low as int)
  {}

  lemma OneParts(x: uint4)
    ensures (RotateLeft(x, 1) as int) == 2 * (Low(x) as int) + (Top(x) as int)
    ensures (x as int) == (Top(x) as int) * 0x8000_0000 + (Low(x) as int)
  {
    var r := RotateLeft(x, 1);
    Joined(x, r, Top(x), Low(x));
    TurnedBack(x, r, Top(x), Low(x));
    Rejoined(x, r, Top(x), Low(x));
  }

  lemma OneInNumbers(x: uint4)
    ensures Num(RotateLeft(x, 1)) == 2 * Num(Low(x)) + Num(Top(x))
    ensures Num(x) == Num(Top(x)) * 0x8000_0000 + Num(Low(x))
  {
    hide RotateLeft, Top, Low;
    OneParts(x);
  }

  lemma RotateOne(x: uint4)
    ensures Num(RotateLeft(x, 1)) == Wrapped(2 * Num(x))
  {
    hide RotateLeft, Top, Low, Num;
    OneInNumbers(x);
    NumBelow(RotateLeft(x, 1));
    TopBack(Num(x), Num(Top(x)), Num(Low(x)));
  }

  lemma TopBack(x: nat, top: nat, low: nat)
    requires x == top * 0x8000_0000 + low && 2 * low + top < TWO_32
    ensures Wrapped(2 * x) == 2 * low + top
  {}

  lemma NoPower(v: nat)
    requires v < TWO_32
    ensures Wrapped(v * Pow2(0)) == v
  {}

  lemma NextPower(v: nat, k: nat)
    requires v < TWO_32 && k < 31
    ensures Wrapped(v * Pow2(k + 1)) == Wrapped(2 * Wrapped(v * Pow2(k)))
  {
    hide Wrapped;
    PowersMeet(k);
    WrappedTwice(v, Pow2(k), Pow2(31 - k));
    assert v * Pow2(k + 1) == 2 * (v * Pow2(k));
  }

  /** Doubling before or after what leaves the word is brought back. */
  lemma WrappedTwice(v: nat, p: nat, h: nat)
    requires v < TWO_32 && p * (2 * h) == TWO_32
    ensures Wrapped(2 * (v * p)) == Wrapped(2 * Wrapped(v * p))
  {
    var u := v * p;
    var q, r := u / TWO_32, u % TWO_32;
    assert q < p by {
      assert v * p < TWO_32 * p;
    }
    var s := v - 2 * h * q;
    assert r == p * s by {
      assert p * (2 * h * q) == q * TWO_32 && p * s == p * v - p * (2 * h * q);
    }
    RoomAtTheBottom(r, q, p, s, h);
    WrappedParts(u, q, r);
  }

  lemma RoomAtTheBottom(r: nat, q: nat, p: nat, s: int, h: nat)
    requires r == p * s && q < p && p * (2 * h) == TWO_32 && r < TWO_32
    ensures r + q < TWO_32 && (r < 0x8000_0000 ==> r + q < 0x8000_0000)
  {
    Cancelled(p, s, 2 * h);
    Scaled(p, s, 2 * h - 1);
    if r < 0x8000_0000 {
      assert p * h == 0x8000_0000;
      Cancelled(p, s, h);
      Scaled(p, s, h - 1);
    }
  }

  lemma Cancelled(p: nat, s: int, t: int)
    requires p * s < p * t
    ensures s < t
  {
    assert p * (t - s) > 0;
  }

  lemma Scaled(p: nat, s: int, t: int)
    requires s <= t
    ensures p * s <= p * t
  {}

  lemma WrappedParts(u: nat, q: nat, r: nat)
    requires u == q * TWO_32 + r && r + q < TWO_32 && (r < 0x8000_0000 ==> r + q < 0x8000_0000)
    ensures Wrapped(u) == q + r && Wrapped(2 * u) == Wrapped(2 * (q + r))
  {
    Quotient(u, q, r, TWO_32);
    if r < 0x8000_0000 {
      Quotient(2 * u, 2 * q, 2 * r, TWO_32);
      Quotient(2 * (q + r), 0, 2 * (q + r), TWO_32);
    } else {
      Quotient(2 * u, 2 * q + 1, 2 * r - TWO_32, TWO_32);
      Quotient(2 * (q + r), 1, 2 * (q + r) - TWO_32, TWO_32);
    }
  }

  lemma {:induction false} PowersMultiply(j: nat, k: nat)
    ensures Pow2(j) * Pow2(k) == Pow2(j + k)
  {
    if j > 0 {
      PowersMultiply(j - 1, k);
      TwiceTheProduct(Pow2(j - 1), Pow2(k));
    }
  }

  lemma TwiceTheProduct(a: nat, b: nat)
    ensures a * (2 * b) == 2 * (a * b) == 2 * a * b
  {}

  lemma PowersMeet(k: nat)
    requires k <= 31
    ensures Pow2(k) * (2 * Pow2(31 - k)) == TWO_32
  {
    hide Pow2;
    PowersMultiply(k, 31 - k);
    HalfRange();
    TwiceTheProduct(Pow2(k), Pow2(31 - k));
  }

  lemma HalfRange()
    ensures Pow2(31) == 0x8000_0000
  {
    assert Pow2(8) == 0x100;
    assert Pow2(16) == 0x1_0000;
    assert Pow2(24) == 0x100_0000;
  }

  // ----- words and bytes as numbers

  /** A byte put below the bytes of a shorter word. */
  function Push(h: uint4, b: uint1): uint4 {
    (h << 8) | (b as uint4)
  }

  lemma Pushed(h: uint4, b: uint1, w: uint4)
    requires h < 0x100_0000 && w == (h << 8) | (b as uint4)
    ensures (w as int) == 0x100 * (h as int) + (b as int)
  {}

  lemma PushIsNumber(h: uint4, b: uint1)
    requires h < 0x100_0000
    ensures Num(Push(h, b)) == 0x100 * Num(h) + Val(b)
  {
    Pushed(h, b, Push(h, b));
  }

  lemma WordIsPushed(b0: uint1, b1: uint1, b2: uint1, b3: uint1)
    ensures WordOf(b0, b1, b2, b3) == Push(Push(Push(b3 as uint4, b2), b1), b0)
    ensures (b3 as uint4) < 0x100_0000 && Push(b3 as uint4, b2) < 0x100_0000
    ensures Push(Push(b3 as uint4, b2), b1) < 0x100_0000
  {}

  lemma Widened(b: uint1)
    ensures Num(b as uint4) == Val(b)
  {}

  /** A word is the number of its bytes, low-order byte first. */
  lemma WordIsNumber(b0: uint1, b1: uint1, b2: uint1, b3: uint1)
    ensures Num(WordOf(b0, b1, b2, b3)) ==
            Val(b0) + 0x100 * Val(b1) + 0x1_0000 * Val(b2) + 0x100_0000 * Val(b3)
  {
    hide WordOf, Push, Num, Val;
    WordIsPushed(b0, b1, b2, b3);
    Widened(b3);
    PushIsNumber(b3 as uint4, b2);
    PushIsNumber(Push(b3 as uint4, b2), b1);
    PushIsNumber(Push(Push(b3 as uint4, b2), b1), b0);
  }

  lemma WordOfItsBytes(w: uint4)
    ensures WordOf(ByteOf(w, 0), ByteOf(w, 1), ByteOf(w, 2), ByteOf(w, 3)) == w
  {}

  lemma ValsBelow(b0: uint1, b1: uint1, b2: uint1, b3: uint1)
    ensures Val(b0) < 0x100 && Val(b1) < 0x100 && Val(b2) < 0x100 && Val(b3) < 0x100
  {}

  lemma OctetVal(n: nat)
    requires n < 0x100
    ensures Val(Octet(n)) == n
  {
    hide Octet;
    OctetBack(n);
  }

  lemma FirstPowers()
    ensures Pow256(0) == 1 && Pow256(1) == 0x100 && Pow256(2) == 0x1_0000 && Pow256(3) == 0x100_0000
  {}

  lemma Digits(n: nat, a: nat, b: nat, c: nat, d: nat)
    requires a < 0x100 && b < 0x100 && c < 0x100 && d < 0x100
    requires n == a + 0x100 * b + 0x1_0000 * c + 0x100_0000 * d
    ensures n % 0x100 == a && n / 0x100 % 0x100 == b && n / 0x1_0000 % 0x100 == c && n / 0x100_0000 == d
  {}

  /** Byte k of a word is its digit k to the base 256. */
  lemma ByteIsDigit(w: uint4, k: nat)
    requires k < 4
    ensures Val(ByteOf(w, k)) == Num(w) / Pow256(k) % 0x100
  {
    hide WordOf, ByteOf, Num, Val, Pow256;
    WordOfItsBytes(w);
    var b0, b1, b2, b3 := ByteOf(w, 0), ByteOf(w, 1), ByteOf(w, 2), ByteOf(w, 3);
    WordIsNumber(b0, b1, b2, b3);
    ValsBelow(b0, b1, b2, b3);
    Digits(Num(w), Val(b0), Val(b1), Val(b2), Val(b3));
    FirstPowers();
  }

  /** The counter as a word is the same number. */
  lemma ToWordIsNumber(n: size32)
    ensures Num(ToWord(n)) == n
  {
    hide WordOf, Num, Val, Octet;
    WordIsNumber(Octet(n % 0x100), Octet(n / 0x100 % 0x100),
                 Octet(n / 0x1_0000 % 0x100), Octet(n / 0x100_0000 % 0x100));
    OctetVal(n % 0x100);
    OctetVal(n / 0x100 % 0x100);
    OctetVal(n / 0x1_0000 % 0x100);
    OctetVal(n / 0x100_0000 % 0x100);
    DivideTwice(n);
    DivideThrice(n);
  }

  /** Byte i of a number stored low-order byte first is its digit i to the base 256. */
  lemma {:induction false} LittleEndianDigits(n: nat, k: nat, i: nat)
    requires i < k
    ensures Val(LittleEndian(n, k)[i]) == n / Pow256(i) % 0x100
  {
    hide Octet, Val;
    OctetVal(n % 0x100);
    if i > 0 {
      LittleEndianDigits(n / 0x100, k - 1, i - 1);
      DividedTwice(n, Pow256(i - 1));
    }
  }

  lemma DividedTwice(n: nat, p: nat)
    requires p > 0
    ensures n / 0x100 / p == n / (0x100 * p)
  {
    var q, r := n / 0x100 / p, n / 0x100 % p;
    assert n == 0x100 * (q * p + r) + n % 0x100;
    assert 0x100 * r + n % 0x100 < 0x100 * p;
    Quotient(n, q, 0x100 * r + n % 0x100, 0x100 * p);
  }

  lemma Quotient(n: nat, q: nat, r: nat, d: nat)
    requires d > 0 && n == q * d + r && r < d
    ensures n / d == q && n % d == r
  {
    var k := n / d - q;
    assert k * d == r - n % d;
    Cancelled(d, k, 1);
    Cancelled(d, -1, k);
  }

  /** Words stored low-order byte first, byte by byte. */
  lemma StoredDigits(ws: seq<uint4>, i: nat, k: nat)
    requires i < |ws| && k < 4
    ensures Val(EncodeWords(ws)[4 * i + k]) == Num(ws[i]) / Pow256(k) % 0x100
  {
    hide ByteOf, Num, Val, Pow256;
    ByteIsDigit(ws[i], k);
  }

  /** Words read low-order byte first, as numbers. */
  lemma ReadNumbers(bs: seq<uint1>, i: nat)
    requires |bs| % 4 == 0 && 4 * i < |bs|
    ensures Num(DecodeWords(bs)[i]) ==
            Val(bs[4 * i]) + 0x100 * Val(bs[4 * i + 1])
            + 0x1_0000 * Val(bs[4 * i + 2]) + 0x100_0000 * Val(bs[4 * i + 3])
  {
    hide WordOf, Num, Val;
    WordIsNumber(bs[4 * i], bs[4 * i + 1], bs[4 * i + 2], bs[4 * i + 3]);
  }

  /** The eight bytes that finalize makes of the two counter words are the digits of the 64-bit count. */
  lemma CountDigits(lo: size32, hi: size32, i: nat)
    requires i < 8
    ensures Val(EncodeWords([ToWord(lo), ToWord(hi)])[i]) == (hi * TWO_32 + lo) / Pow256(i) % 0x100
  {
    hide EncodeWords, ToWord, Val, Pow256, LittleEndian;
    EncodeCount(lo, hi);
    LittleEndianDigits(hi * TWO_32 + lo, 8, i);
  }
}
