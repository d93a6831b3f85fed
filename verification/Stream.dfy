/** Section 3 of RFC 1321 on whole messages, and the same digest computed piece by piece the
    way update and finalize of server/MD5.cpp do. */
module Stream {
  import opened Words
  import opened Codec
  import opened WordNumbers
  import opened Compression

  // ----- the reference: pad, cut into blocks, fold, serialise

  /** The blocks of bytes compressed in turn; a last incomplete block is left alone. */
  function Fold(st: Chain, bytes: seq<uint1>): Chain
    decreases |bytes|
  {
    if |bytes| < 64 then st else Fold(Compress(st, bytes[..64]), bytes[64..])
  }

  /** The last incomplete block. */
  function Tail(bytes: seq<uint1>): (t: seq<uint1>)
    ensures |t| == |bytes| % 64
  {
    bytes[|bytes| / 64 * 64..]
  }

  /** Zero bytes up to 56 modulo 64. */
  function ZerosTo56(m: seq<uint1>): seq<uint1>
    decreases (120 - |m| % 64) % 64
  {
    if |m| % 64 == 56 then m else ZerosTo56(m + [0])
  }

  /** The bit length of n bytes modulo 2^64, in eight bytes. */
  function LengthBytes(n: nat): (bs: seq<uint1>)
    ensures |bs| == 8
  {
    LittleEndian(8 * n % TWO_64, 8)
  }

  /** Sections 3.1 and 3.2: a one bit, zero bits to 448 modulo 512, and the bit length modulo 2^64. */
  function Padded(m: seq<uint1>): seq<uint1> {
    ZerosTo56(m + [0x80]) + LengthBytes(|m|)
  }

  function Md5(m: seq<uint1>): (d: seq<uint1>)
    ensures |d| == 16
  {
    EncodeWords(Words4(Fold(INITIAL, Padded(m))))
  }

  // ----- folding in pieces

  lemma {:induction false} FoldAppend(st: Chain, p: seq<uint1>, q: seq<uint1>)
    requires |p| % 64 == 0
    ensures Fold(st, p + q) == Fold(Fold(st, p), q)
    decreases |p|
  {
    hide Compress;
    if |p| == 0 {
      assert p + q == q;
    } else {
      assert (p + q)[..64] == p[..64] && (p + q)[64..] == p[64..] + q;
      FoldAppend(Compress(st, p[..64]), p[64..], q);
    }
  }

  lemma FoldShort(st: Chain, t: seq<uint1>)
    requires |t| < 64
    ensures Fold(st, t) == st && Tail(t) == t
  {}

  lemma TailAppend(p: seq<uint1>, q: seq<uint1>)
    requires |p| % 64 == 0
    ensures Tail(p + q) == Tail(q)
  {}

  /** A fold may stop anywhere and resume from the state reached and the bytes left over. */
  lemma FoldResume(st: Chain, p: seq<uint1>, q: seq<uint1>)
    ensures Fold(st, p + q) == Fold(Fold(st, p), Tail(p) + q)
    ensures Tail(p + q) == Tail(Tail(p) + q)
  {
    hide Fold;
    var h, t := p[..|p| / 64 * 64], Tail(p);
    assert p == h + t && p + q == h + (t + q);
    FoldAppend(st, h, t + q);
    FoldAppend(st, h, t);
    FoldShort(Fold(st, h), t);
    TailAppend(h, t + q);
  }

  /** One more complete block. */
  lemma FoldNext(st: Chain, m: seq<uint1>, n: nat)
    requires n % 64 == 0 && n + 64 <= |m|
    ensures Fold(st, m[..n + 64]) == Compress(Fold(st, m[..n]), m[n..n + 64])
  {
    hide Compress;
    assert m[..n + 64] == m[..n] + m[n..n + 64];
    FoldAppend(st, m[..n], m[n..n + 64]);
    FoldOne(Fold(st, m[..n]), m[n..n + 64]);
  }

  /** The complete blocks are done when less than a block is left. */
  lemma FoldStops(st: Chain, m: seq<uint1>, n: nat)
    requires n % 64 == 0 && n <= |m| < n + 64
    ensures Fold(st, m) == Fold(st, m[..n]) && Tail(m) == m[n..]
  {
    hide Fold;
    assert m == m[..n] + m[n..];
    FoldAppend(st, m[..n], m[n..]);
    FoldShort(Fold(st, m[..n]), m[n..]);
    TailAppend(m[..n], m[n..]);
  }

  /** A fill-up to one block, complete blocks up to byte i of the input, and a rest. */
  lemma FoldInParts(st: Chain, live: seq<uint1>, input: seq<uint1>, i: nat)
    requires |live| < 64 && 64 - |live| <= i <= |input| < i + 64 && (|live| + i) % 64 == 0
    ensures var n := 64 - |live|;
            Fold(st, live + input) == Fold(Compress(st, live + input[..n]), input[n..i])
    ensures Tail(live + input) == input[i..]
  {
    hide Fold, Compress;
    var n, all := 64 - |live|, live + input;
    FoldStops(st, all, |live| + i);
    assert all[..|live| + i] == (live + input[..n]) + input[n..i];
    FoldAppend(st, live + input[..n], input[n..i]);
    FoldOne(st, live + input[..n]);
  }

  lemma FoldOne(st: Chain, b: seq<uint1>)
    requires |b| == 64
    ensures Fold(st, b) == Compress(st, b)
  {
    hide Compress;
    assert b[..64] == b;
  }

  // ----- padding

  /** The table from which finalize takes its padding. */
  function PaddingTable(): (t: seq<uint1>)
    ensures |t| == 64
  {
    [0x80] + Zeros(63)
  }

  function Zeros(k: nat): (z: seq<uint1>)
    ensures |z| == k
  {
    seq(k, _ => 0)
  }

  /** padLen of finalize, for n bytes absorbed. */
  function PadLen(n: nat): (p: nat)
    ensures 1 <= p <= 64
  {
    var index := n % 64;
    if index < 56 then 56 - index else 120 - index
  }

  /** padLen is the least positive number of bytes that leads to 56 modulo 64. */
  lemma PadLenIsLeast(n: nat)
    ensures (n + PadLen(n)) % 64 == 56
    ensures forall p {:trigger (n + p) % 64} :: 1 <= p < PadLen(n) ==> (n + p) % 64 != 56
  {}

  lemma {:induction false} ZerosAre(m: seq<uint1>, k: nat)
    requires k < 64 && (|m| + k) % 64 == 56
    ensures ZerosTo56(m) == m + Zeros(k)
    decreases k
  {
    if k == 0 {
      assert m + Zeros(0) == m;
    } else {
      ZerosAre(m + [0], k - 1);
      assert [0] + Zeros(k - 1) == Zeros(k);
      assert m + Zeros(k) == m + [0] + Zeros(k - 1);
    }
  }

  /** What finalize appends is the padding of the standard, and it completes a block. */
  lemma PaddedByTable(m: seq<uint1>)
    ensures Padded(m) == m + PaddingTable()[..PadLen(|m|)] + LengthBytes(|m|)
    ensures |Padded(m)| == |m| + PadLen(|m|) + 8 && |Padded(m)| % 64 == 0
  {
    hide ZerosTo56, LengthBytes;
    var p := PadLen(|m|);
    PadLenIsLeast(|m|);
    ZerosAre(m + [0x80], p - 1);
    assert PaddingTable()[..p] == [0x80] + Zeros(p - 1);
    assert m + [0x80] + Zeros(p - 1) == m + PaddingTable()[..p];
    assert (|m| + p + 8) % 64 == 0;
  }

  predicate EndsWith(s: seq<uint1>, t: seq<uint1>) {
    |t| <= |s| && s[|s| - |t|..] == t
  }

  lemma PaddedParts(m: seq<uint1>)
    ensures m <= Padded(m) && EndsWith(Padded(m), LengthBytes(|m|))
  {
    hide Padded, LengthBytes, PaddingTable;
    PaddedByTable(m);
  }

  /** Equal length fields mean equal message lengths modulo 2^61. */
  lemma LengthField(m: nat, n: nat)
    ensures LengthBytes(m) == LengthBytes(n) <==> m % 0x2000_0000_0000_0000 == n % 0x2000_0000_0000_0000
  {
    hide LittleEndian;
    var a, b := 8 * m % TWO_64, 8 * n % TWO_64;
    assert a == 8 * (m % 0x2000_0000_0000_0000) && b == 8 * (n % 0x2000_0000_0000_0000);
    if LittleEndian(a, 8) == LittleEndian(b, 8) {
      assert Pow256(8) == TWO_64;
      LittleEndianInjective(a, b, 8);
    }
  }

  /** Byte i of the length field is digit i, to the base 256, of the bit length modulo 2^64. */
  lemma LengthDigits(n: nat, i: nat)
    requires i < 8
    ensures Val(LengthBytes(n)[i]) == 8 * n % TWO_64 / Pow256(i) % 0x100
  {
    LittleEndianDigits(8 * n % TWO_64, 8, i);
  }

  /** Different messages have different padded forms, whatever their lengths. */
  lemma PaddingInjective(m: seq<uint1>, n: seq<uint1>)
    requires Padded(m) == Padded(n)
    ensures m == n
  {
    hide Padded, LengthBytes, PaddingTable;
    PaddedParts(m);
    PaddedParts(n);
    LengthField(|m|, |n|);
    PaddedByTable(m);
    PaddedByTable(n);
    assert |m| == |n|;
  }

  /** One padded message ends another only if the two lengths agree modulo 2^61; so no padded
      form of a message under 2^61 bytes is a proper suffix of another such form. */
  lemma PaddingSuffixFree(m: seq<uint1>, n: seq<uint1>)
    requires EndsWith(Padded(n), Padded(m))
    ensures |m| % 0x2000_0000_0000_0000 == |n| % 0x2000_0000_0000_0000
    ensures |m| < 0x2000_0000_0000_0000 && |n| < 0x2000_0000_0000_0000 ==> m == n
  {
    hide Padded, LengthBytes, PaddingTable;
    var p, q := Padded(m), Padded(n);
    PaddedParts(m);
    PaddedParts(n);
    assert q[|q| - 8..] == q[|q| - |p|..][|p| - 8..];
    LengthField(|m|, |n|);
    if |m| < 0x2000_0000_0000_0000 && |n| < 0x2000_0000_0000_0000 {
      PaddedByTable(m);
      PaddedByTable(n);
      assert q[0..] == q;
      PaddingInjective(m, n);
    }
  }

  // ----- the split 64-bit counter

  /** The counter words after length more bytes, with the carry test of update. */
  function CountUp(lo: size32, hi: size32, length: size32): (size32, size32) {
    var bits := length * 8 % TWO_32;
    var lo' := Add32(lo, bits);
    var hi' := if lo' < bits then Add32(hi, 1) else hi;
    (lo', Add32(hi', length / 0x2000_0000))
  }

  function Count(lo: size32, hi: size32): nat { hi * TWO_32 + lo }

  lemma TopBits(length: size32)
    ensures 8 * length == length / 0x2000_0000 * 0x1_0000_0000 + length * 8 % 0x1_0000_0000
    ensures length / 0x2000_0000 < 8
  {}

  /** The sum is below the second operand exactly when it wrapped. */
  lemma CarryTest(x: size32, y: size32)
    ensures x + y == Add32(x, y) + if Add32(x, y) < y then 0x1_0000_0000 else 0
  {}

  lemma Wraps(n: nat, y: nat, over: nat)
    requires n == y + over * 0x1_0000_0000_0000_0000 && y < 0x1_0000_0000_0000_0000
    ensures n % 0x1_0000_0000_0000_0000 == y
  {}

  lemma HighWord(hi: size32, carry: nat, top: nat)
    requires carry <= 1 && top < 8
    ensures exists over: nat ::
              hi + carry + top == Add32(if carry == 1 then Add32(hi, 1) else hi, top) + 0x1_0000_0000 * over
  {
    var h := Add32(if carry == 1 then Add32(hi, 1) else hi, top);
    var over: nat := if hi + carry + top < 0x1_0000_0000 then 0 else 1;
    assert hi + carry + top == (h as int) + 0x1_0000_0000 * over;
  }

  /** The carry test and the shifts add eight times the length, modulo 2^64. */
  lemma CountUpAdds(lo: size32, hi: size32, length: size32)
    ensures var (lo', hi') := CountUp(lo, hi, length);
            Count(lo', hi') == (Count(lo, hi) + 8 * length) % TWO_64
    ensures CountUp(lo, hi, length).0 == (lo + 8 * length) % TWO_32
  {
    hide Add32;
    var bits: size32 := length * 8 % TWO_32;
    var top := length / 0x2000_0000;
    TopBits(length);
    CarryTest(lo, bits);
    var (lo', hi') := CountUp(lo, hi, length);
    var carry := if lo' < bits then 1 else 0;
    HighWord(hi, carry, top);
    var over: nat :| hi + carry + top == hi' + 0x1_0000_0000 * over;
    Wraps(Count(lo, hi) + 8 * length, Count(lo', hi'), over);
    LowWord(lo', carry + top, lo + 8 * length);
  }

  lemma CountInjective(lo: size32, hi: size32, lo': size32, hi': size32)
    requires Count(lo, hi) == Count(lo', hi')
    ensures lo == lo' && hi == hi'
  {}

  // ----- absorbing a message in pieces

  /** The part of an object that decides later digests: chaining state, counter words, and the
      live prefix of the buffer. */
  datatype Context = Context(chain: Chain, lo: size32, hi: size32, live: seq<uint1>)

  const FRESH := Context(INITIAL, 0, 0, [])

  /** The live prefix is as long as the counter says. */
  predicate Coherent(c: Context) {
    |c.live| == c.lo / 8 % 64
  }

  /** The context after one update. */
  function Absorb(c: Context, input: seq<uint1>): Context
    requires |input| < TWO_32
  {
    var all := c.live + input;
    var (lo, hi) := CountUp(c.lo, c.hi, |input|);
    Context(Fold(c.chain, all), lo, hi, Tail(all))
  }

  lemma AbsorbCoherent(c: Context, input: seq<uint1>)
    requires Coherent(c) && |input| < TWO_32
    ensures Coherent(Absorb(c, input))
  {
    CountUpAdds(c.lo, c.hi, |input|);
    CounterMod64(c.lo, |input|);
  }

  /** The counter gives the length of the rest that is kept. */
  lemma LiveLength(c: Context, input: seq<uint1>)
    requires |c.live| == c.lo / 8 % 64 && |input| < TWO_32
    ensures CountUp(c.lo, c.hi, |input|).0 / 8 % 64 == |Tail(c.live + input)|
  {
    AbsorbCoherent(c, input);
  }

  /** The position in the block survives the wrap of the low counter word. */
  lemma CounterMod64(lo: nat, length: nat)
    ensures (lo + 8 * length) % TWO_32 / 8 % 64 == (lo / 8 % 64 + length) % 64
  {
    var n := lo + 8 * length;
    assert n / 8 == lo / 8 + length;
    var w, q := n % TWO_32, n / TWO_32;
    assert n == w + 64 * 8 * (q * 0x80_0000);
    assert n / 8 == w / 8 + 64 * (q * 0x80_0000);
    Mod64Shift(w / 8, q * 0x80_0000);
    Mod64Shift(lo / 8 % 64 + length, lo / 8 / 64);
  }

  lemma Mod64Shift(r: nat, q: nat)
    ensures (r + 64 * q) % 64 == r % 64
  {}

  /** Two updates leave what one update with the joined input leaves, from every prior context. */
  lemma SplitIndependence(c: Context, p: seq<uint1>, q: seq<uint1>)
    requires |p| + |q| < TWO_32
    ensures Absorb(Absorb(c, p), q) == Absorb(c, p + q)
  {
    hide Fold, Tail, CountUp;
    assert c.live + (p + q) == (c.live + p) + q;
    FoldResume(c.chain, c.live + p, q);
    CountUpAdds(c.lo, c.hi, |p|);
    var c' := Absorb(c, p);
    CountUpAdds(c'.lo, c'.hi, |q|);
    CountUpAdds(c.lo, c.hi, |p + q|);
    CountTwice(Count(c.lo, c.hi), 8 * |p|, 8 * |q|);
    var (l1, h1) := CountUp(c'.lo, c'.hi, |q|);
    var (l2, h2) := CountUp(c.lo, c.hi, |p + q|);
    CountInjective(l1, h1, l2, h2);
  }

  lemma CountTwice(n: nat, a: nat, b: nat)
    ensures ((n + a) % TWO_64 + b) % TWO_64 == (n + (a + b)) % TWO_64
  {}

  /** c is what is left of the bytes msg, absorbed from the chaining state base. */
  predicate Tracks(c: Context, base: Chain, msg: seq<uint1>) {
    && c.chain == Fold(base, msg)
    && c.live == Tail(msg)
    && Count(c.lo, c.hi) == 8 * |msg| % TWO_64
  }

  lemma AbsorbTracks(c: Context, base: Chain, msg: seq<uint1>, input: seq<uint1>)
    requires Tracks(c, base, msg) && |input| < TWO_32
    ensures Tracks(Absorb(c, input), base, msg + input)
  {
    hide Fold, Tail, CountUp;
    FoldResume(base, msg, input);
    CountUpAdds(c.lo, c.hi, |input|);
    CountTwice(0, 8 * |msg|, 8 * |input|);
  }

  lemma TracksCoherent(c: Context, base: Chain, msg: seq<uint1>)
    requires Tracks(c, base, msg)
    ensures Coherent(c) && c.lo == 8 * |msg| % TWO_32
  {
    hide Fold;
    var n := 8 * |msg|;
    assert n == n / TWO_64 * TWO_64 + Count(c.lo, c.hi);
    LowWord(c.lo, n / TWO_64 * TWO_32 + c.hi, n);
    CounterMod64(0, |msg|);
  }

  lemma LowWord(lo: size32, high: nat, n: nat)
    requires n == high * 0x1_0000_0000 + lo
    ensures n % 0x1_0000_0000 == lo
  {}

  // ----- finalisation

  /** The two closing updates of finalize. */
  function CloseOff(c: Context): Context {
    Absorb(Absorb(c, PaddingTable()[..PadLen(c.lo / 8)]), EncodeWords([ToWord(c.lo), ToWord(c.hi)]))
  }

  function FinalDigest(c: Context): (d: seq<uint1>)
    ensures |d| == 16
  {
    EncodeWords(Words4(CloseOff(c).chain))
  }

  /** Finalisation always ends on a block boundary, with nothing left in the buffer. */
  lemma CloseOffEndsOnBoundary(c: Context)
    requires Coherent(c)
    ensures CloseOff(c).live == []
  {
    hide Fold, CountUp, ToWord, Tail, PaddingTable, EncodeWords, PadLen;
    var pad, n := PaddingTable()[..PadLen(c.lo / 8)], c.lo / 8;
    PadLenIsLeast(n);
    Mod64Shift(n % 64 + |pad|, n / 64);
    assert |Absorb(c, pad).live| == 56;
  }

  /** Finalising a context that has absorbed msg gives the digest of the standard. */
  lemma FinalDigestIsMd5(c: Context, msg: seq<uint1>)
    requires Tracks(c, INITIAL, msg)
    ensures FinalDigest(c) == Md5(msg)
  {
    hide Fold, Tail, CountUp, ToWord, EncodeWords, LittleEndian, Padded, PaddingTable;
    TracksCoherent(c, INITIAL, msg);
    var pad := PaddingTable()[..PadLen(c.lo / 8)];
    assert |Tail(msg)| == |msg| % 64;
    assert PadLen(c.lo / 8) == PadLen(|msg|);
    AbsorbTracks(c, INITIAL, msg, pad);
    EncodeCount(c.lo, c.hi);
    AbsorbTracks(Absorb(c, pad), INITIAL, msg + pad, EncodeWords([ToWord(c.lo), ToWord(c.hi)]));
    PaddedByTable(msg);
  }

  // ----- whole runs

  function Absorbed(c: Context, pieces: seq<seq<uint1>>): Context
    requires forall p :: p in pieces ==> |p| < TWO_32
    decreases |pieces|
  {
    if pieces == [] then c else
      assert pieces[0] in pieces;
      Absorbed(Absorb(c, pieces[0]), pieces[1..])
  }

  function Concat(pieces: seq<seq<uint1>>): seq<uint1> {
    if pieces == [] then [] else pieces[0] + Concat(pieces[1..])
  }

  lemma {:induction false} AbsorbedTracks(c: Context, base: Chain, msg: seq<uint1>, pieces: seq<seq<uint1>>)
    requires forall p :: p in pieces ==> |p| < TWO_32
    requires Tracks(c, base, msg)
    ensures Tracks(Absorbed(c, pieces), base, msg + Concat(pieces))
    decreases |pieces|
  {
    hide Absorb, Tracks;
    if pieces == [] {
      assert msg + Concat(pieces) == msg;
    } else {
      AbsorbTracks(c, base, msg, pieces[0]);
      AbsorbedTracks(Absorb(c, pieces[0]), base, msg + pieces[0], pieces[1..]);
      assert msg + pieces[0] + Concat(pieces[1..]) == msg + Concat(pieces);
    }
  }

  /** For every way of cutting a message into pieces, absorbing the pieces in turn and finalising
      gives the digest of the whole message; at every point before, the chaining state is the
      fold of the complete blocks, the live bytes are the rest, and the counter is the bit length. */
  lemma StreamingRefinement(pieces: seq<seq<uint1>>)
    requires forall p :: p in pieces ==> |p| < TWO_32
    ensures var c, msg := Absorbed(FRESH, pieces), Concat(pieces);
            && c.chain == Fold(INITIAL, msg[..|msg| / 64 * 64])
            && c.live == msg[|msg| / 64 * 64..]
            && Count(c.lo, c.hi) == 8 * |msg| % TWO_64
            && c.lo / 8 % 64 == |msg| % 64
            && FinalDigest(c) == Md5(msg)
  {
    hide FinalDigest, Md5, Absorbed, Fold;
    var c, msg := Absorbed(FRESH, pieces), Concat(pieces);
    FreshTracks();
    AbsorbedTracks(FRESH, INITIAL, [], pieces);
    assert [] + msg == msg;
    TracksCoherent(c, INITIAL, msg);
    FinalDigestIsMd5(c, msg);
    FoldWhole(INITIAL, msg);
  }

  lemma FreshTracks()
    ensures Tracks(FRESH, INITIAL, [])
  {}

  lemma FoldWhole(st: Chain, m: seq<uint1>)
    ensures Fold(st, m) == Fold(st, m[..|m| / 64 * 64])
  {
    FoldStops(st, m, |m| / 64 * 64);
  }
}
