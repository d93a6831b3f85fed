/** The compression function of section 3.4 of RFC 1321, as an indexed loop of 64 steps,
    and its inverse. */
module Compression {
  import opened Words
  import opened Codec

  /** The four chaining words, or the registers a, b, c, d while a block is mixed in. */
  datatype Chain = Chain(a: uint4, b: uint4, c: uint4, d: uint4)

  function Words4(st: Chain): seq<uint4> { [st.a, st.b, st.c, st.d] }

  const INITIAL := Chain(0x67452301, 0xefcdab89, 0x98badcfe, 0x10325476)

  // ----- the schedule of the 64 steps

  function Mixer(i: nat, x: uint4, y: uint4, z: uint4): uint4 {
    if i < 16 then F(x, y, z)
    else if i < 32 then G(x, y, z)
    else if i < 48 then H(x, y, z)
    else I(x, y, z)
  }

  // Which of the sixteen message words a step reads, round by round.

  function Read1(i: nat): nat { i }

  function Read2(i: nat): nat { (5 * i + 1) % 16 }

  function Read3(i: nat): nat { (3 * i + 5) % 16 }

  function Read4(i: nat): nat { 7 * i % 16 }

  function WordIndex(i: nat): (k: nat)
    ensures k < 16
  {
    if i < 16 then Read1(i) else if i < 32 then Read2(i) else if i < 48 then Read3(i) else Read4(i)
  }

  function Shift(i: nat): (s: uint4)
    ensures IsShift(s) && s < 32
  {
    if i < 16 then (match i % 4 case 0 => 7 case 1 => 12 case 2 => 17 case _ => 22)
    else if i < 32 then (match i % 4 case 0 => 5 case 1 => 9 case 2 => 14 case _ => 20)
    else if i < 48 then (match i % 4 case 0 => 4 case 1 => 11 case 2 => 16 case _ => 23)
    else (match i % 4 case 0 => 6 case 1 => 10 case 2 => 15 case _ => 21)
  }

  /** Constants of round 1, by position in the round. */
  function Table1(j: nat): uint4
    requires j < 16
  {
    match j
    case 0 => 0xd76aa478
    case 1 => 0xe8c7b756
    case 2 => 0x242070db
    case 3 => 0xc1bdceee
    case 4 => 0xf57c0faf
    case 5 => 0x4787c62a
    case 6 => 0xa8304613
    case 7 => 0xfd469501
    case 8 => 0x698098d8
    case 9 => 0x8b44f7af
    case 10 => 0xffff5bb1
    case 11 => 0x895cd7be
    case 12 => 0x6b901122
    case 13 => 0xfd987193
    case 14 => 0xa679438e
    case _ => 0x49b40821
  }

  /** Constants of round 2, by position in the round. */
  function Table2(j: nat): uint4
    requires j < 16
  {
    match j
    case 0 => 0xf61e2562
    case 1 => 0xc040b340
    case 2 => 0x265e5a51
    case 3 => 0xe9b6c7aa
    case 4 => 0xd62f105d
    case 5 => 0x02441453
    case 6 => 0xd8a1e681
    case 7 => 0xe7d3fbc8
    case 8 => 0x21e1cde6
    case 9 => 0xc33707d6
    case 10 => 0xf4d50d87
    case 11 => 0x455a14ed
    case 12 => 0xa9e3e905
    case 13 => 0xfcefa3f8
    case 14 => 0x676f02d9
    case _ => 0x8d2a4c8a
  }

  /** Constants of round 3, by position in the round. */
  function Table3(j: nat): uint4
    requires j < 16
  {
    match j
    case 0 => 0xfffa3942
    case 1 => 0x8771f681
    case 2 => 0x6d9d6122
    case 3 => 0xfde5380c
    case 4 => 0xa4beea44
    case 5 => 0x4bdecfa9
    case 6 => 0xf6bb4b60
    case 7 => 0xbebfbc70
    case 8 => 0x289b7ec6
    case 9 => 0xeaa127fa
    case 10 => 0xd4ef3085
    case 11 => 0x04881d05
    case 12 => 0xd9d4d039
    case 13 => 0xe6db99e5
    case 14 => 0x1fa27cf8
    case _ => 0xc4ac5665
  }

  /** Constants of round 4, by position in the round. */
  function Table4(j: nat): uint4
    requires j < 16
  {
    match j
    case 0 => 0xf4292244
    case 1 => 0x432aff97
    case 2 => 0xab9423a7
    case 3 => 0xfc93a039
    case 4 => 0x655b59c3
    case 5 => 0x8f0ccc92
    case 6 => 0xffeff47d
    case 7 => 0x85845dd1
    case 8 => 0x6fa87e4f
    case 9 => 0xfe2ce6e0
    case 10 => 0xa3014314
    case 11 => 0x4e0811a1
    case 12 => 0xf7537e82
    case 13 => 0xbd3af235
    case 14 => 0x2ad7d2bb
    case _ => 0xeb86d391
  }

  function Table(i: nat): uint4
    requires i < 64
  {
    if i < 16 then Table1(i)
    else if i < 32 then Table2(i - 16)
    else if i < 48 then Table3(i - 32)
    else Table4(i - 48)
  }

  // ----- one step and its inverse

  function Sum(v: uint4, w: uint4): uint4 { v + w }

  function Difference(v: uint4, w: uint4): uint4 { v - w }

  /** The value that one operation leaves in its first register. */
  function Turn(a: uint4, b: uint4, f: uint4, x: uint4, s: uint4, ac: uint4): uint4
    requires s < 32
  {
    Sum(RotateLeft(Sum(Sum(Sum(a, f), x), ac), s), b)
  }

  function Unturn(n: uint4, b: uint4, f: uint4, x: uint4, s: uint4, ac: uint4): uint4
    requires s < 32
  {
    Difference(Difference(Difference(RotateRight(Difference(n, b), s), ac), x), f)
  }

  function Step(st: Chain, x: seq<uint4>, i: nat): Chain
    requires |x| == 16 && i < 64
  {
    var f := Mixer(i, st.b, st.c, st.d);
    Chain(st.d, Turn(st.a, st.b, f, x[WordIndex(i)], Shift(i), Table(i)), st.b, st.c)
  }

  /** Step i run backwards: rotate right and subtract. */
  function Unstep(st: Chain, x: seq<uint4>, i: nat): Chain
    requires |x| == 16 && i < 64
  {
    var f := Mixer(i, st.c, st.d, st.a);
    Chain(Unturn(st.b, st.c, f, x[WordIndex(i)], Shift(i), Table(i)), st.c, st.d, st.a)
  }

  /** The first n steps. */
  function Steps(st: Chain, x: seq<uint4>, n: nat): Chain
    requires |x| == 16 && n <= 64
  {
    if n == 0 then st else Step(Steps(st, x, n - 1), x, n - 1)
  }

  /** The first n steps undone, last one first. */
  function Unsteps(st: Chain, x: seq<uint4>, n: nat): Chain
    requires |x| == 16 && n <= 64
    decreases n
  {
    if n == 0 then st else Unsteps(Unstep(st, x, n - 1), x, n - 1)
  }

  // The solver cancels inside one written-out term only, hence the detour by these two.

  lemma DifferenceOfSum(v: uint4, w: uint4)
    ensures Difference(v + w, w) == v
  {}

  lemma SumOfDifference(v: uint4, w: uint4)
    ensures Sum(v - w, w) == v
  {}

  lemma SumThenDifference(v: uint4, w: uint4)
    ensures Difference(Sum(v, w), w) == v
  {
    hide Difference;
    DifferenceOfSum(v, w);
  }

  lemma DifferenceThenSum(v: uint4, w: uint4)
    ensures Sum(Difference(v, w), w) == v
  {
    hide Sum;
    SumOfDifference(v, w);
  }

  lemma SumCommutes(v: uint4, w: uint4)
    ensures Sum(v, w) == Sum(w, v)
  {}

  lemma SumInverse(v: uint4, w: uint4)
    ensures Difference(Sum(v, w), w) == v && Sum(Difference(v, w), w) == v
    ensures Difference(Sum(w, v), w) == v
  {
    hide Sum, Difference;
    SumThenDifference(v, w);
    DifferenceThenSum(v, w);
    SumCommutes(v, w);
  }

  lemma TurnInverse(a: uint4, b: uint4, f: uint4, x: uint4, s: uint4, ac: uint4)
    requires IsShift(s) && s < 32
    ensures Unturn(Turn(a, b, f, x, s, ac), b, f, x, s, ac) == a
    ensures Turn(Unturn(a, b, f, x, s, ac), b, f, x, s, ac) == a
  {
    hide RotateLeft, RotateRight, IsShift, Sum, Difference;
    var sum := Sum(Sum(Sum(a, f), x), ac);
    SumInverse(a, f); SumInverse(Sum(a, f), x); SumInverse(Sum(Sum(a, f), x), ac);
    RotateInverse(sum, s);
    SumInverse(RotateLeft(sum, s), b);
    var r := RotateRight(Difference(a, b), s);
    SumInverse(Difference(Difference(r, ac), x), f); SumInverse(Difference(r, ac), x); SumInverse(r, ac);
    RotateInverse(Difference(a, b), s);
    SumInverse(a, b);
  }

  lemma StepInverse(st: Chain, x: seq<uint4>, i: nat)
    requires |x| == 16 && i < 64
    ensures Unstep(Step(st, x, i), x, i) == st
    ensures Step(Unstep(st, x, i), x, i) == st
  {
    hide Mixer, WordIndex, Shift, Table, Turn, Unturn, IsShift;
    TurnInverse(st.a, st.b, Mixer(i, st.b, st.c, st.d), x[WordIndex(i)], Shift(i), Table(i));
    TurnInverse(st.b, st.c, Mixer(i, st.c, st.d, st.a), x[WordIndex(i)], Shift(i), Table(i));
  }

  /** For a fixed block the steps are a bijection on the registers: running them backwards
      is a left and a right inverse, after any number of steps. */
  lemma {:induction false} StepsInverse(st: Chain, x: seq<uint4>, n: nat)
    requires |x| == 16 && n <= 64
    ensures Unsteps(Steps(st, x, n), x, n) == st
    ensures Steps(Unsteps(st, x, n), x, n) == st
    decreases n
  {
    hide Step, Unstep;
    if n > 0 {
      StepInverse(Steps(st, x, n - 1), x, n - 1);
      StepsInverse(st, x, n - 1);
      StepInverse(st, x, n - 1);
      StepsInverse(Unstep(st, x, n - 1), x, n - 1);
    }
  }

  // ----- the compression function

  function Plus(s: Chain, t: Chain): Chain {
    Chain(Sum(s.a, t.a), Sum(s.b, t.b), Sum(s.c, t.c), Sum(s.d, t.d))
  }

  function Minus(s: Chain, t: Chain): Chain {
    Chain(Difference(s.a, t.a), Difference(s.b, t.b), Difference(s.c, t.c), Difference(s.d, t.d))
  }

  function Compress(st: Chain, block: seq<uint1>): Chain
    requires |block| == 64
  {
    Plus(st, Steps(st, DecodeWords(block), 64))
  }

  /** The block transformation is a permutation of the state plus the state itself: taking
      the state away again and running the steps backwards recovers the state; and every
      register value is reached, so that every feed-forward sum occurs. */
  lemma CompressIsPermutationPlusState(st: Chain, block: seq<uint1>, target: Chain)
    requires |block| == 64
    ensures Unsteps(Minus(Compress(st, block), st), DecodeWords(block), 64) == st
    ensures var pre := Unsteps(target, DecodeWords(block), 64);
            Compress(pre, block) == Plus(pre, target)
    ensures forall other: Chain ::
              Minus(Compress(st, block), st) == Minus(Compress(other, block), other) ==> other == st
  {
    hide Steps, Unsteps;
    var x := DecodeWords(block);
    PlusMinus(st, Steps(st, x, 64));
    StepsInverse(st, x, 64);
    StepsInverse(target, x, 64);
    forall other: Chain | Minus(Compress(st, block), st) == Minus(Compress(other, block), other)
      ensures other == st
    {
      PlusMinus(other, Steps(other, x, 64));
      StepsInverse(other, x, 64);
    }
  }

  lemma PlusMinus(s: Chain, t: Chain)
    ensures Minus(Plus(s, t), s) == t
  {
    hide Sum, Difference;
    SumInverse(t.a, s.a);
    SumInverse(t.b, s.b);
    SumInverse(t.c, s.c);
    SumInverse(t.d, s.d);
  }

  // ----- the schedule reads every word

  /** The step of round r (counted from 0) that reads word k. */
  function StepReading(r: nat, k: nat): (i: nat)
    requires r < 4 && k < 16
    ensures 16 * r <= i < 16 * r + 16
  {
    if r == 0 then k
    else if r == 1 then 16 + (13 * (k + 15)) % 16
    else if r == 2 then 32 + (11 * (k + 11)) % 16
    else 48 + (7 * k) % 16
  }

  lemma SameMod16(m: int, n: int, q: int)
    requires m == n + 16 * q
    ensures m % 16 == n % 16
  {}

  lemma ReadsOnce(i: nat)
    requires i < 64
    ensures StepReading(i / 16, WordIndex(i)) == i
  {
    var w := WordIndex(i);
    if 16 <= i < 32 {
      SameMod16(13 * (w + 15), i, 4 * i + 13 - 13 * ((5 * i + 1) / 16));
    } else if 32 <= i < 48 {
      SameMod16(11 * (w + 11), i, 2 * i + 11 - 11 * ((3 * i + 5) / 16));
    } else if 48 <= i {
      SameMod16(7 * w, i, 3 * i - 7 * ((7 * i) / 16));
    }
  }

  lemma ReadsEvery2(k: nat)
    requires k < 16
    ensures Read2(StepReading(1, k)) == k
  {
    var i, q := StepReading(1, k), 13 * (k + 15) / 16;
    assert i == 16 + 13 * (k + 15) - 16 * q;
    SameMod16(5 * i + 1, k, 4 * k + 66 - 5 * q);
  }

  lemma ReadsEvery3(k: nat)
    requires k < 16
    ensures Read3(StepReading(2, k)) == k
  {
    var i, q := StepReading(2, k), 11 * (k + 11) / 16;
    assert i == 32 + 11 * (k + 11) - 16 * q;
    SameMod16(3 * i + 5, k, 2 * k + 29 - 3 * q);
  }

  lemma ReadsEvery4(k: nat)
    requires k < 16
    ensures Read4(StepReading(3, k)) == k
  {
    var i, q := StepReading(3, k), 7 * k / 16;
    assert i == 48 + 7 * k - 16 * q;
    SameMod16(7 * i, k, 3 * k + 21 - 7 * q);
  }

  /** Each round reads every message word, and reads it in one step only. */
  lemma RoundReadsEachWordOnce(r: nat, k: nat)
    requires r < 4 && k < 16
    ensures forall i: nat :: 16 * r <= i < 16 * r + 16 ==> (WordIndex(i) == k <==> i == StepReading(r, k))
  {
    hide Read2, Read3, Read4;
    ReadsEvery2(k);
    ReadsEvery3(k);
    ReadsEvery4(k);
    forall i: nat | 16 * r <= i < 16 * r + 16 && WordIndex(i) == k
      ensures i == StepReading(r, k)
    {
      ReadsOnce(i);
    }
  }
}
