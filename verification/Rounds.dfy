/** The round operations of server/MD5.cpp and their place in the indexed steps. */
module Rounds {
  import opened Words
  import opened Compression

  const S11: uint4 := 7
  const S12: uint4 := 12
  const S13: uint4 := 17
  const S14: uint4 := 22
  const S21: uint4 := 5
  const S22: uint4 := 9
  const S23: uint4 := 14
  const S24: uint4 := 20
  const S31: uint4 := 4
  const S32: uint4 := 11
  const S33: uint4 := 16
  const S34: uint4 := 23
  const S41: uint4 := 6
  const S42: uint4 := 10
  const S43: uint4 := 15
  const S44: uint4 := 21

  // Each operation gives the new value of its first register.

  function FF(a: uint4, b: uint4, c: uint4, d: uint4, x: uint4, s: uint4, ac: uint4): uint4
    requires s < 32
  {
    Sum(RotateLeft(Sum(Sum(Sum(a, F(b, c, d)), x), ac), s), b)
  }

  function GG(a: uint4, b: uint4, c: uint4, d: uint4, x: uint4, s: uint4, ac: uint4): uint4
    requires s < 32
  {
    Sum(RotateLeft(Sum(Sum(Sum(a, G(b, c, d)), x), ac), s), b)
  }

  function HH(a: uint4, b: uint4, c: uint4, d: uint4, x: uint4, s: uint4, ac: uint4): uint4
    requires s < 32
  {
    Sum(RotateLeft(Sum(Sum(Sum(a, H(b, c, d)), x), ac), s), b)
  }

  function II(a: uint4, b: uint4, c: uint4, d: uint4, x: uint4, s: uint4, ac: uint4): uint4
    requires s < 32
  {
    Sum(RotateLeft(Sum(Sum(Sum(a, I(b, c, d)), x), ac), s), b)
  }

  /** The operation of the round to which step i belongs. */
  function Operation(i: nat, a: uint4, b: uint4, c: uint4, d: uint4, x: uint4, s: uint4, ac: uint4): uint4
    requires s < 32
  {
    if i < 16 then FF(a, b, c, d, x, s, ac)
    else if i < 32 then GG(a, b, c, d, x, s, ac)
    else if i < 48 then HH(a, b, c, d, x, s, ac)
    else II(a, b, c, d, x, s, ac)
  }

  lemma OperationIsTurn(i: nat, a: uint4, b: uint4, c: uint4, d: uint4, x: uint4, s: uint4, ac: uint4)
    requires s < 32
    ensures Operation(i, a, b, c, d, x, s, ac) == Turn(a, b, Mixer(i, b, c, d), x, s, ac)
  {
    hide Sum, RotateLeft, F, G, H, I;
  }

  /** Operation i as the schedule has it. */
  function At(i: nat, xs: seq<uint4>, a: uint4, b: uint4, c: uint4, d: uint4): uint4
    requires i < 64 && |xs| == 16
  {
    Operation(i, a, b, c, d, xs[WordIndex(i)], Shift(i), Table(i))
  }

  lemma AtIsStep(st: Chain, xs: seq<uint4>, i: nat)
    requires i < 64 && |xs| == 16
    ensures Step(st, xs, i) == Chain(st.d, At(i, xs, st.a, st.b, st.c, st.d), st.b, st.c)
  {
    hide Operation, Turn, Mixer, WordIndex, Shift, Table;
    OperationIsTurn(i, st.a, st.b, st.c, st.d, xs[WordIndex(i)], Shift(i), Table(i));
  }

  /** Four operations that rename the registers instead of moving their values are four steps. */
  lemma FourSteps(start: Chain, xs: seq<uint4>, n: nat,
                  p: uint4, q: uint4, r: uint4, s: uint4, a: uint4, b: uint4, c: uint4, d: uint4)
    requires n + 4 <= 64 && |xs| == 16
    requires Steps(start, xs, n) == Chain(p, q, r, s)
    requires a == At(n, xs, p, q, r, s)
    requires d == At(n + 1, xs, s, a, q, r)
    requires c == At(n + 2, xs, r, d, a, q)
    requires b == At(n + 3, xs, q, c, d, a)
    ensures Steps(start, xs, n + 4) == Chain(a, b, c, d)
  {
    hide Step, At;
    AtIsStep(Chain(p, q, r, s), xs, n);
    AtIsStep(Chain(s, a, q, r), xs, n + 1);
    AtIsStep(Chain(r, d, a, q), xs, n + 2);
    AtIsStep(Chain(q, c, d, a), xs, n + 3);
    assert Steps(start, xs, n + 1) == Chain(s, a, q, r);
    assert Steps(start, xs, n + 2) == Chain(r, d, a, q);
    assert Steps(start, xs, n + 3) == Chain(q, c, d, a);
  }

  // The same for each round, with the words, shifts and constants of that round.

  lemma AtFF(i: nat, xs: seq<uint4>, a: uint4, b: uint4, c: uint4, d: uint4)
    requires 0 <= i < 16 && |xs| == 16
    ensures At(i, xs, a, b, c, d) == FF(a, b, c, d, xs[Read1(i)], Shift(i), Table1(i))
  {}

  lemma FourFF(start: Chain, xs: seq<uint4>, n: nat,
               p: uint4, q: uint4, r: uint4, s: uint4, a: uint4, b: uint4, c: uint4, d: uint4)
    requires 0 <= n && n + 4 <= 16 && n % 4 == 0 && |xs| == 16
    requires Steps(start, xs, n) == Chain(p, q, r, s)
    requires a == FF(p, q, r, s, xs[Read1(n)], S11, Table1(n))
    requires d == FF(s, a, q, r, xs[Read1(n + 1)], S12, Table1(n + 1))
    requires c == FF(r, d, a, q, xs[Read1(n + 2)], S13, Table1(n + 2))
    requires b == FF(q, c, d, a, xs[Read1(n + 3)], S14, Table1(n + 3))
    ensures Steps(start, xs, n + 4) == Chain(a, b, c, d)
  {
    hide FF, Read1, Table1, At, Steps;
    AtFF(n, xs, p, q, r, s);
    AtFF(n + 1, xs, s, a, q, r);
    AtFF(n + 2, xs, r, d, a, q);
    AtFF(n + 3, xs, q, c, d, a);
    FourSteps(start, xs, n, p, q, r, s, a, b, c, d);
  }

  lemma AtGG(i: nat, xs: seq<uint4>, a: uint4, b: uint4, c: uint4, d: uint4)
    requires 16 <= i < 32 && |xs| == 16
    ensures At(i, xs, a, b, c, d) == GG(a, b, c, d, xs[Read2(i)], Shift(i), Table2(i - 16))
  {}

  lemma FourGG(start: Chain, xs: seq<uint4>, n: nat,
               p: uint4, q: uint4, r: uint4, s: uint4, a: uint4, b: uint4, c: uint4, d: uint4)
    requires 16 <= n && n + 4 <= 32 && n % 4 == 0 && |xs| == 16
    requires Steps(start, xs, n) == Chain(p, q, r, s)
    requires a == GG(p, q, r, s, xs[Read2(n)], S21, Table2(n - 16))
    requires d == GG(s, a, q, r, xs[Read2(n + 1)], S22, Table2(n - 15))
    requires c == GG(r, d, a, q, xs[Read2(n + 2)], S23, Table2(n - 14))
    requires b == GG(q, c, d, a, xs[Read2(n + 3)], S24, Table2(n - 13))
    ensures Steps(start, xs, n + 4) == Chain(a, b, c, d)
  {
    hide GG, Read2, Table2, At, Steps;
    AtGG(n, xs, p, q, r, s);
    AtGG(n + 1, xs, s, a, q, r);
    AtGG(n + 2, xs, r, d, a, q);
    AtGG(n + 3, xs, q, c, d, a);
    FourSteps(start, xs, n, p, q, r, s, a, b, c, d);
  }

  lemma AtHH(i: nat, xs: seq<uint4>, a: uint4, b: uint4, c: uint4, d: uint4)
    requires 32 <= i < 48 && |xs| == 16
    ensures At(i, xs, a, b, c, d) == HH(a, b, c, d, xs[Read3(i)], Shift(i), Table3(i - 32))
  {}

  lemma FourHH(start: Chain, xs: seq<uint4>, n: nat,
               p: uint4, q: uint4, r: uint4, s: uint4, a: uint4, b: uint4, c: uint4, d: uint4)
    requires 32 <= n && n + 4 <= 48 && n % 4 == 0 && |xs| == 16
    requires Steps(start, xs, n) == Chain(p, q, r, s)
    requires a == HH(p, q, r, s, xs[Read3(n)], S31, Table3(n - 32))
    requires d == HH(s, a, q, r, xs[Read3(n + 1)], S32, Table3(n - 31))
    requires c == HH(r, d, a, q, xs[Read3(n + 2)], S33, Table3(n - 30))
    requires b == HH(q, c, d, a, xs[Read3(n + 3)], S34, Table3(n - 29))
    ensures Steps(start, xs, n + 4) == Chain(a, b, c, d)
  {
    hide HH, Read3, Table3, At, Steps;
    AtHH(n, xs, p, q, r, s);
    AtHH(n + 1, xs, s, a, q, r);
    AtHH(n + 2, xs, r, d, a, q);
    AtHH(n + 3, xs, q, c, d, a);
    FourSteps(start, xs, n, p, q, r, s, a, b, c, d);
  }

  lemma AtII(i: nat, xs: seq<uint4>, a: uint4, b: uint4, c: uint4, d: uint4)
    requires 48 <= i < 64 && |xs| == 16
    ensures At(i, xs, a, b, c, d) == II(a, b, c, d, xs[Read4(i)], Shift(i), Table4(i - 48))
  {}

  lemma FourII(start: Chain, xs: seq<uint4>, n: nat,
               p: uint4, q: uint4, r: uint4, s: uint4, a: uint4, b: uint4, c: uint4, d: uint4)
    requires 48 <= n && n + 4 <= 64 && n % 4 == 0 && |xs| == 16
    requires Steps(start, xs, n) == Chain(p, q, r, s)
    requires a == II(p, q, r, s, xs[Read4(n)], S41, Table4(n - 48))
    requires d == II(s, a, q, r, xs[Read4(n + 1)], S42, Table4(n - 47))
    requires c == II(r, d, a, q, xs[Read4(n + 2)], S43, Table4(n - 46))
    requires b == II(q, c, d, a, xs[Read4(n + 3)], S44, Table4(n - 45))
    ensures Steps(start, xs, n + 4) == Chain(a, b, c, d)
  {
    hide II, Read4, Table4, At, Steps;
    AtII(n, xs, p, q, r, s);
    AtII(n + 1, xs, s, a, q, r);
    AtII(n + 2, xs, r, d, a, q);
    AtII(n + 3, xs, q, c, d, a);
    FourSteps(start, xs, n, p, q, r, s, a, b, c, d);
  }

  lemma StepsNone(start: Chain, xs: seq<uint4>)
    requires |xs| == 16
    ensures Steps(start, xs, 0) == start
  {}
}
