/** The digest of "abc" as published in section A.5 of RFC 1321, step by step. */
module KnownDigest {
  import opened Words
  import opened Octets
  import opened Codec
  import opened Compression
  import opened Stream
  import opened Rounds
  import opened Hex

  /** The characters a, b, c. */
  const ABC: seq<uint1> := [0x61, 0x62, 0x63]

  const DIGEST: seq<uint1> :=
    [0x90, 0x01, 0x50, 0x98, 0x3c, 0xd2, 0x4f, 0xb0,
     0xd6, 0x96, 0x3f, 0x7d, 0x28, 0xe1, 0x7f, 0x72]

  /** The sixteen words of its only block. */
  predicate IsBlock(x: seq<uint4>) {
    && |x| == 16 && x[0] == 0x80636261 && x[1] == 0 && x[2] == 0 && x[3] == 0
    && x[4] == 0 && x[5] == 0 && x[6] == 0 && x[7] == 0 && x[8] == 0 && x[9] == 0
    && x[10] == 0 && x[11] == 0 && x[12] == 0 && x[13] == 0 && x[14] == 0x18 && x[15] == 0
  }

  // The registers after every fourth step.

  lemma Steps4(x: seq<uint4>)
    requires IsBlock(x) && Steps(INITIAL, x, 0) == Chain(0x67452301, 0xefcdab89, 0x98badcfe, 0x10325476)
    ensures Steps(INITIAL, x, 4) == Chain(0xd6d117b4, 0x7ad956f2, 0x2f6fbd72, 0x344a8432)
  {
    hide Steps;
    assert FF(0x67452301, 0xefcdab89, 0x98badcfe, 0x10325476, 0x80636261, S11, 0xd76aa478) == 0xd6d117b4;
    assert FF(0x10325476, 0xd6d117b4, 0xefcdab89, 0x98badcfe, 0, S12, 0xe8c7b756) == 0x344a8432;
    assert FF(0x98badcfe, 0x344a8432, 0xd6d117b4, 0xefcdab89, 0, S13, 0x242070db) == 0x2f6fbd72;
    assert FF(0xefcdab89, 0x2f6fbd72, 0x344a8432, 0xd6d117b4, 0, S14, 0xc1bdceee) == 0x7ad956f2;
    FourFF(INITIAL, x, 0, 0x67452301, 0xefcdab89, 0x98badcfe, 0x10325476,
           0xd6d117b4, 0x7ad956f2, 0x2f6fbd72, 0x344a8432);
  }

  lemma Steps8(x: seq<uint4>)
    requires IsBlock(x) && Steps(INITIAL, x, 4) == Chain(0xd6d117b4, 0x7ad956f2, 0x2f6fbd72, 0x344a8432)
    ensures Steps(INITIAL, x, 8) == Chain(0xc73741ef, 0x928d99f6, 0x207dc67b, 0x8bac3051)
  {
    hide Steps;
    assert FF(0xd6d117b4, 0x7ad956f2, 0x2f6fbd72, 0x344a8432, 0, S11, 0xf57c0faf) == 0xc73741ef;
    assert FF(0x344a8432, 0xc73741ef, 0x7ad956f2, 0x2f6fbd72, 0, S12, 0x4787c62a) == 0x8bac3051;
    assert FF(0x2f6fbd72, 0x8bac3051, 0xc73741ef, 0x7ad956f2, 0, S13, 0xa8304613) == 0x207dc67b;
    assert FF(0x7ad956f2, 0x207dc67b, 0x8bac3051, 0xc73741ef, 0, S14, 0xfd469501) == 0x928d99f6;
    FourFF(INITIAL, x, 4, 0xd6d117b4, 0x7ad956f2, 0x2f6fbd72, 0x344a8432,
           0xc73741ef, 0x928d99f6, 0x207dc67b, 0x8bac3051);
  }

  lemma Steps12(x: seq<uint4>)
    requires IsBlock(x) && Steps(INITIAL, x, 8) == Chain(0xc73741ef, 0x928d99f6, 0x207dc67b, 0x8bac3051)
    ensures Steps(INITIAL, x, 12) == Chain(0x854b3712, 0x5ed49596, 0x3020401c, 0x74e2f284)
  {
    hide Steps;
    assert FF(0xc73741ef, 0x928d99f6, 0x207dc67b, 0x8bac3051, 0, S11, 0x698098d8) == 0x854b3712;
    assert FF(0x8bac3051, 0x854b3712, 0x928d99f6, 0x207dc67b, 0, S12, 0x8b44f7af) == 0x74e2f284;
    assert FF(0x207dc67b, 0x74e2f284, 0x854b3712, 0x928d99f6, 0, S13, 0xffff5bb1) == 0x3020401c;
    assert FF(0x928d99f6, 0x3020401c, 0x74e2f284, 0x854b3712, 0, S14, 0x895cd7be) == 0x5ed49596;
    FourFF(INITIAL, x, 8, 0xc73741ef, 0x928d99f6, 0x207dc67b, 0x8bac3051,
           0x854b3712, 0x5ed49596, 0x3020401c, 0x74e2f284);
  }

  lemma Steps16(x: seq<uint4>)
    requires IsBlock(x) && Steps(INITIAL, x, 12) == Chain(0x854b3712, 0x5ed49596, 0x3020401c, 0x74e2f284)
    ensures Steps(INITIAL, x, 16) == Chain(0xdda9b9a6, 0x72aff2e0, 0xe396856b, 0xa1051895)
  {
    hide Steps;
    assert FF(0x854b3712, 0x5ed49596, 0x3020401c, 0x74e2f284, 0, S11, 0x6b901122) == 0xdda9b9a6;
    assert FF(0x74e2f284, 0xdda9b9a6, 0x5ed49596, 0x3020401c, 0, S12, 0xfd987193) == 0xa1051895;
    assert FF(0x3020401c, 0xa1051895, 0xdda9b9a6, 0x5ed49596, 0x00000018, S13, 0xa679438e) == 0xe396856b;
    assert FF(0x5ed49596, 0xe396856b, 0xa1051895, 0xdda9b9a6, 0, S14, 0x49b40821) == 0x72aff2e0;
    FourFF(INITIAL, x, 12, 0x854b3712, 0x5ed49596, 0x3020401c, 0x74e2f284,
           0xdda9b9a6, 0x72aff2e0, 0xe396856b, 0xa1051895);
  }

  lemma Steps20(x: seq<uint4>)
    requires IsBlock(x) && Steps(INITIAL, x, 16) == Chain(0xdda9b9a6, 0x72aff2e0, 0xe396856b, 0xa1051895)
    ensures Steps(INITIAL, x, 20) == Chain(0x3e9e9126, 0xb5b204e4, 0xe25e1652, 0x4a1d804e)
  {
    hide Steps;
    assert GG(0xdda9b9a6, 0x72aff2e0, 0xe396856b, 0xa1051895, 0, S21, 0xf61e2562) == 0x3e9e9126;
    assert GG(0xa1051895, 0x3e9e9126, 0x72aff2e0, 0xe396856b, 0, S22, 0xc040b340) == 0x4a1d804e;
    assert GG(0xe396856b, 0x4a1d804e, 0x3e9e9126, 0x72aff2e0, 0, S23, 0x265e5a51) == 0xe25e1652;
    assert GG(0x72aff2e0, 0xe25e1652, 0x4a1d804e, 0x3e9e9126, 0x80636261, S24, 0xe9b6c7aa) == 0xb5b204e4;
    FourGG(INITIAL, x, 16, 0xdda9b9a6, 0x72aff2e0, 0xe396856b, 0xa1051895,
           0x3e9e9126, 0xb5b204e4, 0xe25e1652, 0x4a1d804e);
  }

  lemma Steps24(x: seq<uint4>)
    requires IsBlock(x) && Steps(INITIAL, x, 20) == Chain(0x3e9e9126, 0xb5b204e4, 0xe25e1652, 0x4a1d804e)
    ensures Steps(INITIAL, x, 24) == Chain(0x59a8ffda, 0x47092c07, 0xabfc7920, 0x6d002f1e)
  {
    hide Steps;
    assert GG(0x3e9e9126, 0xb5b204e4, 0xe25e1652, 0x4a1d804e, 0, S21, 0xd62f105d) == 0x59a8ffda;
    assert GG(0x4a1d804e, 0x59a8ffda, 0xb5b204e4, 0xe25e1652, 0, S22, 0x02441453) == 0x6d002f1e;
    assert GG(0xe25e1652, 0x6d002f1e, 0x59a8ffda, 0xb5b204e4, 0, S23, 0xd8a1e681) == 0xabfc7920;
    assert GG(0xb5b204e4, 0xabfc7920, 0x6d002f1e, 0x59a8ffda, 0, S24, 0xe7d3fbc8) == 0x47092c07;
    FourGG(INITIAL, x, 20, 0x3e9e9126, 0xb5b204e4, 0xe25e1652, 0x4a1d804e,
           0x59a8ffda, 0x47092c07, 0xabfc7920, 0x6d002f1e);
  }

  lemma Steps28(x: seq<uint4>)
    requires IsBlock(x) && Steps(INITIAL, x, 24) == Chain(0x59a8ffda, 0x47092c07, 0xabfc7920, 0x6d002f1e)
    ensures Steps(INITIAL, x, 28) == Chain(0xb7f268cf, 0x786acb8f, 0xfe1623b1, 0x09388eff)
  {
    hide Steps;
    assert GG(0x59a8ffda, 0x47092c07, 0xabfc7920, 0x6d002f1e, 0, S21, 0x21e1cde6) == 0xb7f268cf;
    assert GG(0x6d002f1e, 0xb7f268cf, 0x47092c07, 0xabfc7920, 0x00000018, S22, 0xc33707d6) == 0x09388eff;
    assert GG(0xabfc7920, 0x09388eff, 0xb7f268cf, 0x47092c07, 0, S23, 0xf4d50d87) == 0xfe1623b1;
    assert GG(0x47092c07, 0xfe1623b1, 0x09388eff, 0xb7f268cf, 0, S24, 0x455a14ed) == 0x786acb8f;
    FourGG(INITIAL, x, 24, 0x59a8ffda, 0x47092c07, 0xabfc7920, 0x6d002f1e,
           0xb7f268cf, 0x786acb8f, 0xfe1623b1, 0x09388eff);
  }

  lemma Steps32(x: seq<uint4>)
    requires IsBlock(x) && Steps(INITIAL, x, 28) == Chain(0xb7f268cf, 0x786acb8f, 0xfe1623b1, 0x09388eff)
    ensures Steps(INITIAL, x, 32) == Chain(0x790a77fb, 0x726342d3, 0xa62884aa, 0x9f47e4f8)
  {
    hide Steps;
    assert GG(0xb7f268cf, 0x786acb8f, 0xfe1623b1, 0x09388eff, 0, S21, 0xa9e3e905) == 0x790a77fb;
    assert GG(0x09388eff, 0x790a77fb, 0x786acb8f, 0xfe1623b1, 0, S22, 0xfcefa3f8) == 0x9f47e4f8;
    assert GG(0xfe1623b1, 0x9f47e4f8, 0x790a77fb, 0x786acb8f, 0, S23, 0x676f02d9) == 0xa62884aa;
    assert GG(0x786acb8f, 0xa62884aa, 0x9f47e4f8, 0x790a77fb, 0, S24, 0x8d2a4c8a) == 0x726342d3;
    FourGG(INITIAL, x, 28, 0xb7f268cf, 0x786acb8f, 0xfe1623b1, 0x09388eff,
           0x790a77fb, 0x726342d3, 0xa62884aa, 0x9f47e4f8);
  }

  lemma Steps36(x: seq<uint4>)
    requires IsBlock(x) && Steps(INITIAL, x, 32) == Chain(0x790a77fb, 0x726342d3, 0xa62884aa, 0x9f47e4f8)
    ensures Steps(INITIAL, x, 36) == Chain(0xb3707ebf, 0x3b0875c7, 0x8d212ff5, 0x60127b2e)
  {
    hide Steps;
    assert HH(0x790a77fb, 0x726342d3, 0xa62884aa, 0x9f47e4f8, 0, S31, 0xfffa3942) == 0xb3707ebf;
    assert HH(0x9f47e4f8, 0xb3707ebf, 0x726342d3, 0xa62884aa, 0, S32, 0x8771f681) == 0x60127b2e;
    assert HH(0xa62884aa, 0x60127b2e, 0xb3707ebf, 0x726342d3, 0, S33, 0x6d9d6122) == 0x8d212ff5;
    assert HH(0x726342d3, 0x8d212ff5, 0x60127b2e, 0xb3707ebf, 0x00000018, S34, 0xfde5380c) == 0x3b0875c7;
    FourHH(INITIAL, x, 32, 0x790a77fb, 0x726342d3, 0xa62884aa, 0x9f47e4f8,
           0xb3707ebf, 0x3b0875c7, 0x8d212ff5, 0x60127b2e);
  }

  lemma Steps40(x: seq<uint4>)
    requires IsBlock(x) && Steps(INITIAL, x, 36) == Chain(0xb3707ebf, 0x3b0875c7, 0x8d212ff5, 0x60127b2e)
    ensures Steps(INITIAL, x, 40) == Chain(0x21b117b9, 0x5a2f5ea5, 0x3575227e, 0x6e7429d5)
  {
    hide Steps;
    assert HH(0xb3707ebf, 0x3b0875c7, 0x8d212ff5, 0x60127b2e, 0, S31, 0xa4beea44) == 0x21b117b9;
    assert HH(0x60127b2e, 0x21b117b9, 0x3b0875c7, 0x8d212ff5, 0, S32, 0x4bdecfa9) == 0x6e7429d5;
    assert HH(0x8d212ff5, 0x6e7429d5, 0x21b117b9, 0x3b0875c7, 0, S33, 0xf6bb4b60) == 0x3575227e;
    assert HH(0x3b0875c7, 0x3575227e, 0x6e7429d5, 0x21b117b9, 0, S34, 0xbebfbc70) == 0x5a2f5ea5;
    FourHH(INITIAL, x, 36, 0xb3707ebf, 0x3b0875c7, 0x8d212ff5, 0x60127b2e,
           0x21b117b9, 0x5a2f5ea5, 0x3575227e, 0x6e7429d5);
  }

  lemma Steps44(x: seq<uint4>)
    requires IsBlock(x) && Steps(INITIAL, x, 40) == Chain(0x21b117b9, 0x5a2f5ea5, 0x3575227e, 0x6e7429d5)
    ensures Steps(INITIAL, x, 44) == Chain(0x11de1779, 0x4c6124f4, 0x31c465ca, 0xfadcaa38)
  {
    hide Steps;
    assert HH(0x21b117b9, 0x5a2f5ea5, 0x3575227e, 0x6e7429d5, 0, S31, 0x289b7ec6) == 0x11de1779;
    assert HH(0x6e7429d5, 0x11de1779, 0x5a2f5ea5, 0x3575227e, 0x80636261, S32, 0xeaa127fa) == 0xfadcaa38;
    assert HH(0x3575227e, 0xfadcaa38, 0x11de1779, 0x5a2f5ea5, 0, S33, 0xd4ef3085) == 0x31c465ca;
    assert HH(0x5a2f5ea5, 0x31c465ca, 0xfadcaa38, 0x11de1779, 0, S34, 0x04881d05) == 0x4c6124f4;
    FourHH(INITIAL, x, 40, 0x21b117b9, 0x5a2f5ea5, 0x3575227e, 0x6e7429d5,
           0x11de1779, 0x4c6124f4, 0x31c465ca, 0xfadcaa38);
  }

  lemma Steps48(x: seq<uint4>)
    requires IsBlock(x) && Steps(INITIAL, x, 44) == Chain(0x11de1779, 0x4c6124f4, 0x31c465ca, 0xfadcaa38)
    ensures Steps(INITIAL, x, 48) == Chain(0x7f2e507b, 0x7beb9700, 0x8fae6399, 0x99d9679d)
  {
    hide Steps;
    assert HH(0x11de1779, 0x4c6124f4, 0x31c465ca, 0xfadcaa38, 0, S31, 0xd9d4d039) == 0x7f2e507b;
    assert HH(0xfadcaa38, 0x7f2e507b, 0x4c6124f4, 0x31c465ca, 0, S32, 0xe6db99e5) == 0x99d9679d;
    assert HH(0x31c465ca, 0x99d9679d, 0x7f2e507b, 0x4c6124f4, 0, S33, 0x1fa27cf8) == 0x8fae6399;
    assert HH(0x4c6124f4, 0x8fae6399, 0x99d9679d, 0x7f2e507b, 0, S34, 0xc4ac5665) == 0x7beb9700;
    FourHH(INITIAL, x, 44, 0x11de1779, 0x4c6124f4, 0x31c465ca, 0xfadcaa38,
           0x7f2e507b, 0x7beb9700, 0x8fae6399, 0x99d9679d);
  }

  lemma Steps52(x: seq<uint4>)
    requires IsBlock(x) && Steps(INITIAL, x, 48) == Chain(0x7f2e507b, 0x7beb9700, 0x8fae6399, 0x99d9679d)
    ensures Steps(INITIAL, x, 52) == Chain(0x7b201df8, 0x8bf025c4, 0xb298cefd, 0xf4e8e96e)
  {
    hide Steps;
    assert II(0x7f2e507b, 0x7beb9700, 0x8fae6399, 0x99d9679d, 0x80636261, S41, 0xf4292244) == 0x7b201df8;
    assert II(0x99d9679d, 0x7b201df8, 0x7beb9700, 0x8fae6399, 0, S42, 0x432aff97) == 0xf4e8e96e;
    assert II(0x8fae6399, 0xf4e8e96e, 0x7b201df8, 0x7beb9700, 0x00000018, S43, 0xab9423a7) == 0xb298cefd;
    assert II(0x7beb9700, 0xb298cefd, 0xf4e8e96e, 0x7b201df8, 0, S44, 0xfc93a039) == 0x8bf025c4;
    FourII(INITIAL, x, 48, 0x7f2e507b, 0x7beb9700, 0x8fae6399, 0x99d9679d,
           0x7b201df8, 0x8bf025c4, 0xb298cefd, 0xf4e8e96e);
  }

  lemma Steps56(x: seq<uint4>)
    requires IsBlock(x) && Steps(INITIAL, x, 52) == Chain(0x7b201df8, 0x8bf025c4, 0xb298cefd, 0xf4e8e96e)
    ensures Steps(INITIAL, x, 56) == Chain(0x06cc5e8a, 0x3bfa2c27, 0x7d632dd0, 0x5b0d97aa)
  {
    hide Steps;
    assert II(0x7b201df8, 0x8bf025c4, 0xb298cefd, 0xf4e8e96e, 0, S41, 0x655b59c3) == 0x06cc5e8a;
    assert II(0xf4e8e96e, 0x06cc5e8a, 0x8bf025c4, 0xb298cefd, 0, S42, 0x8f0ccc92) == 0x5b0d97aa;
    assert II(0xb298cefd, 0x5b0d97aa, 0x06cc5e8a, 0x8bf025c4, 0, S43, 0xffeff47d) == 0x7d632dd0;
    assert II(0x8bf025c4, 0x7d632dd0, 0x5b0d97aa, 0x06cc5e8a, 0, S44, 0x85845dd1) == 0x3bfa2c27;
    FourII(INITIAL, x, 52, 0x7b201df8, 0x8bf025c4, 0xb298cefd, 0xf4e8e96e,
           0x06cc5e8a, 0x3bfa2c27, 0x7d632dd0, 0x5b0d97aa);
  }

  lemma Steps60(x: seq<uint4>)
    requires IsBlock(x) && Steps(INITIAL, x, 56) == Chain(0x06cc5e8a, 0x3bfa2c27, 0x7d632dd0, 0x5b0d97aa)
    ensures Steps(INITIAL, x, 60) == Chain(0x7f81cc35, 0x7327d604, 0x4f9dbe3f, 0x094454ab)
  {
    hide Steps;
    assert II(0x06cc5e8a, 0x3bfa2c27, 0x7d632dd0, 0x5b0d97aa, 0, S41, 0x6fa87e4f) == 0x7f81cc35;
    assert II(0x5b0d97aa, 0x7f81cc35, 0x3bfa2c27, 0x7d632dd0, 0, S42, 0xfe2ce6e0) == 0x094454ab;
    assert II(0x7d632dd0, 0x094454ab, 0x7f81cc35, 0x3bfa2c27, 0, S43, 0xa3014314) == 0x4f9dbe3f;
    assert II(0x3bfa2c27, 0x4f9dbe3f, 0x094454ab, 0x7f81cc35, 0, S44, 0x4e0811a1) == 0x7327d604;
    FourII(INITIAL, x, 56, 0x06cc5e8a, 0x3bfa2c27, 0x7d632dd0, 0x5b0d97aa,
           0x7f81cc35, 0x7327d604, 0x4f9dbe3f, 0x094454ab);
  }

  lemma Steps64(x: seq<uint4>)
    requires IsBlock(x) && Steps(INITIAL, x, 60) == Chain(0x7f81cc35, 0x7327d604, 0x4f9dbe3f, 0x094454ab)
    ensures Steps(INITIAL, x, 64) == Chain(0x310ade8f, 0xc08226b3, 0xe484b9d8, 0x624d8cb2)
  {
    hide Steps;
    assert II(0x7f81cc35, 0x7327d604, 0x4f9dbe3f, 0x094454ab, 0, S41, 0xf7537e82) == 0x310ade8f;
    assert II(0x094454ab, 0x310ade8f, 0x7327d604, 0x4f9dbe3f, 0, S42, 0xbd3af235) == 0x624d8cb2;
    assert II(0x4f9dbe3f, 0x624d8cb2, 0x310ade8f, 0x7327d604, 0, S43, 0x2ad7d2bb) == 0xe484b9d8;
    assert II(0x7327d604, 0xe484b9d8, 0x624d8cb2, 0x310ade8f, 0, S44, 0xeb86d391) == 0xc08226b3;
    FourII(INITIAL, x, 60, 0x7f81cc35, 0x7327d604, 0x4f9dbe3f, 0x094454ab,
           0x310ade8f, 0xc08226b3, 0xe484b9d8, 0x624d8cb2);
  }

  lemma AllSteps(x: seq<uint4>)
    requires IsBlock(x)
    ensures Steps(INITIAL, x, 64) == Chain(0x310ade8f, 0xc08226b3, 0xe484b9d8, 0x624d8cb2)
  {
    hide Steps;
    StepsNone(INITIAL, x);
    Steps4(x);
    Steps8(x);
    Steps12(x);
    Steps16(x);
    Steps20(x);
    Steps24(x);
    Steps28(x);
    Steps32(x);
    Steps36(x);
    Steps40(x);
    Steps44(x);
    Steps48(x);
    Steps52(x);
    Steps56(x);
    Steps60(x);
    Steps64(x);
  }

  /** The block: the three characters, a one bit, zeros, and the length of 24 bits. */
  lemma BlockOfAbc()
    ensures Padded(ABC) == ABC + [0x80] + Zeros(52) + [0x18] + Zeros(7)
    ensures IsBlock(DecodeWords(Padded(ABC)))
  {
    hide LengthBytes, Padded, PaddingTable;
    PaddedByTable(ABC);
    LengthIs24();
    TableFor3();
    Assembled(Padded(ABC));
  }

  lemma TableFor3()
    ensures PaddingTable()[..PadLen(3)] == [0x80] + Zeros(52)
  {}

  lemma LengthIs24()
    ensures LengthBytes(3) == [0x18] + Zeros(7)
  {
    hide Octet, LittleEndian;
    ByteIs24();
    LittleEndianStep(24, 7);
    ZeroBytes(7);
  }

  lemma ByteIs24()
    ensures Octet(24) == 0x18 && Octet(0) == 0
  {}

  lemma {:induction false} ZeroBytes(k: nat)
    ensures LittleEndian(0, k) == Zeros(k)
  {
    hide Octet;
    if k > 0 {
      ByteIs24();
      ZeroBytes(k - 1);
    }
  }

  lemma Assembled(p: seq<uint1>)
    requires p == ABC + [0x80] + Zeros(52) + [0x18] + Zeros(7)
    ensures IsBlock(DecodeWords(p))
  {
    hide WordOf;
    ThreeWords();
  }

  lemma ThreeWords()
    ensures WordOf(0x61, 0x62, 0x63, 0x80) == 0x80636261 && WordOf(0x18, 0, 0, 0) == 0x18 && WordOf(0, 0, 0, 0) == 0
  {}

  /** MD5 ("abc") = 900150983cd24fb0d6963f7d28e17f72. */
  lemma DigestOfAbc()
    ensures ToHex(Md5(ABC)) == "900150983cd24fb0d6963f7d28e17f72"
  {
    hide Padded, Steps, ToHex, DecodeWords, EncodeWords;
    BlockOfAbc();
    AllSteps(DecodeWords(Padded(ABC)));
    FoldOne(INITIAL, Padded(ABC));
    Stored();
    Printed(Md5(ABC));
  }

  /** The registers added to the initial ones, and their bytes. */
  lemma Stored()
    ensures Plus(INITIAL, Chain(0x310ade8f, 0xc08226b3, 0xe484b9d8, 0x624d8cb2)) ==
            Chain(0x98500190, 0xb04fd23c, 0x7d3f96d6, 0x727fe128)
    ensures EncodeWords(Words4(Chain(0x98500190, 0xb04fd23c, 0x7d3f96d6, 0x727fe128))) ==
            DIGEST
  {
    hide ByteOf;
    BytesOf0();
    BytesOf1();
    BytesOf2();
    BytesOf3();
  }

  lemma BytesOf0()
    ensures ByteOf(0x98500190, 0) == 0x90 && ByteOf(0x98500190, 1) == 0x01
    ensures ByteOf(0x98500190, 2) == 0x50 && ByteOf(0x98500190, 3) == 0x98
  {}

  lemma BytesOf1()
    ensures ByteOf(0xb04fd23c, 0) == 0x3c && ByteOf(0xb04fd23c, 1) == 0xd2
    ensures ByteOf(0xb04fd23c, 2) == 0x4f && ByteOf(0xb04fd23c, 3) == 0xb0
  {}

  lemma BytesOf2()
    ensures ByteOf(0x7d3f96d6, 0) == 0xd6 && ByteOf(0x7d3f96d6, 1) == 0x96
    ensures ByteOf(0x7d3f96d6, 2) == 0x3f && ByteOf(0x7d3f96d6, 3) == 0x7d
  {}

  lemma BytesOf3()
    ensures ByteOf(0x727fe128, 0) == 0x28 && ByteOf(0x727fe128, 1) == 0xe1
    ensures ByteOf(0x727fe128, 2) == 0x7f && ByteOf(0x727fe128, 3) == 0x72
  {}

  lemma PrintedFour(a: uint1, b: uint1, c: uint1, d: uint1)
    ensures ToHex([a, b, c, d]) == HexByte(a) + (HexByte(b) + (HexByte(c) + HexByte(d)))
  {
    hide HexByte;
    assert [a, b, c, d][1..] == [b, c, d] && [b, c, d][1..] == [c, d] && [c, d][1..] == [d] && [d][1..] == [];
    assert ToHex([d]) == HexByte(d);
    assert ToHex([c, d]) == HexByte(c) + ToHex([d]);
    assert ToHex([b, c, d]) == HexByte(b) + ToHex([c, d]);
    assert ToHex([a, b, c, d]) == HexByte(a) + ToHex([b, c, d]);
  }

  lemma Text()
    ensures (("90015098" + "3cd24fb0") + "d6963f7d") + "28e17f72" ==
            "900150983cd24fb0d6963f7d28e17f72"
  {}

  lemma Printed(d: seq<uint1>)
    requires d == DIGEST
    ensures ToHex(d) == "900150983cd24fb0d6963f7d28e17f72"
  {
    hide ToHex, HexByte;
    var p, q := [0x90, 0x01, 0x50, 0x98], [0x3c, 0xd2, 0x4f, 0xb0];
    var r, s := [0xd6, 0x96, 0x3f, 0x7d], [0x28, 0xe1, 0x7f, 0x72];
    assert d == ((p + q) + r) + s;
    ToHexAppend((p + q) + r, s);
    ToHexAppend(p + q, r);
    ToHexAppend(p, q);
    Digits0();
    Digits1();
    Digits2();
    Digits3();
    assert ToHex(d) == ((ToHex(p) + ToHex(q)) + ToHex(r)) + ToHex(s);
    Text();
  }

  lemma Digits0()
    ensures ToHex([0x90, 0x01, 0x50, 0x98]) == "90015098"
  {
    PrintedFour(0x90, 0x01, 0x50, 0x98);
  }

  lemma Digits1()
    ensures ToHex([0x3c, 0xd2, 0x4f, 0xb0]) == "3cd24fb0"
  {
    PrintedFour(0x3c, 0xd2, 0x4f, 0xb0);
  }

  lemma Digits2()
    ensures ToHex([0xd6, 0x96, 0x3f, 0x7d]) == "d6963f7d"
  {
    PrintedFour(0xd6, 0x96, 0x3f, 0x7d);
  }

  lemma Digits3()
    ensures ToHex([0x28, 0xe1, 0x7f, 0x72]) == "28e17f72"
  {
    PrintedFour(0x28, 0xe1, 0x7f, 0x72);
  }
}
