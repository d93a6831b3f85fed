/** Class MD5 of server/MD5.h. */
module Engine {
  import opened Words
  import opened Codec
  import opened Compression
  import opened Rounds
  import opened Stream
  import opened ChunkLoop
  import opened Hex
  import opened Wrappers
  import Digests

  /** memcpy between two arrays. */
  method CopyBytes(dst: array<uint1>, at: nat, src: array<uint1>, from: nat, n: nat)
    requires dst != src && at + n <= dst.Length && from + n <= src.Length
    modifies dst
    ensures dst[..] == old(dst[..at]) + src[from..from + n] + old(dst[at + n..])
    ensures dst[..at + n] == old(dst[..at]) + src[from..from + n]
  {
    var i := 0;
    while i < n
      invariant 0 <= i <= n
      invariant dst[..at] == old(dst[..at]) && dst[at + n..] == old(dst[at + n..])
      invariant dst[at..at + i] == src[from..from + i]
    {
      dst[at + i] := src[from + i];
      i := i + 1;
    }
    assert dst[..] == dst[..at] + dst[at..at + n] + dst[at + n..];
  }

  /** sprintf of one byte with "%02x": two digits and a terminating zero. */
  method PrintByte(buf: array<char>, at: nat, b: uint1)
    requires at + 3 <= buf.Length
    modifies buf
    ensures buf[..] == old(buf[..at]) + HexByte(b) + ['\0'] + old(buf[at + 3..])
  {
    buf[at] := HexDigit(b >> 4);
    buf[at + 1] := HexDigit(b & 0xf);
    buf[at + 2] := '\0';
  }

  /** The characters up to the first zero, as a string constructor reads them. */
  function CString(s: string): string {
    if s == [] || s[0] == '\0' then [] else [s[0]] + CString(s[1..])
  }

  lemma {:induction false} ReadsBack(s: string)
    requires '\0' !in s
    ensures CString(s + ['\0']) == s
  {
    if s != [] {
      ReadsBack(s[1..]);
      assert (s + ['\0'])[1..] == s[1..] + ['\0'];
    }
  }

  class MD5 {
    var finalized: bool
    const buffer: array<uint1>
    const count: array<size32>
    const state: array<uint4>
    const digest: array<uint1>

    /** The arrays have their sizes and are separate; the verifier does not tell an array of
        integers from an array of bytes by its type alone. */
    ghost predicate Valid()
    {
      && buffer.Length == 64 && count.Length == 2 && state.Length == 4 && digest.Length == 16
      && buffer != digest && buffer as object != count && digest as object != count
    }

    ghost function Registers(): Chain
      requires Valid()
      reads state
    {
      Chain(state[0], state[1], state[2], state[3])
    }

    /** What decides later digests; the bytes of buffer past the live ones are no part of it. */
    ghost function View(): Context
      requires Valid()
      reads buffer, count, state
    {
      Context(Registers(), count[0], count[1], buffer[..count[0] / 8 % 64])
    }

    /** The whole object as a value. */
    ghost function Self(): Digests.Object
      requires Valid()
      reads this, buffer, count, state, digest
    {
      Digests.Object(View(), finalized, digest[..])
    }

    constructor ()
      ensures Valid() && fresh(buffer) && fresh(count) && fresh(state) && fresh(digest)
      ensures View() == FRESH && !finalized
    {
      buffer, digest := new uint1[64], new uint1[16];
      count, state := new size32[2], new uint4[4];
      new;
      Init();
    }

    /** The length of text is narrowed to 32 bits on its way into update. */
    constructor FromText(text: array<uint1>)
      requires NoWrap(0, text.Length % TWO_32)
      ensures Valid() && fresh(buffer) && fresh(count) && fresh(state) && fresh(digest)
      ensures finalized && digest[..] == Md5(text[..text.Length % TWO_32])
    {
      buffer, digest := new uint1[64], new uint1[16];
      count, state := new size32[2], new uint4[4];
      new;
      Init();
      Update(text, text.Length % TWO_32);
      ghost var msg := text[..text.Length % TWO_32];
      FreshTracks();
      AbsorbTracks(FRESH, INITIAL, [], msg);
      assert [] + msg == msg;
      FinalDigestIsMd5(View(), msg);
      Finalize();
    }

    method Init()
      requires Valid()
      modifies this, count, state
      ensures View() == FRESH && !finalized
    {
      finalized := false;
      count[0] := 0;
      count[1] := 0;
      state[0] := 0x67452301;
      state[1] := 0xefcdab89;
      state[2] := 0x98badcfe;
      state[3] := 0x10325476;
    }

    /** Bytes at, at + 1, .. of input into words. */
    static method Decode(output: array<uint4>, input: array<uint1>, at: nat, len: nat)
      requires len % 4 == 0 && len <= 4 * output.Length && at + len <= input.Length
      modifies output
      ensures output[..len / 4] == DecodeWords(input[at..at + len])
      ensures output[len / 4..] == old(output[len / 4..])
    {
      hide WordOf;
      var i, j := 0, 0;
      while j < len
        invariant j == 4 * i <= len
        invariant forall k :: 0 <= k < i ==> output[k] == WordAt(input[at..at + len], 4 * k)
        invariant output[len / 4..] == old(output[len / 4..])
      {
        output[i] := WordOf(input[at + j], input[at + j + 1], input[at + j + 2], input[at + j + 3]);
        i, j := i + 1, j + 4;
      }
    }

    static method Encode(output: array<uint1>, input: array<uint4>, len: nat)
      requires len % 4 == 0 && len <= output.Length && len <= 4 * input.Length
      modifies output
      ensures output[..len] == EncodeWords(input[..len / 4])
      ensures output[len..] == old(output[len..])
    {
      hide ByteOf, EncodeWords;
      var i, j := 0, 0;
      ghost var words := input[..len / 4];
      EncodeNone(words[..0]);
      while j < len
        invariant j == 4 * i <= len
        invariant output[..j] == EncodeWords(words[..i])
        invariant output[len..] == old(output[len..])
      {
        ghost var done := output[..j];
        EncodeSnoc(words[..i], words[i]);
        assert words[..i + 1] == words[..i] + [words[i]];
        output[j] := ByteOf(input[i], 0);
        output[j + 1] := ByteOf(input[i], 1);
        output[j + 2] := ByteOf(input[i], 2);
        output[j + 3] := ByteOf(input[i], 3);
        assert output[..j + 4] == done + output[j..j + 4];
        i, j := i + 1, j + 4;
      }
      assert words[..i] == words;
    }

    static method Round1(ghost start: Chain, x: array<uint4>, st: Chain)
      returns (a: uint4, b: uint4, c: uint4, d: uint4)
      requires x.Length == 16 && Steps(start, x[..], 0) == st
      ensures Steps(start, x[..], 16) == Chain(a, b, c, d)
    {
      hide FF, GG, HH, II, Steps;
      ghost var p, q, r, s;
      a, b, c, d := st.a, st.b, st.c, st.d;

      p, q, r, s := a, b, c, d;
      a := FF(a, b, c, d, x[0], S11, 0xd76aa478);
      d := FF(d, a, b, c, x[1], S12, 0xe8c7b756);
      c := FF(c, d, a, b, x[2], S13, 0x242070db);
      b := FF(b, c, d, a, x[3], S14, 0xc1bdceee);
      FourFF(start, x[..], 0, p, q, r, s, a, b, c, d);

      p, q, r, s := a, b, c, d;
      a := FF(a, b, c, d, x[4], S11, 0xf57c0faf);
      d := FF(d, a, b, c, x[5], S12, 0x4787c62a);
      c := FF(c, d, a, b, x[6], S13, 0xa8304613);
      b := FF(b, c, d, a, x[7], S14, 0xfd469501);
      FourFF(start, x[..], 4, p, q, r, s, a, b, c, d);

      p, q, r, s := a, b, c, d;
      a := FF(a, b, c, d, x[8], S11, 0x698098d8);
      d := FF(d, a, b, c, x[9], S12, 0x8b44f7af);
      c := FF(c, d, a, b, x[10], S13, 0xffff5bb1);
      b := FF(b, c, d, a, x[11], S14, 0x895cd7be);
      FourFF(start, x[..], 8, p, q, r, s, a, b, c, d);

      p, q, r, s := a, b, c, d;
      a := FF(a, b, c, d, x[12], S11, 0x6b901122);
      d := FF(d, a, b, c, x[13], S12, 0xfd987193);
      c := FF(c, d, a, b, x[14], S13, 0xa679438e);
      b := FF(b, c, d, a, x[15], S14, 0x49b40821);
      FourFF(start, x[..], 12, p, q, r, s, a, b, c, d);
    }

    static method Round2(ghost start: Chain, x: array<uint4>, st: Chain)
      returns (a: uint4, b: uint4, c: uint4, d: uint4)
      requires x.Length == 16 && Steps(start, x[..], 16) == st
      ensures Steps(start, x[..], 32) == Chain(a, b, c, d)
    {
      hide FF, GG, HH, II, Steps;
      ghost var p, q, r, s;
      a, b, c, d := st.a, st.b, st.c, st.d;

      p, q, r, s := a, b, c, d;
      a := GG(a, b, c, d, x[1], S21, 0xf61e2562);
      d := GG(d, a, b, c, x[6], S22, 0xc040b340);
      c := GG(c, d, a, b, x[11], S23, 0x265e5a51);
      b := GG(b, c, d, a, x[0], S24, 0xe9b6c7aa);
      FourGG(start, x[..], 16, p, q, r, s, a, b, c, d);

      p, q, r, s := a, b, c, d;
      a := GG(a, b, c, d, x[5], S21, 0xd62f105d);
      d := GG(d, a, b, c, x[10], S22, 0x2441453);
      c := GG(c, d, a, b, x[15], S23, 0xd8a1e681);
      b := GG(b, c, d, a, x[4], S24, 0xe7d3fbc8);
      FourGG(start, x[..], 20, p, q, r, s, a, b, c, d);

      p, q, r, s := a, b, c, d;
      a := GG(a, b, c, d, x[9], S21, 0x21e1cde6);
      d := GG(d, a, b, c, x[14], S22, 0xc33707d6);
      c := GG(c, d, a, b, x[3], S23, 0xf4d50d87);
      b := GG(b, c, d, a, x[8], S24, 0x455a14ed);
      FourGG(start, x[..], 24, p, q, r, s, a, b, c, d);

      p, q, r, s := a, b, c, d;
      a := GG(a, b, c, d, x[13], S21, 0xa9e3e905);
      d := GG(d, a, b, c, x[2], S22, 0xfcefa3f8);
      c := GG(c, d, a, b, x[7], S23, 0x676f02d9);
      b := GG(b, c, d, a, x[12], S24, 0x8d2a4c8a);
      FourGG(start, x[..], 28, p, q, r, s, a, b, c, d);
    }

    static method Round3(ghost start: Chain, x: array<uint4>, st: Chain)
      returns (a: uint4, b: uint4, c: uint4, d: uint4)
      requires x.Length == 16 && Steps(start, x[..], 32) == st
      ensures Steps(start, x[..], 48) == Chain(a, b, c, d)
    {
      hide FF, GG, HH, II, Steps;
      ghost var p, q, r, s;
      a, b, c, d := st.a, st.b, st.c, st.d;

      p, q, r, s := a, b, c, d;
      a := HH(a, b, c, d, x[5], S31, 0xfffa3942);
      d := HH(d, a, b, c, x[8], S32, 0x8771f681);
      c := HH(c, d, a, b, x[11], S33, 0x6d9d6122);
      b := HH(b, c, d, a, x[14], S34, 0xfde5380c);
      FourHH(start, x[..], 32, p, q, r, s, a, b, c, d);

      p, q, r, s := a, b, c, d;
      a := HH(a, b, c, d, x[1], S31, 0xa4beea44);
      d := HH(d, a, b, c, x[4], S32, 0x4bdecfa9);
      c := HH(c, d, a, b, x[7], S33, 0xf6bb4b60);
      b := HH(b, c, d, a, x[10], S34, 0xbebfbc70);
      FourHH(start, x[..], 36, p, q, r, s, a, b, c, d);

      p, q, r, s := a, b, c, d;
      a := HH(a, b, c, d, x[13], S31, 0x289b7ec6);
      d := HH(d, a, b, c, x[0], S32, 0xeaa127fa);
      c := HH(c, d, a, b, x[3], S33, 0xd4ef3085);
      b := HH(b, c, d, a, x[6], S34, 0x4881d05);
      FourHH(start, x[..], 40, p, q, r, s, a, b, c, d);

      p, q, r, s := a, b, c, d;
      a := HH(a, b, c, d, x[9], S31, 0xd9d4d039);
      d := HH(d, a, b, c, x[12], S32, 0xe6db99e5);
      c := HH(c, d, a, b, x[15], S33, 0x1fa27cf8);
      b := HH(b, c, d, a, x[2], S34, 0xc4ac5665);
      FourHH(start, x[..], 44, p, q, r, s, a, b, c, d);
    }

    static method Round4(ghost start: Chain, x: array<uint4>, st: Chain)
      returns (a: uint4, b: uint4, c: uint4, d: uint4)
      requires x.Length == 16 && Steps(start, x[..], 48) == st
      ensures Steps(start, x[..], 64) == Chain(a, b, c, d)
    {
      hide FF, GG, HH, II, Steps;
      ghost var p, q, r, s;
      a, b, c, d := st.a, st.b, st.c, st.d;

      p, q, r, s := a, b, c, d;
      a := II(a, b, c, d, x[0], S41, 0xf4292244);
      d := II(d, a, b, c, x[7], S42, 0x432aff97);
      c := II(c, d, a, b, x[14], S43, 0xab9423a7);
      b := II(b, c, d, a, x[5], S44, 0xfc93a039);
      FourII(start, x[..], 48, p, q, r, s, a, b, c, d);

      p, q, r, s := a, b, c, d;
      a := II(a, b, c, d, x[12], S41, 0x655b59c3);
      d := II(d, a, b, c, x[3], S42, 0x8f0ccc92);
      c := II(c, d, a, b, x[10], S43, 0xffeff47d);
      b := II(b, c, d, a, x[1], S44, 0x85845dd1);
      FourII(start, x[..], 52, p, q, r, s, a, b, c, d);

      p, q, r, s := a, b, c, d;
      a := II(a, b, c, d, x[8], S41, 0x6fa87e4f);
      d := II(d, a, b, c, x[15], S42, 0xfe2ce6e0);
      c := II(c, d, a, b, x[6], S43, 0xa3014314);
      b := II(b, c, d, a, x[13], S44, 0x4e0811a1);
      FourII(start, x[..], 56, p, q, r, s, a, b, c, d);

      p, q, r, s := a, b, c, d;
      a := II(a, b, c, d, x[4], S41, 0xf7537e82);
      d := II(d, a, b, c, x[11], S42, 0xbd3af235);
      c := II(c, d, a, b, x[2], S43, 0x2ad7d2bb);
      b := II(b, c, d, a, x[9], S44, 0xeb86d391);
      FourII(start, x[..], 60, p, q, r, s, a, b, c, d);
    }

    /** One block of 64 bytes, starting at the given position. */
    method Transform(block: array<uint1>, at: nat)
      requires Valid() && at + 64 <= block.Length
      modifies state
      ensures Registers() == Compress(old(Registers()), block[at..at + 64])
    {
      hide Sum, Steps, DecodeWords;
      ghost var start, bytes := Registers(), block[at..at + 64];
      var a, b, c, d := state[0], state[1], state[2], state[3];
      var x := new uint4[16];
      Decode(x, block, at, 64);
      StepsNone(start, x[..]);
      a, b, c, d := Round1(start, x, Chain(a, b, c, d));
      a, b, c, d := Round2(start, x, Chain(a, b, c, d));
      a, b, c, d := Round3(start, x, Chain(a, b, c, d));
      a, b, c, d := Round4(start, x, Chain(a, b, c, d));
      assert x[..] == x[..16] == DecodeWords(bytes);
      state[0] := Sum(state[0], a);
      state[1] := Sum(state[1], b);
      state[2] := Sum(state[2], c);
      state[3] := Sum(state[3], d);
      assert Registers() == Compress(start, bytes);
      label Mixed:
      forall k | 0 <= k < 16 { x[k] := 0; }
      assert Registers() == old@Mixed(Registers()) && block[at..at + 64] == bytes;
    }

    /** The first lines of update: the number of bits, with its carry. */
    method CountBits(length: size32)
      requires Valid()
      modifies count
      ensures (count[0], count[1]) == CountUp(old(count[0]), old(count[1]), length)
    {
      var bits: size32 := length * 8 % TWO_32;
      count[0] := Add32(count[0], bits);
      if count[0] < bits {
        count[1] := Add32(count[1], 1);
      }
      count[1] := Add32(count[1], length / 0x2000_0000);
    }

    /** The part of update that fills the buffer from the input and transforms it. */
    method FillAndTransform(input: array<uint1>, index: size32, firstpart: size32)
      requires Valid() && input != buffer && index + firstpart == 64 && firstpart <= input.Length
      modifies buffer, state
      ensures Registers() == Compress(old(Registers()), old(buffer[..index] + input[..firstpart]))
    {
      hide Compress, Registers;
      CopyBytes(buffer, index, input, 0, firstpart);
      assert buffer[0..64] == buffer[..] == old(buffer[..index] + input[..firstpart]);
      Transform(buffer, 0);
    }

    /** The chunk loop of update, over the input from firstpart on. */
    method TransformChunks(input: array<uint1>, length: size32, firstpart: size32) returns (i: size32)
      requires Valid() && length <= input.Length && 0 < firstpart <= 64 && firstpart <= length
      requires NoWrap(64 - firstpart, length)
      modifies state
      ensures firstpart <= i <= length < i + 64 && (i - firstpart) % 64 == 0
      ensures Registers() == Fold(old(Registers()), input[firstpart..i])
    {
      hide Fold, Compress, Tail, NoWrap, Add32;
      ghost var start, bytes := Registers(), input[firstpart..length];
      FoldShort(start, bytes[..0]);
      i := firstpart;
      NextFits(firstpart, length, i);
      while Add32(i, 64) <= length
        invariant firstpart <= i <= length && (i - firstpart) % 64 == 0 && Add32(i, 64) == i + 64
        invariant Registers() == Fold(start, bytes[..i - firstpart])
        decreases length - i
      {
        assert bytes[i - firstpart..i - firstpart + 64] == input[i..i + 64];
        FoldNext(start, bytes, i - firstpart);
        Transform(input, i);
        i := Add32(i, 64);
        NextFits(firstpart, length, i);
      }
      assert bytes[..i - firstpart] == input[firstpart..i];
    }

    /** update: absorb the first length bytes of input. */
    method Update(input: array<uint1>, length: size32)
      requires Valid() && input != buffer && input as object != count && length <= input.Length
      requires NoWrap(count[0] / 8 % 64, length)
      modifies buffer, count, state
      ensures View() == Absorb(old(View()), old(input[..length]))
    {
      hide Fold, Compress, Tail, CountUp, NoWrap, Registers, Coherent, Add32;
      ghost var c, bytes := View(), input[..length];
      LiveLength(c, bytes);
      var index: size32 := count[0] / 8 % 64;
      CountBits(length);
      var firstpart: size32 := 64 - index;
      var i: size32;
      if length >= firstpart {
        FillAndTransform(input, index, firstpart);
        assert input[..firstpart] == bytes[..firstpart];
        i := TransformChunks(input, length, firstpart);
        assert input[firstpart..i] == bytes[firstpart..i];
        FoldInParts(c.chain, c.live, bytes, i);
        index := 0;
        assert length - i < 64 && input[i..length] == bytes[i..];
      } else {
        i := 0;
        FoldShort(c.chain, c.live + bytes);
        assert index + length < 64 && input[0..length] == bytes;
      }
      assert Registers() == Fold(c.chain, c.live + bytes);
      ghost var live := buffer[..index] + input[i..length];
      assert live == Tail(c.live + bytes);
      CopyBytes(buffer, index, input, i, length - i);
      assert View().live == live;
    }

    /** The two closing updates of finalize: padding to 56 modulo 64, then the bit length. */
    method AppendPaddingAndLength()
      requires Valid()
      modifies buffer, count, state
      ensures View() == CloseOff(old(View()))
    {
      hide Absorb, EncodeWords, ToWord, Fold, Tail, NoWrap, CountUp, Registers;
      ghost var c := View();
      var bits, words := new uint1[8], new uint4[2];
      words[0], words[1] := ToWord(count[0]), ToWord(count[1]);
      Encode(bits, words, 8);
      assert bits[..8] == EncodeWords(words[..2]) && words[..2] == [ToWord(c.lo), ToWord(c.hi)];

      var index: size32 := count[0] / 8 % 64;
      var padLen: size32 := if index < 56 then 56 - index else 120 - index;
      var padding := new uint1[64](k => if k == 0 then 0x80 else 0);
      assert padding[..] == PaddingTable();
      assert padding[..padLen] == PaddingTable()[..padLen];
      ShortNeverWraps(index, padLen);
      Update(padding, padLen);
      ShortNeverWraps(count[0] / 8 % 64, 8);
      Update(bits, 8);
    }

    /** The two memsets of finalize. */
    method Clear()
      requires Valid()
      modifies buffer, count
      ensures View() == Context(old(Registers()), 0, 0, [])
      ensures forall k :: 0 <= k < 64 ==> buffer[k] == 0
    {
      forall k | 0 <= k < 64 { buffer[k] := 0; }
      count[0], count[1] := 0, 0;
    }

    /** finalize: pad, append the length, store the digest, clear the context. */
    method Finalize()
      requires Valid()
      modifies this, buffer, count, state, digest
      ensures Self() == Digests.Finalize(old(Self()))
    {
      hide CloseOff, EncodeWords, Registers;
      if !finalized {
        AppendPaddingAndLength();
        Encode(digest, state, 16);
        EncodedRegisters();
        Clear();
        finalized := true;
      }
    }

    lemma EncodedRegisters()
      requires Valid()
      ensures EncodeWords(state[..4]) == EncodeWords(Words4(Registers()))
    {
      hide EncodeWords;
      assert state[..4] == Words4(Registers());
    }

    /** hexdigest: empty before finalisation, then 32 digits. */
    method HexDigest() returns (s: string)
      requires Valid()
      ensures s == Digests.HexDigest(Self())
    {
      if !finalized {
        return "";
      }
      var buf := new char[33];
      var i := 0;
      while i < 16
        invariant 0 <= i <= 16
        invariant buf[..2 * i] == ToHex(digest[..i])
      {
        ToHexAppend(digest[..i], [digest[i]]);
        assert digest[..i + 1] == digest[..i] + [digest[i]];
        assert ToHex([digest[i]]) == HexByte(digest[i]) + ToHex([]);
        PrintByte(buf, 2 * i, digest[i]);
        i := i + 1;
      }
      buf[32] := '\0';
      assert digest[..16] == digest[..] && buf[..] == ToHex(digest[..]) + ['\0'];
      ParsePrint(digest[..]);
      ReadsBack(ToHex(digest[..]));
      s := CString(buf[..]);
    }
  }

  /** md5: the text form of the digest of a string in one call. */
  method HashText(text: array<uint1>) returns (s: string)
    requires NoWrap(0, text.Length % TWO_32)
    ensures s == ToHex(Md5(text[..text.Length % TWO_32]))
    ensures FromHex(s) == Some(Md5(text[..text.Length % TWO_32]))
  {
    var md5 := new MD5.FromText(text);
    s := md5.HexDigest();
    ParsePrint(md5.digest[..]);
  }

  /** Any run of public calls on one object: the object ends as the run of calls says. */
  method Play(md5: MD5, calls: seq<Digests.Call>)
    requires md5.Valid() && Digests.Legal(md5.Self(), calls)
    modifies md5, md5.buffer, md5.count, md5.state, md5.digest
    ensures md5.Self() == Digests.Run(old(md5.Self()), calls)
  {
    hide Absorb, Digests.Finalize, NoWrap;
    ghost var start := md5.Self();
    var k := 0;
    assert calls[k..] == calls;
    while k < |calls|
      invariant 0 <= k <= |calls|
      invariant Digests.Legal(md5.Self(), calls[k..])
      invariant Digests.Run(md5.Self(), calls[k..]) == Digests.Run(start, calls)
    {
      assert calls[k..][0] == calls[k] && calls[k..][1..] == calls[k + 1..];
      match calls[k] {
        case CallUpdate(input) =>
          PlayUpdate(md5, input);
        case CallFinalize =>
          md5.Finalize();
      }
      k := k + 1;
    }
  }

  method PlayUpdate(md5: MD5, input: seq<uint1>)
    requires md5.Valid() && Digests.Returns(md5.Self(), Digests.CallUpdate(input))
    modifies md5.buffer, md5.count, md5.state
    ensures md5.Self() == Digests.Update(old(md5.Self()), input)
  {
    hide Absorb, NoWrap;
    var bytes := new uint1[|input|](i requires 0 <= i < |input| => input[i]);
    assert bytes[..|input|] == input;
    md5.Update(bytes, |input|);
  }

  /** A new object, any run of public calls that return, then hexdigest. */
  method HexDigestOfCalls(calls: seq<Digests.Call>) returns (s: string)
    requires Digests.Legal(Digests.Object(FRESH, false, []), calls)
    ensures s == if Digests.CallFinalize in calls then ToHex(Md5(Digests.BytesBeforeFinalize(calls))) else ""
  {
    hide Digests.Legal, Digests.Run, Md5, ToHex;
    var md5 := new MD5();
    Digests.LegalForAnyDigest(Digests.Object(FRESH, false, []), md5.digest[..], calls);
    Digests.HexDigestOfRun(calls, md5.digest[..]);
    Play(md5, calls);
    s := md5.HexDigest();
  }

  /** Every piece is one that update handles where the buffer stands, at first at the given position. */
  predicate PiecesFit(index: nat, pieces: seq<seq<uint1>>)
    requires index < 64
    decreases |pieces|
  {
    pieces == [] ||
    (|pieces[0]| < TWO_32 && NoWrap(index, |pieces[0]|) && PiecesFit((index + |pieces[0]|) % 64, pieces[1..]))
  }

  /** A message given piece by piece, however it is cut, then finalize and hexdigest: the text of the
      one-shot digest of the whole message. */
  method HashPieces(pieces: seq<seq<uint1>>) returns (s: string)
    requires PiecesFit(0, pieces)
    ensures s == ToHex(Md5(Concat(pieces)))
  {
    hide Absorb, FinalDigest, CloseOff, Tracks, Md5, NoWrap, ToHex;
    var md5 := new MD5();
    FreshTracks();
    ghost var msg := [];
    assert msg + Concat(pieces) == Concat(pieces);
    var k := 0;
    while k < |pieces|
      invariant 0 <= k <= |pieces| && fresh(md5.buffer) && fresh(md5.count) && fresh(md5.state) && fresh(md5.digest)
      invariant md5.Valid() && !md5.finalized && Tracks(md5.View(), INITIAL, msg)
      invariant msg + Concat(pieces[k..]) == Concat(pieces)
      invariant PiecesFit(|msg| % 64, pieces[k..])
    {
      ghost var piece := pieces[k];
      assert pieces[k..][0] == piece && pieces[k..][1..] == pieces[k + 1..];
      assert msg + (piece + Concat(pieces[k + 1..])) == (msg + piece) + Concat(pieces[k + 1..]);
      Position(md5.View(), msg, piece);
      AbsorbTracks(md5.View(), INITIAL, msg, piece);
      PlayUpdate(md5, pieces[k]);
      msg := msg + piece;
      k := k + 1;
    }
    assert pieces[k..] == [] && msg + [] == msg;
    FinalDigestIsMd5(md5.View(), msg);
    md5.Finalize();
    s := md5.HexDigest();
  }

  lemma Position(c: Context, msg: seq<uint1>, piece: seq<uint1>)
    requires Tracks(c, INITIAL, msg)
    ensures c.lo / 8 % 64 == |msg| % 64
    ensures |msg + piece| % 64 == (|msg| % 64 + |piece|) % 64
  {
    hide Tracks, Coherent;
    TracksCoherent(c, INITIAL, msg);
    CounterMod64(0, |msg|);
    Advance(|msg|, |piece|);
  }

  lemma Advance(n: nat, k: nat)
    ensures (n + k) % 64 == (n % 64 + k) % 64
  {
    Mod64Shift(n % 64 + k, n / 64);
  }
}
