/** A collision of digests is a collision of the block transformation. */
module Collision {
  import opened Words
  import opened Codec
  import opened Compression
  import opened Stream

  /** The chain over bytes takes the given block, in the given state, after i blocks. */
  predicate TakenAt(start: Chain, bytes: seq<uint1>, i: nat, st: Chain, block: seq<uint1>) {
    && 64 * i + 64 <= |bytes|
    && st == Fold(start, bytes[..64 * i])
    && block == bytes[64 * i..64 * i + 64]
  }

  lemma LastBlock(start: Chain, p: seq<uint1>)
    requires |p| > 0 && |p| % 64 == 0
    ensures Fold(start, p) == Compress(Fold(start, p[..|p| - 64]), p[|p| - 64..])
    ensures TakenAt(start, p, |p| / 64 - 1, Fold(start, p[..|p| - 64]), p[|p| - 64..])
  {
    hide Compress;
    var h, b := p[..|p| - 64], p[|p| - 64..];
    assert p == h + b;
    FoldAppend(start, h, b);
    FoldOne(Fold(start, h), b);
  }

  lemma NotAnEnd(p: seq<uint1>, q: seq<uint1>)
    requires !EndsWith(p, q)
    ensures q != []
  {}

  /** Walk two chains with the same end back from that end, to the first point where they
      differ.  There they map two different pairs of state and block to one state. */
  lemma {:induction false} WalkBack(start: Chain, p: seq<uint1>, q: seq<uint1>)
    returns (i: nat, j: nat, s: Chain, b: seq<uint1>, t: Chain, c: seq<uint1>)
    requires |p| % 64 == 0 && |q| % 64 == 0
    requires Fold(start, p) == Fold(start, q)
    requires !EndsWith(p, q) && !EndsWith(q, p)
    ensures TakenAt(start, p, i, s, b) && TakenAt(start, q, j, t, c)
    ensures (s, b) != (t, c)
    ensures Compress(s, b) == Compress(t, c)
    decreases |p|
  {
    hide Compress, Fold, TakenAt, EndsWith;
    NotAnEnd(p, q);
    NotAnEnd(q, p);
    var p', q' := p[..|p| - 64], q[..|q| - 64];
    b, c := p[|p| - 64..], q[|q| - 64..];
    s, t := Fold(start, p'), Fold(start, q');
    i, j := |p| / 64 - 1, |q| / 64 - 1;
    LastBlock(start, p);
    LastBlock(start, q);
    if s == t && b == c {
      assert p == p' + b && q == q' + b;
      if EndsWith(p', q') { SuffixExtends(p', q', b); }
      if EndsWith(q', p') { SuffixExtends(q', p', b); }
      i, j, s, b, t, c := WalkBack(start, p', q');
      TakenInPrefix(start, p', p, i, s, b);
      TakenInPrefix(start, q', q, j, t, c);
    }
  }

  lemma TakenInPrefix(start: Chain, p: seq<uint1>, q: seq<uint1>, i: nat, st: Chain, block: seq<uint1>)
    requires p <= q && TakenAt(start, p, i, st, block)
    ensures TakenAt(start, q, i, st, block)
  {
    hide Fold;
    assert p[..64 * i] == q[..64 * i] && p[64 * i..64 * i + 64] == q[64 * i..64 * i + 64];
  }

  lemma SuffixExtends(p: seq<uint1>, q: seq<uint1>, b: seq<uint1>)
    requires EndsWith(p, q)
    ensures EndsWith(p + b, q + b)
  {}

  /** Two different messages with one digest yield two different pairs of state and block that
      the block transformation maps to one state, both taken from the two computations.  The
      lengths may be anything but different and equal modulo 2^61; in particular all messages
      under 2^61 bytes qualify. */
  lemma CollisionReduction(m: seq<uint1>, n: seq<uint1>)
    returns (i: nat, j: nat, s: Chain, b: seq<uint1>, t: Chain, c: seq<uint1>)
    requires m != n && Md5(m) == Md5(n)
    requires |m| == |n| || |m| % 0x2000_0000_0000_0000 != |n| % 0x2000_0000_0000_0000
    ensures TakenAt(INITIAL, Padded(m), i, s, b) && TakenAt(INITIAL, Padded(n), j, t, c)
    ensures (s, b) != (t, c)
    ensures Compress(s, b) == Compress(t, c)
  {
    hide Compress, Fold, Padded, EncodeWords;
    var p, q := Padded(m), Padded(n);
    EncodeInjective(Words4(Fold(INITIAL, p)), Words4(Fold(INITIAL, q)));
    SameWords(Fold(INITIAL, p), Fold(INITIAL, q));
    PaddedByTable(m);
    PaddedByTable(n);
    if EndsWith(p, q) {
      NotSuffix(n, m);
    }
    if EndsWith(q, p) {
      NotSuffix(m, n);
    }
    i, j, s, b, t, c := WalkBack(INITIAL, p, q);
  }

  lemma SameWords(s: Chain, t: Chain)
    requires Words4(s) == Words4(t)
    ensures s == t
  {}

  lemma NotSuffix(m: seq<uint1>, n: seq<uint1>)
    requires EndsWith(Padded(n), Padded(m))
    requires |m| == |n| || |m| % 0x2000_0000_0000_0000 != |n| % 0x2000_0000_0000_0000
    ensures m == n
  {
    hide Padded, PaddingTable, LengthBytes;
    PaddingSuffixFree(m, n);
    PaddedByTable(m);
    PaddedByTable(n);
    assert Padded(n)[0..] == Padded(n);
    PaddingInjective(m, n);
  }
}
