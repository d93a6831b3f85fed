/** The 32-bit arithmetic of the chunk loop in update. */
module ChunkLoop {
  import opened Words

  /** Where the k-th pass of the loop starts, from a buffer filled up to index. */
  function ChunkStart(index: nat, k: nat): size32
    requires index < 64
  {
    (64 - index + 64 * k) % TWO_32
  }

  /** The loop guard lets pass k happen. */
  predicate GuardHolds(index: nat, length: size32, k: nat)
    requires index < 64
  {
    Add32(ChunkStart(index, k), 64) <= length
  }

  /** The loop comes to an end. */
  ghost predicate Ends(index: nat, length: size32)
    requires index < 64
  {
    exists k: nat :: !GuardHolds(index, length, k)
  }

  /** Every pass that the guard lets happen reads inside the input. */
  ghost predicate StaysInside(index: nat, length: size32)
    requires index < 64
  {
    forall k: nat :: (forall j: nat :: j <= k ==> GuardHolds(index, length, j)) ==> ChunkStart(index, k) + 64 <= length
  }

  /** The lengths up to which the sum in the loop guard does not wrap.  2^32 - 65 is below all of
      these bounds, and is the bound itself when the buffer is empty. */
  predicate NoWrap(index: nat, length: size32)
    requires index < 64
  {
    length < TWO_32 - 64 + (64 - index) % 64
  }

  /** The loop ends, and stays inside its input, exactly on the lengths that do not wrap. */
  lemma LoopIsBounded(index: nat, length: size32)
    requires index < 64 && 64 - index <= length
    ensures Ends(index, length) <==> NoWrap(index, length)
    ensures StaysInside(index, length) <==> NoWrap(index, length)
  {
    if NoWrap(index, length) {
      var k := (length - (64 - index)) / 64;
      assert !GuardHolds(index, length, k);
      forall k: nat | forall j: nat :: j <= k ==> GuardHolds(index, length, j)
        ensures ChunkStart(index, k) + 64 <= length
      {
        InsideUpTo(index, length, k);
      }
    } else {
      forall k: nat
        ensures GuardHolds(index, length, k)
      {
        NeverStops(index, length, k);
      }
      var k := (TWO_32 - 64 - (64 - index) + (64 - index) % 64) / 64;
      assert ChunkStart(index, k) == TWO_32 - 64 + (64 - index) % 64;
    }
  }

  /** Past the bound the guard holds for ever: the next position it tests is below 2^32 and lies
      on the same grid as the last position it could refuse. */
  lemma NeverStops(index: nat, length: size32, k: nat)
    requires index < 64 && !NoWrap(index, length)
    ensures GuardHolds(index, length, k)
  {}

  lemma {:induction false} InsideUpTo(index: nat, length: size32, k: nat)
    requires index < 64 && 64 - index <= length && NoWrap(index, length)
    requires forall j: nat :: j <= k ==> GuardHolds(index, length, j)
    ensures ChunkStart(index, k) == 64 - index + 64 * k && ChunkStart(index, k) + 64 <= length
  {
    if k > 0 {
      InsideUpTo(index, length, k - 1);
    }
    assert GuardHolds(index, length, k);
  }

  /** With an empty buffer 2^32 - 65 is the last length that works. */
  lemma BoundIsTight()
    ensures NoWrap(0, 0xffff_ffbf) && !NoWrap(0, 0xffff_ffc0)
    ensures !Ends(0, 0xffff_ffc0)
  {}

  lemma ShortNeverWraps(index: nat, length: size32)
    requires index < 64 && length <= 64
    ensures NoWrap(index, length)
  {}

  /** Within the bound the position after the next chunk is not wrapped, and on the same grid. */
  lemma NextFits(firstpart: nat, length: size32, i: size32)
    requires 0 < firstpart <= 64 && NoWrap(64 - firstpart, length)
    requires firstpart <= i <= length && (i - firstpart) % 64 == 0
    ensures Add32(i, 64) == i + 64 && (Add32(i, 64) - firstpart) % 64 == 0
  {}
}
