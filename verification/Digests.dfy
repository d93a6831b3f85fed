/** Objects of class MD5 as values, and what runs of public calls do to them. */
module Digests {
  import opened Words
  import opened Compression
  import opened Stream
  import opened ChunkLoop
  import opened Hex

  datatype Object = Object(ctx: Context, finalized: bool, digest: seq<uint1>)

  function Update(o: Object, input: seq<uint1>): Object
    requires |input| < TWO_32
  {
    o.(ctx := Absorb(o.ctx, input))
  }

  /** finalize; the context is cleared but for the chaining state. */
  function Finalize(o: Object): Object {
    if o.finalized then o
    else Object(Context(CloseOff(o.ctx).chain, 0, 0, []), true, FinalDigest(o.ctx))
  }

  function HexDigest(o: Object): string {
    if o.finalized then ToHex(o.digest) else ""
  }

  datatype Call = CallUpdate(input: seq<uint1>) | CallFinalize

  /** The call returns: finalize always, update on the lengths that its chunk loop handles from where
      the buffer stands. */
  predicate Returns(o: Object, call: Call) {
    call.CallUpdate? ==> |call.input| < TWO_32 && NoWrap(o.ctx.lo / 8 % 64, |call.input|)
  }

  function Apply(o: Object, call: Call): Object
    requires Returns(o, call)
  {
    match call
    case CallUpdate(input) => Update(o, input)
    case CallFinalize => Finalize(o)
  }

  /** Every call of the run returns. */
  predicate Legal(o: Object, calls: seq<Call>)
    decreases |calls|
  {
    calls == [] || (Returns(o, calls[0]) && Legal(Apply(o, calls[0]), calls[1..]))
  }

  function Run(o: Object, calls: seq<Call>): Object
    requires Legal(o, calls)
    decreases |calls|
  {
    if calls == [] then o else Run(Apply(o, calls[0]), calls[1..])
  }

  /** The bytes given to update before the first finalize. */
  function BytesBeforeFinalize(calls: seq<Call>): seq<uint1> {
    if calls == [] || calls[0].CallFinalize? then [] else calls[0].input + BytesBeforeFinalize(calls[1..])
  }

  /** Once finalised, no run of public calls changes the digest. */
  lemma {:induction false} DigestFrozen(o: Object, calls: seq<Call>)
    requires o.finalized && Legal(o, calls)
    ensures Run(o, calls).finalized && Run(o, calls).digest == o.digest
    ensures HexDigest(Run(o, calls)) == HexDigest(o)
    decreases |calls|
  {
    hide Absorb, FinalDigest, CloseOff, ToHex;
    if calls != [] {
      DigestFrozen(Apply(o, calls[0]), calls[1..]);
    }
  }

  lemma {:induction false} RunDigest(o: Object, msg: seq<uint1>, calls: seq<Call>)
    requires !o.finalized && Tracks(o.ctx, INITIAL, msg) && Legal(o, calls)
    ensures var r := Run(o, calls);
            && r.finalized == (CallFinalize in calls)
            && (r.finalized ==> r.digest == Md5(msg + BytesBeforeFinalize(calls)))
    decreases |calls|
  {
    hide Absorb, FinalDigest, CloseOff, Tracks, Md5;
    if calls == [] {
    } else if calls[0].CallFinalize? {
      FinalDigestIsMd5(o.ctx, msg);
      DigestFrozen(Finalize(o), calls[1..]);
      assert msg + [] == msg;
    } else {
      var input := calls[0].input;
      AbsorbTracks(o.ctx, INITIAL, msg, input);
      RunDigest(Update(o, input), msg + input, calls[1..]);
      assert msg + input + BytesBeforeFinalize(calls[1..]) == msg + BytesBeforeFinalize(calls);
      assert CallFinalize in calls <==> CallFinalize in calls[1..];
    }
  }

  /** Over every run of public calls on a new object that return, hexdigest is empty before the first
      finalize and from then on the digest of exactly the bytes given before that finalize. */
  lemma HexDigestOfRun(calls: seq<Call>, digest: seq<uint1>)
    requires Legal(Object(FRESH, false, digest), calls)
    ensures HexDigest(Run(Object(FRESH, false, digest), calls)) ==
            if CallFinalize in calls then ToHex(Md5(BytesBeforeFinalize(calls))) else ""
  {
    hide Run, Legal, Md5, ToHex;
    FreshTracks();
    RunDigest(Object(FRESH, false, digest), [], calls);
    assert [] + BytesBeforeFinalize(calls) == BytesBeforeFinalize(calls);
  }

  /** Which runs return does not depend on what the digest field holds. */
  lemma {:induction false} LegalForAnyDigest(o: Object, digest: seq<uint1>, calls: seq<Call>)
    requires Legal(o, calls) && !o.finalized
    ensures Legal(o.(digest := digest), calls)
    decreases |calls|
  {
    hide Absorb, FinalDigest, CloseOff, NoWrap;
    if calls != [] && calls[0].CallUpdate? {
      LegalForAnyDigest(Apply(o, calls[0]), digest, calls[1..]);
    }
  }

  /** An update after finalisation is still absorbed, though the digest no longer shows it. */
  lemma UpdateAfterFinalize(o: Object, input: seq<uint1>)
    requires !o.finalized && 0 < |input| < TWO_32
    ensures var f := Finalize(o);
            && Update(f, input).ctx != f.ctx
            && Tracks(Update(f, input).ctx, f.ctx.chain, input)
            && HexDigest(Update(f, input)) == HexDigest(f)
  {
    hide CloseOff, FinalDigest, ToHex, Absorb, Fold;
    var f := Finalize(o);
    FoldShort(f.ctx.chain, []);
    AbsorbTracks(f.ctx, f.ctx.chain, [], input);
    assert [] + input == input;
  }

  lemma {:induction false} RunAppend(o: Object, calls: seq<Call>, more: seq<Call>)
    ensures Legal(o, calls + more) <==> Legal(o, calls) && Legal(Run(o, calls), more)
    ensures Legal(o, calls + more) ==> Run(o, calls + more) == Run(Run(o, calls), more)
    decreases |calls|
  {
    hide Apply, Returns;
    if calls == [] {
      assert calls + more == more;
    } else {
      assert (calls + more)[0] == calls[0] && (calls + more)[1..] == calls[1..] + more;
      if Returns(o, calls[0]) {
        RunAppend(Apply(o, calls[0]), calls[1..], more);
      }
    }
  }

  lemma RunSingle(o: Object, call: Call)
    ensures Legal(o, [call]) <==> Returns(o, call)
    ensures Returns(o, call) ==> Run(o, [call]) == Apply(o, call)
  {}

  /** What an update handles in one call, it handles in two. */
  lemma SplitReturns(lo: size32, p: nat, q: nat)
    requires p + q < TWO_32 && NoWrap(lo / 8 % 64, p + q)
    ensures NoWrap(lo / 8 % 64, p) && NoWrap((lo + 8 * p) % TWO_32 / 8 % 64, q)
  {
    CounterMod64(lo, p);
    var index := lo / 8 % 64;
    assert (index + p) % 64 == index + p - 64 * ((index + p) / 64);
  }

  /** The update of p then q in place of p + q returns wherever that does, with the same result. */
  lemma TwoForOne(o: Object, p: seq<uint1>, q: seq<uint1>)
    requires Returns(o, CallUpdate(p + q))
    ensures Legal(o, [CallUpdate(p), CallUpdate(q)])
    ensures Run(o, [CallUpdate(p), CallUpdate(q)]) == Update(o, p + q)
  {
    hide Fold, Tail, NoWrap;
    SplitReturns(o.ctx.lo, |p|, |q|);
    CountedLow(o.ctx, p);
    assert [CallUpdate(p), CallUpdate(q)] == [CallUpdate(p)] + [CallUpdate(q)];
    RunAppend(o, [CallUpdate(p)], [CallUpdate(q)]);
    RunSingle(o, CallUpdate(p));
    RunSingle(Update(o, p), CallUpdate(q));
    SplitIndependence(o.ctx, p, q);
  }

  lemma CountedLow(c: Context, input: seq<uint1>)
    requires |input| < TWO_32
    ensures Absorb(c, input).lo == (c.lo + 8 * |input|) % TWO_32
  {
    hide Fold, Tail, CountUp;
    CountUpAdds(c.lo, c.hi, |input|);
  }

  /** Anywhere in a run of public calls, before or after finalisation, one update may be made two:
      the run still returns, and every later digest and the whole object are the same. */
  lemma UpdatesMerge(o: Object, before: seq<Call>, p: seq<uint1>, q: seq<uint1>, later: seq<Call>)
    requires Legal(o, before + [CallUpdate(p + q)] + later)
    ensures Legal(o, before + [CallUpdate(p), CallUpdate(q)] + later)
    ensures Run(o, before + [CallUpdate(p), CallUpdate(q)] + later) == Run(o, before + [CallUpdate(p + q)] + later)
  {
    hide Run, Legal, Update, Returns;
    var two, one := [CallUpdate(p), CallUpdate(q)], [CallUpdate(p + q)];
    RunAppend(o, before + one, later);
    RunAppend(o, before, one);
    var r := Run(o, before);
    RunSingle(r, CallUpdate(p + q));
    TwoForOne(r, p, q);
    RunAppend(o, before, two);
    RunAppend(o, before + two, later);
  }
}
