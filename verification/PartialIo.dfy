/** read_from_fd and write_to_fd of server/common.cpp against an operating system that answers
    every call as a script says. */
module PartialIo {

  type byte = bv8

  /** What one read or write does: fail with EINTR, with EAGAIN, or otherwise, or transfer at
      most n bytes; a transfer of none is the end of the file. */
  datatype Answer = Interrupted | WouldBlock | Failed | Ready(n: nat)

  function Min(a: nat, b: nat): nat { if a < b then a else b }

  /** The C int argument as a number of bytes to transfer. */
  function Wanted(len: int): nat { if len < 0 then 0 else len }

  datatype Outcome = Outcome(ret: int, moved: nat, rest: seq<Answer>)

  /** The bytes that one answer moves when want are asked for and avail are there. */
  function Moved(a: Answer, want: nat, avail: nat): (k: nat)
    ensures k <= want && k <= avail
    ensures !a.Ready? ==> k == 0
  {
    if a.Ready? then Min(a.n, Min(want, avail)) else 0
  }

  /** One call, for want bytes when the other side has avail: the value returned, the bytes moved,
      the answers not used up. */
  function Transfer(s: seq<Answer>, want: nat, avail: nat): (o: Outcome)
    ensures o.moved <= want && o.moved <= avail
    ensures o.ret == -1 || o.ret == o.moved
    ensures |o.rest| <= |s| && (want > 0 && s != [] ==> |o.rest| < |s|)
    decreases |s|
  {
    if want == 0 || s == [] then Outcome(0, 0, s)
    else
      var k := Moved(s[0], want, avail);
      if s[0].Interrupted? || k > 0 then After(k, Transfer(s[1..], want - k, avail - k))
      else Outcome(if s[0].Failed? then -1 else 0, 0, s[1..])
  }

  /** An outcome with k bytes moved before it. */
  function After(k: nat, o: Outcome): Outcome {
    Outcome(if o.ret == -1 then -1 else o.ret + k, o.moved + k, o.rest)
  }

  // ----- what one call does, said without the recursion

  /** All the bytes that the answers allow. */
  function Granted(s: seq<Answer>): nat {
    if s == [] then 0 else (if s[0].Ready? then s[0].n else 0) + Granted(s[1..])
  }

  /** The answer lets the loop go on. */
  predicate Passes(a: Answer) {
    a.Interrupted? || (a.Ready? && a.n > 0)
  }

  lemma {:induction false} UsesPrefix(s: seq<Answer>, want: nat, avail: nat)
    ensures var o := Transfer(s, want, avail);
            var used := |s| - |o.rest|;
            && o.rest == s[used..]
            && (forall i :: 0 <= i < used - 1 ==> Passes(s[i]))
            && (o.ret == -1 <==> used > 0 && s[used - 1].Failed?)
    decreases |s|
  {
    hide Transfer;
    if want == 0 || s == [] {
      TransferNone(s, want, avail);
    } else {
      TransferStep(s, want, avail);
      var k := Moved(s[0], want, avail);
      if s[0].Interrupted? || k > 0 {
        UsesPrefix(s[1..], want - k, avail - k);
        var used := |s| - |Transfer(s[1..], want - k, avail - k).rest|;
        forall i | 0 <= i < used - 1
          ensures Passes(s[i])
        {
          if i > 0 {
            assert s[i] == s[1..][i - 1];
          }
        }
      }
    }
  }

  lemma {:induction false} MovesWhatIsGranted(s: seq<Answer>, want: nat, avail: nat)
    ensures var o := Transfer(s, want, avail);
            && o.moved == Min(Granted(s[..|s| - |o.rest|]), Min(want, avail))
            && (0 <= o.ret < want ==>
                  || (|o.rest| < |s| && !Passes(s[|s| - |o.rest| - 1]))
                  || o.rest == []
                  || o.moved == avail)
    decreases |s|
  {
    hide Transfer, Granted;
    if want == 0 || s == [] {
      TransferNone(s, want, avail);
      GrantedNone(s[..0]);
    } else {
      TransferStep(s, want, avail);
      var k := Moved(s[0], want, avail);
      if s[0].Interrupted? || k > 0 {
        var o := Transfer(s[1..], want - k, avail - k);
        MovesWhatIsGranted(s[1..], want - k, avail - k);
        GrantedStep(s, |s| - |o.rest|);
      } else {
        GrantedStep(s, 1);
        GrantedNone(s[1..][..0]);
      }
    }
  }

  lemma GrantedNone(s: seq<Answer>)
    requires s == []
    ensures Granted(s) == 0
  {}

  lemma GrantedStep(s: seq<Answer>, used: nat)
    requires 0 < used <= |s|
    ensures Granted(s[..used]) == (if s[0].Ready? then s[0].n else 0) + Granted(s[1..][..used - 1])
  {
    assert s[..used][1..] == s[1..][..used - 1];
  }

  /** A call uses up a prefix of the script; it moves all that this prefix grants, up to the bytes
      wanted and available; every answer used but the last lets the loop go on; it returns -1
      exactly when the last one used is a failure; and a short return is due to the last answer,
      to the end of the script, or to the end of the stream. */
  lemma TransferMeaning(s: seq<Answer>, want: nat, avail: nat)
    ensures var o := Transfer(s, want, avail);
            var used := |s| - |o.rest|;
            && o.rest == s[used..]
            && o.moved == Min(Granted(s[..used]), Min(want, avail))
            && (forall i :: 0 <= i < used - 1 ==> Passes(s[i]))
            && (o.ret == -1 <==> used > 0 && s[used - 1].Failed?)
            && (0 <= o.ret < want ==>
                  || (used > 0 && !Passes(s[used - 1]))
                  || o.rest == []
                  || o.moved == avail)
  {
    hide Transfer, Granted;
    UsesPrefix(s, want, avail);
    MovesWhatIsGranted(s, want, avail);
  }

  // ----- calls resumed where the previous one stopped short

  /** Calls on the remaining range after every short return, until all is done, a call fails or the
      script is used up. */
  function Resumed(s: seq<Answer>, want: nat, avail: nat): (o: Outcome)
    ensures o.ret == -1 || o.ret == o.moved
    decreases |s|
  {
    var o := Transfer(s, want, avail);
    if o.ret == -1 || o.moved == want || o.rest == [] then o
    else After(o.moved, Resumed(o.rest, want - o.moved, avail - o.moved))
  }

  /** The script without the answers that only interrupt. */
  function Calm(s: seq<Answer>): seq<Answer> {
    if s == [] then []
    else if s[0].Interrupted? || s[0].WouldBlock? || s[0] == Ready(0) then Calm(s[1..])
    else [s[0]] + Calm(s[1..])
  }

  /** One step of a call, with the recursion left folded. */
  lemma TransferStep(s: seq<Answer>, want: nat, avail: nat)
    requires want > 0 && s != []
    ensures var k := Moved(s[0], want, avail);
            Transfer(s, want, avail) ==
            if s[0].Interrupted? || k > 0 then After(k, Transfer(s[1..], want - k, avail - k))
            else Outcome(if s[0].Failed? then -1 else 0, 0, s[1..])
  {}

  lemma TransferNone(s: seq<Answer>, want: nat, avail: nat)
    requires want == 0 || s == []
    ensures Transfer(s, want, avail) == Resumed(s, want, avail) == Outcome(0, 0, s)
  {}

  lemma ResumedUnfold(s: seq<Answer>, want: nat, avail: nat)
    ensures var o := Transfer(s, want, avail);
            Resumed(s, want, avail) ==
            if o.ret == -1 || o.moved == want || o.rest == [] then o
            else After(o.moved, Resumed(o.rest, want - o.moved, avail - o.moved))
  {}

  /** Resuming step by step: the first answer of the script is dealt with, and the rest is resumed. */
  lemma ResumedStep(s: seq<Answer>, want: nat, avail: nat)
    requires want > 0 && s != [] && !s[0].Failed?
    ensures var k := Moved(s[0], want, avail);
            Resumed(s, want, avail) == After(k, Resumed(s[1..], want - k, avail - k))
  {
    hide Transfer, Resumed, Moved;
    var k := Moved(s[0], want, avail);
    TransferStep(s, want, avail);
    ResumedUnfold(s, want, avail);
    ResumedUnfold(s[1..], want - k, avail - k);
    if s[1..] == [] || want == k {
      TransferNone(s[1..], want - k, avail - k);
    }
  }

  lemma CalmStep(s: seq<Answer>)
    requires s != []
    ensures Calm(s) == if s[0].Failed? || (s[0].Ready? && s[0].n > 0) then [s[0]] + Calm(s[1..]) else Calm(s[1..])
  {}

  /** Interruptions do not matter.  Resumed calls move the bytes that one call moves when nothing
      interrupts it; and if the stream holds enough for the whole request, they also report the
      same and leave the same answers. */
  lemma {:induction false} ResumptionTransparent(s: seq<Answer>, want: nat, avail: nat)
    ensures var r, c := Resumed(s, want, avail), Transfer(Calm(s), want, avail);
            && r.moved == c.moved
            && (want <= avail ==> r.ret == c.ret && Calm(r.rest) == c.rest)
    decreases |s|
  {
    hide Transfer, Resumed, Calm;
    if want == 0 || s == [] {
      TransferNone(s, want, avail);
      if s == [] {
        CalmNone(s);
      }
      TransferNone(Calm(s), want, avail);
    } else {
      var k := Moved(s[0], want, avail);
      CalmStep(s);
      if s[0].Failed? {
        TransferStep(s, want, avail);
        ResumedUnfold(s, want, avail);
        TransferStep(Calm(s), want, avail);
      } else {
        ResumedStep(s, want, avail);
        ResumptionTransparent(s[1..], want - k, avail - k);
        if s[0].Ready? && s[0].n > 0 {
          TransferStep(Calm(s), want, avail);
          NothingAvailable(s[1..], want);
        }
      }
    }
  }

  lemma CalmNone(s: seq<Answer>)
    requires s == []
    ensures Calm(s) == []
  {}

  lemma {:induction false} NothingAvailable(s: seq<Answer>, want: nat)
    ensures Resumed(s, want, 0).moved == 0
    decreases |s|
  {
    var o := Transfer(s, want, 0);
    if o.ret == -1 || o.moved == want || o.rest == [] {
    } else {
      NothingAvailable(o.rest, want);
    }
  }

  // ----- the two functions

  /** A descriptor: the bytes in flight and the answers to come. */
  class Channel {
    var stream: seq<byte>
    var script: seq<Answer>

    constructor (stream: seq<byte>, script: seq<Answer>)
      ensures this.stream == stream && this.script == script
    {
      this.stream, this.script := stream, script;
    }

    /** The next answer; when the script is used up, every call would block. */
    method NextAnswer() returns (a: Answer)
      modifies this`script
      ensures if old(script) == [] then a == WouldBlock && script == []
              else a == old(script)[0] && script == old(script)[1..]
    {
      if script == [] {
        return WouldBlock;
      }
      a := script[0];
      script := script[1..];
    }

    /** The system call read. */
    method Read(data: array<byte>, at: nat, len: nat) returns (res: int, a: Answer)
      requires at + len <= data.Length
      modifies this, data
      ensures if old(script) == [] then a == WouldBlock && script == []
              else a == old(script)[0] && script == old(script)[1..]
      ensures var k := Moved(a, len, |old(stream)|);
              && res == (if a.Ready? then k else -1)
              && stream == old(stream)[k..]
              && data[..] == Stored(old(data[..]), at, old(stream)[..k])
    {
      a := NextAnswer();
      res := -1;
      if a.Ready? {
        var k := Moved(a, len, |stream|);
        forall j | 0 <= j < k { data[at + j] := stream[j]; }
        stream := stream[k..];
        res := k;
      }
    }

    /** The system call write. */
    method Write(data: array<byte>, at: nat, len: nat) returns (res: int, a: Answer)
      requires at + len <= data.Length
      modifies this
      ensures if old(script) == [] then a == WouldBlock && script == []
              else a == old(script)[0] && script == old(script)[1..]
      ensures var k := Moved(a, len, len);
              && res == (if a.Ready? then k else -1)
              && stream == old(stream) + data[at..at + k]
    {
      a := NextAnswer();
      res := -1;
      if a.Ready? {
        var k := Moved(a, len, len);
        stream := stream + data[at..at + k];
        res := k;
      }
    }
  }

  /** A buffer with bytes stored from position at on. */
  function Stored(data: seq<byte>, at: nat, bytes: seq<byte>): seq<byte>
    requires at + |bytes| <= |data|
  {
    data[..at] + bytes + data[at + |bytes|..]
  }

  lemma StoredNext(data: seq<byte>, at: nat, stream: seq<byte>, n: nat, k: nat)
    requires at + n + k <= |data| && n + k <= |stream|
    ensures |Stored(data, at, stream[..n])| == |data|
    ensures Stored(Stored(data, at, stream[..n]), at + n, stream[n..][..k]) == Stored(data, at, stream[..n + k])
    ensures stream[n..][k..] == stream[n + k..]
  {}

  lemma StoredNone(data: seq<byte>, at: nat, stream: seq<byte>)
    requires at <= |data|
    ensures stream[0..] == stream && Stored(data, at, stream[..0]) == data
  {}

  lemma StoredPrefix(data: seq<byte>, at: nat, bytes: seq<byte>)
    requires at + |bytes| <= |data|
    ensures |Stored(data, at, bytes)| == |data|
    ensures Stored(data, at, bytes)[..at + |bytes|] == data[..at] + bytes
  {}

  /** The script without the interruptions it starts with. */
  function Uninterrupted(s: seq<Answer>): (t: seq<Answer>)
    ensures |t| <= |s| && (t != [] ==> !t[0].Interrupted?)
  {
    if s != [] && s[0].Interrupted? then Uninterrupted(s[1..]) else s
  }

  lemma {:induction false} InterruptionsPass(s: seq<Answer>, want: nat, avail: nat)
    ensures Transfer(s, want, avail) == Transfer(Uninterrupted(s), want, avail) || want == 0
    decreases |s|
  {
    hide Transfer;
    if s != [] && s[0].Interrupted? && want > 0 {
      TransferStep(s, want, avail);
      InterruptionsPass(s[1..], want, avail);
    }
  }

  /** read, repeated while it is interrupted. */
  method ReadRetrying(ch: Channel, data: array<byte>, at: nat, len: nat) returns (res: int, a: Answer)
    requires at + len <= data.Length
    modifies ch, data
    ensures var t := Uninterrupted(old(ch.script));
            if t == [] then a == WouldBlock && ch.script == [] else a == t[0] && ch.script == t[1..]
    ensures var k := Moved(a, len, |old(ch.stream)|);
            && res == (if a.Ready? then k else -1)
            && ch.stream == old(ch.stream)[k..]
            && data[..] == Stored(old(data[..]), at, old(ch.stream)[..k])
  {
    ghost var s0, d0 := ch.script, data[..];
    assert Stored(d0, at, []) == d0;
    while true
      invariant ch.stream == old(ch.stream) && data[..] == d0
      invariant Uninterrupted(ch.script) == Uninterrupted(s0)
      decreases |ch.script|
    {
      res, a := ch.Read(data, at, len);
      if !(res == -1 && a.Interrupted?) {
        return;
      }
    }
  }

  /** write, repeated while it is interrupted. */
  method WriteRetrying(ch: Channel, data: array<byte>, at: nat, len: nat) returns (res: int, a: Answer)
    requires at + len <= data.Length
    modifies ch
    ensures var t := Uninterrupted(old(ch.script));
            if t == [] then a == WouldBlock && ch.script == [] else a == t[0] && ch.script == t[1..]
    ensures var k := Moved(a, len, len);
            && res == (if a.Ready? then k else -1)
            && ch.stream == old(ch.stream) + data[at..at + k]
  {
    ghost var s0 := ch.script;
    while true
      invariant ch.stream == old(ch.stream)
      invariant Uninterrupted(ch.script) == Uninterrupted(s0)
      decreases |ch.script|
    {
      res, a := ch.Write(data, at, len);
      if !(res == -1 && a.Interrupted?) {
        return;
      }
    }
  }

  /** A call whose first effective answer moves k bytes. */
  lemma TransferNext(s: seq<Answer>, a: Answer, rest: seq<Answer>, want: nat, avail: nat)
    requires want > 0
    requires var t := Uninterrupted(s);
             if t == [] then a == WouldBlock && rest == [] else a == t[0] && rest == t[1..]
    ensures var k := Moved(a, want, avail);
            Transfer(s, want, avail) ==
            if k > 0 then After(k, Transfer(rest, want - k, avail - k))
            else Outcome(if a.Failed? then -1 else 0, 0, rest)
  {
    hide Transfer, Uninterrupted, Moved;
    InterruptionsPass(s, want, avail);
    var t := Uninterrupted(s);
    if t == [] {
      TransferNone(t, want, avail);
    } else {
      TransferStep(t, want, avail);
    }
  }

  /** read_from_fd: the returned value, the bytes stored, the bytes taken from the stream and the
      answers used are those of Transfer; nothing else in the buffer changes. */
  method ReadFromFd(ch: Channel, data: array<byte>, at: nat, len: int) returns (cnt: int)
    requires at + Wanted(len) <= data.Length
    modifies ch, data
    ensures var o := Transfer(old(ch.script), Wanted(len), |old(ch.stream)|);
            && cnt == o.ret
            && ch.script == o.rest
            && ch.stream == old(ch.stream)[o.moved..]
            && data[..] == Stored(old(data[..]), at, old(ch.stream)[..o.moved])
  {
    hide Transfer, Uninterrupted, Moved, Stored;
    ghost var want, stream, d0 := Wanted(len), ch.stream, data[..];
    ghost var goal := Transfer(ch.script, want, |stream|);
    StoredNone(d0, at, stream);
    cnt := 0;
    while cnt < len
      invariant 0 <= cnt <= want && cnt <= |stream|
      invariant ch.stream == stream[cnt..]
      invariant data[..] == Stored(d0, at, stream[..cnt])
      invariant goal == After(cnt, Transfer(ch.script, want - cnt, |stream| - cnt))
      decreases len - cnt
    {
      ghost var script := ch.script;
      var res, a := ReadRetrying(ch, data, at + cnt, len - cnt);
      TransferNext(script, a, ch.script, want - cnt, |stream| - cnt);
      ghost var k := Moved(a, want - cnt, |stream| - cnt);
      StoredNext(d0, at, stream, cnt, k);
      if res == -1 {
        if a.WouldBlock? {
          return;
        }
        return -1;
      }
      if res == 0 {
        return;
      }
      cnt := cnt + res;
    }
    TransferNone(ch.script, want - cnt, |stream| - cnt);
  }

  /** write_to_fd, likewise; the stream takes whatever the answers allow. */
  method WriteToFd(ch: Channel, data: array<byte>, at: nat, len: int) returns (cnt: int)
    requires at + Wanted(len) <= data.Length
    modifies ch
    ensures var o := Transfer(old(ch.script), Wanted(len), Wanted(len));
            && cnt == o.ret
            && ch.script == o.rest
            && ch.stream == old(ch.stream) + data[at..at + o.moved]
  {
    hide Transfer, Uninterrupted, Moved;
    ghost var want, stream := Wanted(len), ch.stream;
    ghost var goal := Transfer(ch.script, want, want);
    cnt := 0;
    while cnt < len
      invariant 0 <= cnt <= want
      invariant ch.stream == stream + data[at..at + cnt]
      invariant goal == After(cnt, Transfer(ch.script, want - cnt, want - cnt))
      decreases len - cnt
    {
      ghost var script := ch.script;
      var res, a := WriteRetrying(ch, data, at + cnt, len - cnt);
      TransferNext(script, a, ch.script, want - cnt, want - cnt);
      if res == -1 {
        if a.WouldBlock? {
          return;
        }
        return -1;
      }
      if res == 0 {
        return;
      }
      assert data[at..at + cnt] + data[at + cnt..at + cnt + res] == data[at..at + cnt + res];
      cnt := cnt + res;
    }
    TransferNone(ch.script, want - cnt, want - cnt);
  }

  /** One call of a resumed sequence that did not fail, after cnt bytes. */
  lemma ResumedNext(s: seq<Answer>, want: nat, avail: nat, cnt: nat)
    requires Transfer(s, want, avail).ret != -1
    ensures var o := Transfer(s, want, avail);
            After(cnt, Resumed(s, want, avail)) ==
            After(cnt + o.moved, Resumed(o.rest, want - o.moved, avail - o.moved))
  {}

  lemma ResumedFailed(s: seq<Answer>, want: nat, avail: nat)
    requires Transfer(s, want, avail).ret == -1
    ensures Resumed(s, want, avail) == Transfer(s, want, avail)
  {}

  /** read_from_fd on the remaining range after every short return, as long as the system has answers.
      Interruptions do not matter: the buffer and the stream end as after one call that nothing
      interrupts; with enough data so do the value returned and, interruptions aside, the answers. */
  method ReadOn(ch: Channel, data: array<byte>, at: nat, len: int) returns (cnt: int)
    requires at + Wanted(len) <= data.Length
    modifies ch, data
    ensures var c := Transfer(Calm(old(ch.script)), Wanted(len), |old(ch.stream)|);
            && ch.stream == old(ch.stream)[c.moved..]
            && data[..] == Stored(old(data[..]), at, old(ch.stream)[..c.moved])
            && (Wanted(len) <= |old(ch.stream)| ==> cnt == c.ret && Calm(ch.script) == c.rest)
  {
    hide Transfer, Resumed, Stored, Calm;
    ghost var want, stream, d0, goal := Wanted(len), ch.stream, data[..], Resumed(ch.script, Wanted(len), |ch.stream|);
    ResumptionTransparent(ch.script, want, |stream|);
    StoredNone(d0, at, stream);
    cnt := 0;
    while cnt < len && ch.script != []
      invariant 0 <= cnt <= want && cnt <= |stream|
      invariant ch.stream == stream[cnt..]
      invariant data[..] == Stored(d0, at, stream[..cnt])
      invariant goal == After(cnt, Resumed(ch.script, want - cnt, |stream| - cnt))
      decreases |ch.script|
    {
      ghost var script, o := ch.script, Transfer(ch.script, want - cnt, |stream| - cnt);
      StoredNext(d0, at, stream, cnt, o.moved);
      var res := ReadFromFd(ch, data, at + cnt, len - cnt);
      if res == -1 {
        ResumedFailed(script, want - cnt, |stream| - cnt);
        return -1;
      }
      ResumedNext(script, want - cnt, |stream| - cnt, cnt);
      cnt := cnt + res;
    }
    TransferNone(ch.script, want - cnt, |stream| - cnt);
  }

  lemma SentNext(stream: seq<byte>, data: seq<byte>, at: nat, n: nat, k: nat)
    requires at + n + k <= |data|
    ensures stream + data[at..at + n] + data[at + n..at + n + k] == stream + data[at..at + n + k]
  {}

  /** write_to_fd on the remaining range after every short return, likewise. */
  method WriteOn(ch: Channel, data: array<byte>, at: nat, len: int) returns (cnt: int)
    requires at + Wanted(len) <= data.Length
    modifies ch
    ensures var c := Transfer(Calm(old(ch.script)), Wanted(len), Wanted(len));
            && ch.stream == old(ch.stream) + data[at..at + c.moved]
            && cnt == c.ret && Calm(ch.script) == c.rest
  {
    hide Transfer, Resumed, Calm;
    ghost var want, stream, goal := Wanted(len), ch.stream, Resumed(ch.script, Wanted(len), Wanted(len));
    ghost var d := data[..];
    ResumptionTransparent(ch.script, want, want);
    cnt := 0;
    while cnt < len && ch.script != []
      invariant 0 <= cnt <= want
      invariant ch.stream == stream + d[at..at + cnt]
      invariant goal == After(cnt, Resumed(ch.script, want - cnt, want - cnt))
      decreases |ch.script|
    {
      ghost var script, o := ch.script, Transfer(ch.script, want - cnt, want - cnt);
      SentNext(stream, d, at, cnt, o.moved);
      var res := WriteToFd(ch, data, at + cnt, len - cnt);
      if res == -1 {
        ResumedFailed(script, want - cnt, want - cnt);
        return -1;
      }
      ResumedNext(script, want - cnt, want - cnt, cnt);
      cnt := cnt + res;
    }
    TransferNone(ch.script, want - cnt, want - cnt);
  }

  // ----- whole runs over one stream

  datatype Call = ReadCall(len: int) | WriteCall(bytes: seq<byte>)

  /** The state of a run: what is in flight, what readers stored, what writers got rid of, and the
      sums of the returned counts. */
  datatype World = World(stream: seq<byte>, script: seq<Answer>, stored: seq<byte>, accepted: seq<byte>,
                         read: int, written: int, failed: bool)

  function Step(w: World, c: Call): World {
    match c
    case ReadCall(len) =>
      var o := Transfer(w.script, Wanted(len), |w.stream|);
      w.(stream := w.stream[o.moved..], script := o.rest, stored := w.stored + w.stream[..o.moved],
         read := w.read + o.ret, failed := w.failed || o.ret == -1)
    case WriteCall(bytes) =>
      var o := Transfer(w.script, |bytes|, |bytes|);
      w.(stream := w.stream + bytes[..o.moved], script := o.rest, accepted := w.accepted + bytes[..o.moved],
         written := w.written + o.ret, failed := w.failed || o.ret == -1)
  }

  function Run(w: World, calls: seq<Call>): World
    decreases |calls|
  {
    if calls == [] then w else Run(Step(w, calls[0]), calls[1..])
  }

  /** start is what was in flight before the run. */
  predicate Conserved(w: World, start: seq<byte>) {
    && w.stored + w.stream == start + w.accepted
    && (!w.failed ==> w.read == |w.stored| && w.written == |w.accepted|)
  }

  lemma StepConserves(w: World, start: seq<byte>, c: Call)
    requires Conserved(w, start)
    ensures Conserved(Step(w, c), start)
  {
    hide Transfer;
    if c.WriteCall? {
      var sent := c.bytes[..Transfer(w.script, |c.bytes|, |c.bytes|).moved];
      assert w.stored + (w.stream + sent) == (w.stored + w.stream) + sent;
      assert start + (w.accepted + sent) == (start + w.accepted) + sent;
    }
  }

  lemma {:induction false} RunConserves(w: World, start: seq<byte>, calls: seq<Call>)
    requires Conserved(w, start)
    ensures Conserved(Run(w, calls), start)
    decreases |calls|
  {
    hide Step, Conserved;
    if calls != [] {
      StepConserves(w, start, calls[0]);
      RunConserves(Step(w, calls[0]), start, calls[1..]);
    }
  }

  /** Over every interleaving of the two functions on one stream, whatever the operating system
      answers: the bytes stored, then the bytes in flight, are the bytes accepted, in order.  If no
      call failed the returned counts account for all of them, and equal sums mean that the readers
      have exactly what the writers sent. */
  lemma EndToEnd(script: seq<Answer>, calls: seq<Call>)
    ensures var w := Run(World([], script, [], [], 0, 0, false), calls);
            && w.stored + w.stream == w.accepted
            && (!w.failed ==> w.read == |w.stored| && w.written == |w.accepted|)
            && (!w.failed && w.read == w.written ==> w.stored == w.accepted && w.stream == [])
  {
    var w := World([], script, [], [], 0, 0, false);
    RunConserves(w, [], calls);
    assert [] + Run(w, calls).accepted == Run(w, calls).accepted;
  }

  /** An interleaving carried out on a descriptor: the sums of the returned counts; and, as ghosts, the
      bytes left in the readers' buffers and those taken from the writers' buffers. */
  method Interleave(ch: Channel, calls: seq<Call>)
    returns (read: int, written: int, failed: bool, ghost stored: seq<byte>, ghost accepted: seq<byte>)
    modifies ch
    ensures World(ch.stream, ch.script, stored, accepted, read, written, failed) ==
            Run(World(old(ch.stream), old(ch.script), [], [], 0, 0, false), calls)
    ensures stored + ch.stream == old(ch.stream) + accepted
    ensures !failed ==> read == |stored| && written == |accepted|
    ensures !failed && old(ch.stream) == [] && read == written ==> stored == accepted && ch.stream == []
  {
    hide Transfer, Run;
    read, written, failed, stored, accepted := 0, 0, false, [], [];
    ghost var w0 := World(ch.stream, ch.script, [], [], 0, 0, false);
    var k := 0;
    assert calls[k..] == calls;
    while k < |calls|
      invariant 0 <= k <= |calls|
      invariant Run(World(ch.stream, ch.script, stored, accepted, read, written, failed), calls[k..]) == Run(w0, calls)
    {
      ghost var w := World(ch.stream, ch.script, stored, accepted, read, written, failed);
      assert calls[k..][0] == calls[k] && calls[k..][1..] == calls[k + 1..];
      RunStep(w, calls[k..]);
      match calls[k] {
        case ReadCall(len) =>
          ghost var moved := Transfer(ch.script, Wanted(len), |ch.stream|).moved;
          var data := new byte[Wanted(len)](_ => 0);
          var cnt := ReadFromFd(ch, data, 0, len);
          assert data[..moved] == w.stream[..moved];
          read, failed, stored := read + cnt, failed || cnt == -1, stored + data[..moved];
        case WriteCall(bytes) =>
          ghost var moved := Transfer(ch.script, |bytes|, |bytes|).moved;
          var data := new byte[|bytes|](i requires 0 <= i < |bytes| => bytes[i]);
          assert data[..] == bytes && data[0..0 + moved] == bytes[..moved];
          var cnt := WriteToFd(ch, data, 0, |bytes|);
          written, failed, accepted := written + cnt, failed || cnt == -1, accepted + data[..moved];
      }
      k := k + 1;
    }
    RunNone(World(ch.stream, ch.script, stored, accepted, read, written, failed), calls[k..]);
    RunConserves(w0, w0.stream, calls);
    assert w0.stream == [] ==> w0.stream + accepted == accepted;
  }

  lemma RunStep(w: World, calls: seq<Call>)
    requires calls != []
    ensures Run(w, calls) == Run(Step(w, calls[0]), calls[1..])
  {}

  lemma RunNone(w: World, calls: seq<Call>)
    requires calls == []
    ensures Run(w, calls) == w
  {}
}
