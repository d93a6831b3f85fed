/** How server/Connections.cpp cuts the bytes of a client into messages, and writes messages to one. */
module Framing {
  import opened PartialIo

  /** sizeof(Header). */
  const HEADER: nat := 4

  /** A message on the wire: type, sub-type and the length of the whole, high byte first; then the rest. */
  datatype Frame = Frame(head: seq<byte>, body: seq<byte>)

  function LengthOf(head: seq<byte>): nat
    requires |head| == HEADER
  {
    256 * (head[2] as int) + head[3] as int
  }

  /** What the header announces after itself; below zero if it announces less than itself. */
  function BodySize(head: seq<byte>): int
    requires |head| == HEADER
  {
    LengthOf(head) - HEADER
  }

  predicate Formed(f: Frame) {
    |f.head| == HEADER && |f.body| == BodySize(f.head)
  }

  function Wire(frames: seq<Frame>): seq<byte> {
    if frames == [] then [] else frames[0].head + frames[0].body + Wire(frames[1..])
  }

  // ----- the reference: all the bytes at once

  /** Where a connection stands: within a header, or behind one and within its body. */
  datatype Inward = Header(got: seq<byte>) | Body(head: seq<byte>, got: seq<byte>)

  predicate Sane(c: Inward) {
    match c
    case Header(got) => |got| < HEADER
    case Body(head, got) => |head| == HEADER && (|got| < BodySize(head) || (BodySize(head) < 0 && got == []))
  }

  /** The bytes of a message not yet complete. */
  function Unfinished(c: Inward): seq<byte> {
    match c
    case Header(got) => got
    case Body(head, got) => head + got
  }

  /** The complete messages in a string of bytes, and where it leaves the connection.  A header that
      announces less than itself is the last thing that is looked at. */
  function Cut(bytes: seq<byte>): (r: (seq<Frame>, Inward))
    decreases |bytes|
  {
    if |bytes| < HEADER then ([], Header(bytes))
    else
      var head, rest := bytes[..HEADER], bytes[HEADER..];
      var n := BodySize(head);
      if n < 0 then ([], Body(head, []))
      else if |rest| < n then ([], Body(head, rest))
      else var (frames, c) := Cut(rest[n..]); ([Frame(head, rest[..n])] + frames, c)
  }

  lemma CutStep(f: Frame, tail: seq<byte>)
    requires Formed(f)
    ensures Cut(f.head + (f.body + tail)) == ([f] + Cut(tail).0, Cut(tail).1)
  {}

  /** Cutting undoes writing: the messages come back, whatever follows them. */
  lemma {:induction false} CutWire(frames: seq<Frame>, more: seq<byte>)
    requires forall f :: f in frames ==> Formed(f)
    ensures Cut(Wire(frames) + more) == (frames + Cut(more).0, Cut(more).1)
  {
    hide Cut, LengthOf;
    if frames == [] {
      assert Wire(frames) + more == more && frames + Cut(more).0 == Cut(more).0;
    } else {
      var f, tail := frames[0], Wire(frames[1..]) + more;
      CutWire(frames[1..], more);
      CutStep(f, tail);
      assert Wire(frames) + more == f.head + (f.body + tail);
      assert [f] + (frames[1..] + Cut(more).0) == frames + Cut(more).0;
    }
  }

  lemma CutUnfinished(c: Inward)
    requires Sane(c)
    ensures Cut(Unfinished(c)) == ([], c)
  {}

  // ----- one call of recv_msg

  /** recv_msg gives the client up; needs more bytes; answers a bad header, whose type is given; or has
      a message. */
  datatype Found = Gone | More | Unknown(kind: byte) | Parsed(frame: Frame)

  datatype Taken = Taken(found: Found, conn: Inward, moved: nat, rest: seq<Answer>)

  /** recv_data. */
  function TakeBody(head: seq<byte>, got: seq<byte>, s: seq<Answer>, stream: seq<byte>): (t: Taken)
    requires Sane(Body(head, got)) || (|head| == HEADER && BodySize(head) == 0 && got == [])
    ensures t.moved <= |stream| && Sane(t.conn)
  {
    var n := BodySize(head);
    if n < 0 then Taken(Unknown(head[0]), Body(head, got), 0, s)
    else if n == 0 then Taken(Parsed(Frame(head, got)), Header([]), 0, s)
    else
      var o := Transfer(s, n - |got|, |stream|);
      var got' := got + stream[..o.moved];
      if o.ret <= 0 then Taken(Gone, Body(head, got), o.moved, o.rest)
      else if |got'| < n then Taken(More, Body(head, got'), o.moved, o.rest)
      else Taken(Parsed(Frame(head, got')), Header([]), o.moved, o.rest)
  }

  /** recv_header; once the header is complete, recv_data is called at once. */
  function TakeHeader(got: seq<byte>, s: seq<Answer>, stream: seq<byte>): (t: Taken)
    requires |got| < HEADER
    ensures t.moved <= |stream| && Sane(t.conn)
  {
    var o := Transfer(s, HEADER - |got|, |stream|);
    var got' := got + stream[..o.moved];
    if o.ret <= 0 then Taken(Gone, Header(got), o.moved, o.rest)
    else if |got'| < HEADER then Taken(More, Header(got'), o.moved, o.rest)
    else var t := TakeBody(got', [], o.rest, stream[o.moved..]); t.(moved := o.moved + t.moved)
  }

  /** recv_msg. */
  function Take(c: Inward, s: seq<Answer>, stream: seq<byte>): (t: Taken)
    requires Sane(c)
    ensures t.moved <= |stream| && Sane(t.conn)
  {
    match c
    case Header(got) => TakeHeader(got, s, stream)
    case Body(head, got) => TakeBody(head, got, s, stream)
  }

  /** The call gets to reading a body, for which it sizes the data of the connection. */
  predicate ReadsBody(c: Inward, s: seq<Answer>, stream: seq<byte>)
    requires Sane(c)
  {
    match c
    case Header(got) =>
      var o := Transfer(s, HEADER - |got|, |stream|);
      o.ret > 0 && |got| + o.moved == HEADER && BodySize(got + stream[..o.moved]) > 0
    case Body(head, got) => BodySize(head) > 0
  }

  function FramesOf(found: Found): seq<Frame> {
    if found.Parsed? then [found.frame] else []
  }

  /** Unless the client is given up, what was unfinished and what the call takes off the stream is the
      message that it finds, if any, and what is unfinished then. */
  lemma TakeConserves(c: Inward, s: seq<Answer>, stream: seq<byte>)
    requires Sane(c) && Take(c, s, stream).found != Gone
    ensures var t := Take(c, s, stream);
            && Sane(t.conn) && (forall f :: f in FramesOf(t.found) ==> Formed(f))
            && Unfinished(c) + stream[..t.moved] == Wire(FramesOf(t.found)) + Unfinished(t.conn)
  {
    hide TakeHeader, TakeBody, Wire, LengthOf;
    match c
    case Header(got) => HeaderConserves(got, s, stream);
    case Body(head, got) => BodyConserves(head, got, s, stream);
  }

  lemma HeaderConserves(got: seq<byte>, s: seq<Answer>, stream: seq<byte>)
    requires |got| < HEADER && TakeHeader(got, s, stream).found != Gone
    ensures var t := TakeHeader(got, s, stream);
            && Sane(t.conn) && (forall f :: f in FramesOf(t.found) ==> Formed(f))
            && got + stream[..t.moved] == Wire(FramesOf(t.found)) + Unfinished(t.conn)
  {
    hide Transfer, TakeBody, LengthOf;
    var o := Transfer(s, HEADER - |got|, |stream|);
    var got' := got + stream[..o.moved];
    if |got'| == HEADER {
      BodyConserves(got', [], o.rest, stream[o.moved..]);
      var k := TakeBody(got', [], o.rest, stream[o.moved..]).moved;
      assert stream[..o.moved + k] == stream[..o.moved] + stream[o.moved..][..k];
      assert got' + [] + stream[o.moved..][..k] == got + stream[..o.moved + k];
    }
  }

  lemma BodyConserves(head: seq<byte>, got: seq<byte>, s: seq<Answer>, stream: seq<byte>)
    requires Sane(Body(head, got)) || (|head| == HEADER && BodySize(head) == 0 && got == [])
    requires TakeBody(head, got, s, stream).found != Gone
    ensures var t := TakeBody(head, got, s, stream);
            && Sane(t.conn) && (forall f :: f in FramesOf(t.found) ==> Formed(f))
            && head + got + stream[..t.moved] == Wire(FramesOf(t.found)) + Unfinished(t.conn)
  {}

  // ----- which clients are given up

  /** The next answer that is no interruption moves nothing. */
  predicate Blocked(s: seq<Answer>) {
    var t := Uninterrupted(s);
    t == [] || !t[0].Ready? || t[0].n == 0
  }

  /** Nothing can be moved, or the system fails before all is done. */
  predicate Fruitless(s: seq<Answer>, want: nat, avail: nat) {
    var used := |s| - |Transfer(s, want, avail).rest|;
    Blocked(s) || avail == 0 || (used > 0 && s[used - 1].Failed?)
  }

  lemma {:induction false} NothingMoved(s: seq<Answer>, want: nat, avail: nat)
    requires want > 0
    ensures Transfer(s, want, avail).moved == 0 <==> Blocked(s) || avail == 0
    decreases |s|
  {
    if s != [] && s[0].Interrupted? {
      NothingMoved(s[1..], want, avail);
    }
  }

  lemma FruitlessReturns(s: seq<Answer>, want: nat, avail: nat)
    requires want > 0
    ensures Transfer(s, want, avail).ret <= 0 <==> Fruitless(s, want, avail)
    ensures Failed !in s ==> (Fruitless(s, want, avail) <==> Blocked(s) || avail == 0)
  {
    hide Transfer, Blocked;
    NothingMoved(s, want, avail);
    UsesPrefix(s, want, avail);
    var used := |s| - |Transfer(s, want, avail).rest|;
    assert used > 0 ==> s[used - 1] in s;
  }

  lemma NoFailure(s: seq<Answer>, want: nat, avail: nat)
    requires Failed !in s
    ensures Transfer(s, want, avail).ret == Transfer(s, want, avail).moved
    ensures Failed !in Transfer(s, want, avail).rest
  {}

  /** Whatever the system answers: recv_msg gives the client up if and only if its first read is
      fruitless, or completes a header that announces a body and the second read is.  Behind a header
      that announces less than itself it reads nothing and gives nobody up. */
  lemma GivenUpExactly(c: Inward, s: seq<Answer>, stream: seq<byte>)
    requires Sane(c)
    ensures Take(c, s, stream).found == Gone <==>
              match c
              case Body(head, got) => BodySize(head) > 0 && Fruitless(s, BodySize(head) - |got|, |stream|)
              case Header(got) =>
                var o := Transfer(s, HEADER - |got|, |stream|);
                var size := if |got| + o.moved == HEADER then BodySize(got + stream[..o.moved]) else 0;
                || Fruitless(s, HEADER - |got|, |stream|)
                || (size > 0 && Fruitless(o.rest, size, |stream| - o.moved))
  {
    hide Transfer, Fruitless, LengthOf;
    match c
    case Header(got) => {
      var o := Transfer(s, HEADER - |got|, |stream|);
      FruitlessReturns(s, HEADER - |got|, |stream|);
      var got' := got + stream[..o.moved];
      if |got'| == HEADER && BodySize(got') > 0 {
        FruitlessReturns(o.rest, BodySize(got'), |stream| - o.moved);
      }
    }
    case Body(head, got) => {
      if BodySize(head) > 0 {
        FruitlessReturns(s, BodySize(head) - |got|, |stream|);
      }
    }
  }

  /** A client that has sent something, on a connection that does not fail: recv_msg gives it up if and
      only if this very call completes a header that announces a body, and no byte of the body can be
      read yet. */
  lemma LiveClientGivenUp(c: Inward, s: seq<Answer>, stream: seq<byte>)
    requires Sane(c) && Failed !in s && !Blocked(s) && stream != []
    ensures Take(c, s, stream).found == Gone <==>
              && c.Header?
              && var o := Transfer(s, HEADER - |c.got|, |stream|);
              && |c.got| + o.moved == HEADER && BodySize(c.got + stream[..o.moved]) > 0
              && (Blocked(o.rest) || o.moved == |stream|)
  {
    hide Transfer, Blocked, Fruitless, LengthOf, Take;
    GivenUpExactly(c, s, stream);
    match c
    case Header(got) => {
      var o := Transfer(s, HEADER - |got|, |stream|);
      FruitlessReturns(s, HEADER - |got|, |stream|);
      NoFailure(s, HEADER - |got|, |stream|);
      var got' := got + stream[..o.moved];
      if |got'| == HEADER && BodySize(got') > 0 {
        FruitlessReturns(o.rest, BodySize(got'), |stream| - o.moved);
      }
    }
    case Body(head, got) => {
      if BodySize(head) > 0 {
        FruitlessReturns(s, BodySize(head) - |got|, |stream|);
      }
    }
  }

  /** So the same message is found when it arrives at once, and loses its client when its body is one
      moment later than its header. */
  lemma ArrivalMatters(f: Frame, later: seq<Answer>)
    requires Formed(f) && f.body != []
    ensures Take(Header([]), [Ready(|f.head|), Ready(|f.body|)], f.head + f.body).found == Parsed(f)
    ensures Take(Header([]), [Ready(|f.head|), WouldBlock] + later, f.head).found == Gone
  {
    hide LengthOf;
    var s := [Ready(|f.head|), WouldBlock] + later;
    assert s[1..] == [WouldBlock] + later;
    assert Transfer(s, HEADER, HEADER) == Outcome(HEADER, HEADER, s[1..]);
    assert [] + f.head[..HEADER] == f.head;
    assert Transfer(s[1..], |f.body|, 0).ret == 0 && f.head[HEADER..] == [];
    var t := [Ready(|f.head|), Ready(|f.body|)];
    assert t[1..] == [Ready(|f.body|)];
    assert Transfer(t, HEADER, HEADER + |f.body|) == Outcome(HEADER, HEADER, t[1..]);
    assert Transfer(t[1..], |f.body|, |f.body|).ret == |f.body|;
    var stream := f.head + f.body;
    assert [] + stream[..HEADER] == f.head && stream[HEADER..] == f.body && [] + f.body[..|f.body|] == f.body;
  }

  // ----- whole runs of a receiving connection

  /** Bytes that arrive, then a call of recv_msg with these answers of the system. */
  datatype Feed = Feed(bytes: seq<byte>, answers: seq<Answer>)

  datatype Intake = Intake(conn: Inward, stream: seq<byte>, frames: seq<Frame>, lost: bool)

  const NO_INTAKE: Intake := Intake(Header([]), [], [], false)

  function Fed(w: Intake, f: Feed): (w': Intake)
    requires Sane(w.conn)
    ensures Sane(w'.conn)
  {
    var stream := w.stream + f.bytes;
    if w.lost then w.(stream := stream)
    else
      var t := Take(w.conn, f.answers, stream);
      Intake(t.conn, stream[t.moved..], w.frames + FramesOf(t.found), t.found == Gone)
  }

  function FedAll(w: Intake, feeds: seq<Feed>): (w': Intake)
    requires Sane(w.conn)
    ensures Sane(w'.conn)
    decreases |feeds|
  {
    if feeds == [] then w else FedAll(Fed(w, feeds[0]), feeds[1..])
  }

  function Arrivals(feeds: seq<Feed>): seq<byte> {
    if feeds == [] then [] else feeds[0].bytes + Arrivals(feeds[1..])
  }

  /** The messages found, what is unfinished and what is on the stream are the bytes that arrived. */
  predicate Accounts(w: Intake, arrived: seq<byte>) {
    && (forall f :: f in w.frames ==> Formed(f))
    && Wire(w.frames) <= arrived
    && (!w.lost ==> Wire(w.frames) + Unfinished(w.conn) + w.stream == arrived)
  }

  lemma {:induction false} WireConcat(a: seq<Frame>, b: seq<Frame>)
    ensures Wire(a + b) == Wire(a) + Wire(b)
  {
    if a == [] {
      assert a + b == b;
    } else {
      assert (a + b)[1..] == a[1..] + b;
      WireConcat(a[1..], b);
    }
  }

  lemma FedAccounts(w: Intake, arrived: seq<byte>, f: Feed)
    requires Sane(w.conn) && Accounts(w, arrived)
    ensures Accounts(Fed(w, f), arrived + f.bytes)
  {
    hide Take, Wire, Unfinished, Formed;
    var stream := w.stream + f.bytes;
    if !w.lost {
      var t := Take(w.conn, f.answers, stream);
      assert Wire(w.frames) + Unfinished(w.conn) + w.stream + f.bytes ==
             Wire(w.frames) + (Unfinished(w.conn) + stream[..t.moved]) + stream[t.moved..];
      if t.found != Gone {
        TakeConserves(w.conn, f.answers, stream);
        WireConcat(w.frames, FramesOf(t.found));
      } else {
        assert w.frames + [] == w.frames;
      }
    }
  }

  lemma {:induction false} FedAllAccounts(w: Intake, arrived: seq<byte>, feeds: seq<Feed>)
    requires Sane(w.conn) && Accounts(w, arrived)
    ensures Accounts(FedAll(w, feeds), arrived + Arrivals(feeds))
    decreases |feeds|
  {
    hide Accounts, Fed;
    if feeds == [] {
      assert arrived + [] == arrived;
    } else {
      FedAccounts(w, arrived, feeds[0]);
      FedAllAccounts(Fed(w, feeds[0]), arrived + feeds[0].bytes, feeds[1..]);
      assert arrived + feeds[0].bytes + Arrivals(feeds[1..]) == arrived + Arrivals(feeds);
    }
  }

  /** However the bytes of a client arrive and whatever the system answers: the messages found are a
      beginning of those in the whole string.  As long as the client is kept, the messages found and
      the state of the connection depend on the bytes taken only, not on how they were cut up. */
  lemma FragmentationTransparent(feeds: seq<Feed>)
    ensures var (w, bytes) := (FedAll(NO_INTAKE, feeds), Arrivals(feeds));
            && w.frames <= Cut(bytes).0
            && (!w.lost ==>
                  && |w.stream| <= |bytes|
                  && bytes[|bytes| - |w.stream|..] == w.stream
                  && Cut(bytes[..|bytes| - |w.stream|]) == (w.frames, w.conn))
  {
    hide FedAll, Cut;
    var w, bytes := FedAll(NO_INTAKE, feeds), Arrivals(feeds);
    FedAllAccounts(NO_INTAKE, [], feeds);
    assert [] + bytes == bytes;
    var more := bytes[|Wire(w.frames)|..];
    assert bytes == Wire(w.frames) + more;
    CutWire(w.frames, more);
    if !w.lost {
      CutWire(w.frames, Unfinished(w.conn));
      CutUnfinished(w.conn);
      assert w.frames + [] == w.frames;
      assert bytes[..|bytes| - |w.stream|] == Wire(w.frames) + Unfinished(w.conn);
    }
  }

  // ----- sending

  /** Where a connection stands in sending the first message of its queue. */
  datatype Outward = Outward(inHeader: bool, sent: nat, queue: seq<Frame>)

  /** send_header gives the connection up after such a header. */
  predicate IsLastHeader(head: seq<byte>)
    requires |head| == HEADER
  {
    head[0] == 0xA0 || head[1] == 0xFF || (head[0] == 0x90 && head[1] & 0xF0 != 0)
  }

  /** The message under way is one whose header is not yet sent whole, or no last one, as long as its
      header says, and with a part of its body still to send. */
  predicate Orderly(c: Outward) {
    && (forall f :: f in c.queue ==> |f.head| == HEADER)
    && if c.queue == [] then c.inHeader && c.sent == 0
       else
         && |c.queue[0].head| == HEADER
         && if c.inHeader then c.sent < HEADER
            else c.sent < |c.queue[0].body| && Formed(c.queue[0]) && !IsLastHeader(c.queue[0].head)
  }

  /** What has been sent of the first message. */
  function Begun(c: Outward): seq<byte>
    requires Orderly(c)
  {
    if c.queue == [] then []
    else if c.inHeader then c.queue[0].head[..c.sent]
    else c.queue[0].head + c.queue[0].body[..c.sent]
  }

  /** The client is kept; send_msg gives it up; or the process ends, because a message is not as long
      as its header says. */
  datatype Fate = Kept | Dropped | Ended

  datatype Given = Given(fate: Fate, conn: Outward, bytes: seq<byte>, rest: seq<Answer>)

  /** send_data. */
  function GiveBody(sent: nat, queue: seq<Frame>, s: seq<Answer>): (g: Given)
    requires queue != [] && sent <= |queue[0].body|
  {
    var body := queue[0].body;
    if !Formed(queue[0]) then Given(Ended, Outward(false, sent, queue), [], s)
    else if body == [] then Given(Kept, Outward(true, 0, queue[1..]), [], s)
    else
      var o := Transfer(s, |body| - sent, |body| - sent);
      var bytes := body[sent..sent + o.moved];
      if o.ret <= 0 then Given(Dropped, Outward(false, sent, queue), bytes, o.rest)
      else if sent + o.moved < |body| then Given(Kept, Outward(false, sent + o.moved, queue), bytes, o.rest)
      else Given(Kept, Outward(true, 0, queue[1..]), bytes, o.rest)
  }

  /** send_header; once the header is sent, send_data is called at once, unless the message is a last one. */
  function GiveHeader(sent: nat, queue: seq<Frame>, s: seq<Answer>): (g: Given)
    requires queue != [] && |queue[0].head| == HEADER && sent < HEADER
  {
    var head := queue[0].head;
    var o := Transfer(s, HEADER - sent, HEADER - sent);
    var bytes := head[sent..sent + o.moved];
    if o.ret <= 0 then Given(Dropped, Outward(true, sent, queue), bytes, o.rest)
    else if sent + o.moved < HEADER then Given(Kept, Outward(true, sent + o.moved, queue), bytes, o.rest)
    else if IsLastHeader(head) then Given(Dropped, Outward(false, 0, queue), bytes, o.rest)
    else var g := GiveBody(0, queue, o.rest); g.(bytes := bytes + g.bytes)
  }

  /** send_msg, with a message queued. */
  function Give(c: Outward, s: seq<Answer>): Given
    requires Orderly(c) && c.queue != []
  {
    if c.inHeader then GiveHeader(c.sent, c.queue, s) else GiveBody(c.sent, c.queue, s)
  }

  /** The messages that a call finishes. */
  function Finished(queue: seq<Frame>, queue': seq<Frame>): seq<Frame> {
    if |queue'| < |queue| then [queue[0]] else []
  }

  /** What a call makes of the queue and of what was begun. */
  predicate Moves(queue: seq<Frame>, begun: seq<byte>, g: Given)
    requires queue != [] && |queue[0].head| == HEADER
  {
    var done := Finished(queue, g.conn.queue);
    && (g.fate == Kept ==>
          && Orderly(g.conn) && queue == done + g.conn.queue
          && (done != [] ==> Formed(queue[0]) && !IsLastHeader(queue[0].head))
          && begun == Wire(done) + Begun(g.conn))
    && (g.fate != Kept ==> g.conn.queue == queue && begun <= queue[0].head + queue[0].body)
    && (g.fate == Ended ==> !Formed(queue[0]))
  }

  /** A call that keeps the client finishes at most the first message, none that is a last one or not
      as long as its header says; and what was begun and what it writes is the message that it
      finishes, if any, and what is begun then. */
  lemma GiveConserves(c: Outward, s: seq<Answer>)
    requires Orderly(c) && c.queue != []
    ensures Moves(c.queue, Begun(c) + Give(c, s).bytes, Give(c, s))
  {
    hide GiveBody, GiveHeader, Moves, LengthOf;
    if c.inHeader {
      HeaderGiven(c.sent, c.queue, s);
    } else {
      BodyGiven(c.sent, c.queue, s);
      var f, bytes := c.queue[0], GiveBody(c.sent, c.queue, s).bytes;
      assert f.head + f.body[..c.sent] + bytes == f.head + (f.body[..c.sent] + bytes);
    }
  }

  lemma HeaderGiven(sent: nat, queue: seq<Frame>, s: seq<Answer>)
    requires Orderly(Outward(true, sent, queue)) && queue != []
    ensures var g := GiveHeader(sent, queue, s); Moves(queue, queue[0].head[..sent] + g.bytes, g)
  {
    hide Transfer, GiveBody, LengthOf, IsLastHeader;
    var f := queue[0];
    var o := Transfer(s, HEADER - sent, HEADER - sent);
    assert f.head[..sent] + f.head[sent..sent + o.moved] == f.head[..sent + o.moved];
    if o.ret > 0 && sent + o.moved == HEADER && !IsLastHeader(f.head) {
      BodyGiven(0, queue, o.rest);
      var more := GiveBody(0, queue, o.rest).bytes;
      assert f.head + (f.body[..0] + more) == f.head[..sent] + (f.head[sent..] + more);
    }
  }

  lemma BodyGiven(sent: nat, queue: seq<Frame>, s: seq<Answer>)
    requires queue != [] && (forall f :: f in queue ==> |f.head| == HEADER)
    requires |queue[0].head| == HEADER && !IsLastHeader(queue[0].head)
    requires sent < |queue[0].body| || (sent == 0 && queue[0].body == [])
    ensures var g := GiveBody(sent, queue, s);
            Moves(queue, queue[0].head + (queue[0].body[..sent] + g.bytes), g)
  {
    hide Transfer, Wire, Formed, IsLastHeader;
    var f := queue[0];
    NextUp(queue);
    WireNone();
    var k := if Formed(f) && f.body != [] then Transfer(s, |f.body| - sent, |f.body| - sent).moved else 0;
    assert f.body[..sent] + f.body[sent..sent + k] == f.body[..sent + k] <= f.body;
    if sent + k == |f.body| {
      assert f.body[..sent + k] == f.body;
    }
  }

  lemma NextUp(queue: seq<Frame>)
    requires queue != [] && (forall f :: f in queue ==> |f.head| == HEADER)
    ensures Orderly(Outward(true, 0, queue[1..])) && Begun(Outward(true, 0, queue[1..])) == []
    ensures queue == [queue[0]] + queue[1..]
    ensures Wire([queue[0]]) + Begun(Outward(true, 0, queue[1..])) == queue[0].head + queue[0].body
  {}

  lemma WireNone()
    ensures Wire([]) == []
  {}

  /** Whatever the system answers: send_msg gives the client up if and only if its first write is
      fruitless, or completes the header and the message is a last one or its second write is
      fruitless; and the process ends if and only if this call completes the header of a message that
      is no last one and not as long as its header says. */
  lemma EndsExactly(c: Outward, s: seq<Answer>)
    requires Orderly(c) && c.queue != []
    ensures c.inHeader ==>
              var (f, want) := (c.queue[0], HEADER - c.sent);
              var o := Transfer(s, want, want);
              var headed := !Fruitless(s, want, want) && o.moved == want;
              && (Give(c, s).fate == Ended <==> headed && !IsLastHeader(f.head) && !Formed(f))
              && (Give(c, s).fate == Dropped <==>
                    || Fruitless(s, want, want)
                    || (headed && IsLastHeader(f.head))
                    || (headed && Formed(f) && f.body != [] && Fruitless(o.rest, |f.body|, |f.body|)))
    ensures !c.inHeader ==>
              var want := |c.queue[0].body| - c.sent;
              Give(c, s).fate != Ended && (Give(c, s).fate == Dropped <==> Fruitless(s, want, want))
  {
    hide Transfer, Fruitless, LengthOf, IsLastHeader, Formed;
    var body := c.queue[0].body;
    if c.inHeader {
      FruitlessReturns(s, HEADER - c.sent, HEADER - c.sent);
      if body != [] {
        FruitlessReturns(Transfer(s, HEADER - c.sent, HEADER - c.sent).rest, |body|, |body|);
      }
    } else {
      FruitlessReturns(s, |body| - c.sent, |body| - c.sent);
    }
  }

  /** A client that takes bytes, on a connection that does not fail: send_msg gives it up if and only if
      this very call completes the header, and the message is a last one or has a body of which no byte
      can be written yet. */
  lemma LiveReaderGivenUp(c: Outward, s: seq<Answer>)
    requires Orderly(c) && c.queue != [] && Formed(c.queue[0]) && Failed !in s && !Blocked(s)
    ensures Give(c, s).fate == Dropped <==>
              && c.inHeader
              && var o := Transfer(s, HEADER - c.sent, HEADER - c.sent);
              && c.sent + o.moved == HEADER
              && (IsLastHeader(c.queue[0].head) || (c.queue[0].body != [] && Blocked(o.rest)))
  {
    hide Transfer, Blocked, Fruitless, LengthOf, IsLastHeader, Formed, Give;
    EndsExactly(c, s);
    var body := c.queue[0].body;
    if c.inHeader {
      var o := Transfer(s, HEADER - c.sent, HEADER - c.sent);
      FruitlessReturns(s, HEADER - c.sent, HEADER - c.sent);
      NoFailure(s, HEADER - c.sent, HEADER - c.sent);
      if body != [] {
        FruitlessReturns(o.rest, |body|, |body|);
      }
    } else {
      FruitlessReturns(s, |body| - c.sent, |body| - c.sent);
    }
  }

  // ----- whole runs of a sending connection

  /** A message is queued, or send_msg is called with these answers of the system. */
  datatype Deed = Queueing(frame: Frame) | Sending(answers: seq<Answer>)

  datatype Outlet = Outlet(conn: Outward, written: seq<byte>, queued: seq<Frame>, fate: Fate)

  const NO_OUTLET: Outlet := Outlet(Outward(true, 0, []), [], [], Kept)

  /** send_msg is called with a message queued only; after the client is given up nothing happens. */
  function Done(w: Outlet, d: Deed): (w': Outlet)
    requires Orderly(w.conn) && (d.Queueing? ==> |d.frame.head| == HEADER)
    ensures Orderly(w'.conn)
  {
    if w.fate != Kept then w
    else match d
      case Queueing(f) => w.(conn := w.conn.(queue := w.conn.queue + [f]), queued := w.queued + [f])
      case Sending(answers) =>
        if w.conn.queue == [] then w
        else
          (GiveConserves(w.conn, answers);
           var g := Give(w.conn, answers);
           if g.fate == Kept then w.(conn := g.conn, written := w.written + g.bytes)
           else w.(written := w.written + g.bytes, fate := g.fate))
  }

  predicate AllHeaded(deeds: seq<Deed>) {
    forall d :: d in deeds && d.Queueing? ==> |d.frame.head| == HEADER
  }

  function DoneAll(w: Outlet, deeds: seq<Deed>): (w': Outlet)
    requires Orderly(w.conn) && AllHeaded(deeds)
    ensures Orderly(w'.conn)
    decreases |deeds|
  {
    if deeds == [] then w else
      assert deeds[0] in deeds;
      DoneAll(Done(w, deeds[0]), deeds[1..])
  }

  /** The queue is the end of all that was queued, and what was written is the rest, then what is begun;
      on a connection that was given up, a beginning of all. */
  predicate Tally(w: Outlet)
    requires Orderly(w.conn)
  {
    && (forall f :: f in w.queued ==> |f.head| == HEADER)
    && w.written <= Wire(w.queued)
    && (w.fate == Ended ==> exists f :: f in w.queued && !Formed(f))
    && (w.fate == Kept ==>
          && |w.conn.queue| <= |w.queued| && w.conn.queue == w.queued[|w.queued| - |w.conn.queue|..]
          && var sent := w.queued[..|w.queued| - |w.conn.queue|];
          && (forall f :: f in sent ==> Formed(f)) && w.written == Wire(sent) + Begun(w.conn))
  }

  lemma DoneTallies(w: Outlet, d: Deed)
    requires Orderly(w.conn) && Tally(w) && (d.Queueing? ==> |d.frame.head| == HEADER)
    ensures Tally(Done(w, d))
  {
    hide Give, Wire, Formed, Moves;
    if w.fate == Kept {
      var sent := w.queued[..|w.queued| - |w.conn.queue|];
      match d
      case Queueing(f) => {
        assert (w.queued + [f])[..|sent|] == sent;
        WireConcat(w.queued, [f]);
      }
      case Sending(answers) => {
        if w.conn.queue != [] {
          GiveConserves(w.conn, answers);
          GivenTallies(w, sent, Give(w.conn, answers));
        }
      }
    }
  }

  lemma GivenTallies(w: Outlet, sent: seq<Frame>, g: Given)
    requires Orderly(w.conn) && w.conn.queue != [] && w.queued == sent + w.conn.queue && w.fate == Kept
    requires w.written == Wire(sent) + Begun(w.conn)
    requires forall f :: f in w.queued ==> |f.head| == HEADER
    requires forall f :: f in sent ==> Formed(f)
    requires Moves(w.conn.queue, Begun(w.conn) + g.bytes, g)
    ensures g.fate == Kept ==> Tally(w.(conn := g.conn, written := w.written + g.bytes))
    ensures g.fate != Kept ==> Tally(w.(written := w.written + g.bytes, fate := g.fate))
  {
    hide Formed, Wire;
    if g.fate == Kept {
      var done := Finished(w.conn.queue, g.conn.queue);
      assert w.queued == (sent + done) + g.conn.queue;
      WireConcat(sent, done);
      WireConcat(sent + done, g.conn.queue);
      BegunIsBeginning(g.conn);
      assert w.written + g.bytes == Wire(sent) + (Begun(w.conn) + g.bytes) == Wire(sent + done) + Begun(g.conn);
    } else {
      WireConcat(sent, w.conn.queue);
      WireFirst(w.conn.queue);
      assert w.written + g.bytes == Wire(sent) + (Begun(w.conn) + g.bytes);
      assert w.conn.queue[0] in w.queued;
    }
  }

  lemma WireFirst(queue: seq<Frame>)
    requires queue != []
    ensures queue[0].head + queue[0].body <= Wire(queue)
  {}

  lemma BegunIsBeginning(c: Outward)
    requires Orderly(c)
    ensures Begun(c) <= Wire(c.queue)
  {}

  lemma {:induction false} DoneAllTallies(w: Outlet, deeds: seq<Deed>)
    requires Orderly(w.conn) && Tally(w) && AllHeaded(deeds)
    ensures Tally(DoneAll(w, deeds))
    decreases |deeds|
  {
    hide Tally, Done;
    if deeds != [] {
      assert deeds[0] in deeds;
      DoneTallies(w, deeds[0]);
      DoneAllTallies(Done(w, deeds[0]), deeds[1..]);
    }
  }

  /** In a beginning of written messages only such messages are found, in order. */
  lemma {:induction false} CutBeginning(bytes: seq<byte>, frames: seq<Frame>)
    requires (forall f :: f in frames ==> Formed(f)) && bytes <= Wire(frames)
    ensures Cut(bytes).0 <= frames
    decreases |frames|
  {
    if frames != [] && |bytes| >= HEADER {
      var f := frames[0];
      assert f in frames;
      assert bytes[..HEADER] == f.head;
      if |bytes| >= HEADER + |f.body| {
        var more := bytes[HEADER + |f.body|..];
        assert bytes == f.head + (f.body + more);
        assert more <= Wire(frames[1..]);
        CutStep(f, more);
        CutBeginning(more, frames[1..]);
      }
    }
  }

  lemma BegunFindsNothing(c: Outward)
    requires Orderly(c)
    ensures Cut(Begun(c)).0 == []
  {}

  /** Whatever is queued when and whatever the system answers: what is written is a beginning of the
      queued messages in order; as long as the client is kept, the complete messages in it are exactly
      those that have left the queue; and the process ends only on a message that is not as long as its
      header says. */
  lemma WrittenInOrder(deeds: seq<Deed>)
    requires AllHeaded(deeds)
    ensures var w := DoneAll(NO_OUTLET, deeds);
            && w.written <= Wire(w.queued)
            && (w.fate == Kept ==> w.queued == Cut(w.written).0 + w.conn.queue)
            && ((forall f :: f in w.queued ==> Formed(f)) ==> w.fate != Ended && Cut(w.written).0 <= w.queued)
  {
    hide DoneAll, Cut, Wire, Formed;
    var w := DoneAll(NO_OUTLET, deeds);
    WireNone();
    DoneAllTallies(NO_OUTLET, deeds);
    if forall f :: f in w.queued ==> Formed(f) {
      CutBeginning(w.written, w.queued);
    }
    if w.fate == Kept {
      var sent := w.queued[..|w.queued| - |w.conn.queue|];
      CutWire(sent, Begun(w.conn));
      BegunFindsNothing(w.conn);
      assert sent + [] == sent;
    }
  }

  /** The two halves of this file together: what recv_msg finds in the bytes that send_msg writes is a
      beginning of the messages queued, in order, however the bytes arrive.  Between server and client
      only one half is this code; the client reads and writes with its own. */
  lemma HalvesAgree(deeds: seq<Deed>, feeds: seq<Feed>)
    requires AllHeaded(deeds) && Arrivals(feeds) == DoneAll(NO_OUTLET, deeds).written
    requires forall f :: f in DoneAll(NO_OUTLET, deeds).queued ==> Formed(f)
    ensures FedAll(NO_INTAKE, feeds).frames <= DoneAll(NO_OUTLET, deeds).queued
  {
    hide DoneAll, FedAll, Cut, Arrivals, Formed;
    WrittenInOrder(deeds);
    FragmentationTransparent(feeds);
  }
}
