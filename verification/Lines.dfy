/** A connection of server/Connections.h between two calls, apart from its queue: what the partial reads
    and writes have left, and how they become the requests and results that the session book knows. */
module Lines {
  import opened PartialIo
  import opened Framing
  import opened Messages
  import opened Requests
  import opened Sessions

  /** What has been read of a message; what has arrived and is not read; whether data holds something;
      and how much of the first queued message has been sent. */
  datatype Line = Line(inward: Inward, stream: seq<byte>, used: bool, inHeader: bool, sent: nat)

  /** The line of a descriptor that is no client.  close_conn leaves data as it is. */
  function Idle(used: bool): Line {
    Line(Header([]), [], used, true, 0)
  }

  function Out(l: Line, queue: seq<Message>): Outward {
    Outward(l.inHeader, l.sent, Frames(queue))
  }

  predicate LineSound(l: Line, queue: seq<Message>) {
    Sane(l.inward) && Orderly(Out(l, queue))
  }

  lemma IdleSound(used: bool, queue: seq<Message>)
    ensures LineSound(Idle(used), queue)
  {}

  /** More messages at the end of the queue do not matter to the line. */
  lemma QueueGrows(l: Line, queue: seq<Message>, queue': seq<Message>)
    requires LineSound(l, queue) && queue <= queue'
    ensures LineSound(l, queue')
    ensures Begun(Out(l, queue')) == Begun(Out(l, queue))
  {
    hide FrameOf, Formed, IsLastHeader;
  }

  // ----- reading

  function Read(l: Line, feed: Feed): Taken
    requires Sane(l.inward)
  {
    Framing.Take(l.inward, feed.answers, l.stream + feed.bytes)
  }

  /** The line after recv_msg. */
  function AfterRead(l: Line, feed: Feed): (l': Line)
    requires Sane(l.inward)
    ensures Sane(l'.inward) && l'.inHeader == l.inHeader && l'.sent == l.sent
  {
    var t := Read(l, feed);
    l.(inward := if t.found == Gone then l.inward else t.conn,
       stream := (l.stream + feed.bytes)[t.moved..],
       used := l.used || ReadsBody(l.inward, feed.answers, l.stream + feed.bytes))
  }

  /** The request that recv_msg finds. */
  function RequestIn(l: Line, feed: Feed, db: Db): Request
    requires Sane(l.inward)
  {
    FoundHeaded(l, feed);
    RequestOf(Read(l, feed).found, l.used, db)
  }

  lemma FoundHeaded(l: Line, feed: Feed)
    requires Sane(l.inward)
    ensures var found := Read(l, feed).found; found.Parsed? ==> Formed(found.frame)
  {
    hide Framing.Take, LengthOf;
    var found := Read(l, feed).found;
    if found != Gone {
      TakeConserves(l.inward, feed.answers, l.stream + feed.bytes);
      assert found.Parsed? ==> found.frame in FramesOf(found);
    }
  }

  /** A client is given up by recv_msg exactly when nothing can be read for it. */
  lemma HangupIsGone(l: Line, feed: Feed, db: Db)
    requires Sane(l.inward)
    ensures RequestIn(l, feed, db).Hangup? <==> Read(l, feed).found == Gone
  {
    hide Framing.Take, Records, Refusal;
  }

  // ----- writing

  /** send_msg, on the frames of the queue. */
  function Wrote(l: Line, queue: seq<Message>, answers: seq<Answer>): Given
    requires LineSound(l, queue) && queue != []
  {
    Give(Out(l, queue), answers)
  }

  /** What the book is told of it. */
  function ResultOf(g: Given, queue: seq<Message>): SendResult
    requires queue != []
  {
    match g.fate
    case Kept => if |g.conn.queue| < |queue| then SendWhole else SendPart
    case Dropped => if IsLast(queue[0]) && !g.conn.inHeader then SendWhole else SendFailed
    case Ended => SendWhole
  }

  function AfterWrite(l: Line, g: Given): Line {
    l.(inHeader := g.conn.inHeader, sent := g.conn.sent)
  }

  function VerdictOf(fate: Fate): Verdict {
    match fate
    case Kept => Keep
    case Dropped => Drop
    case Ended => Abort
  }

  /** The book follows the bytes: send_msg keeps, drops or ends as the book says, and as long as the
      client is kept, the queue of the book is the queue that the bytes have left. */
  lemma SendFollows(b: Book, fd: nat, l: Line, answers: seq<Answer>)
    requires fd < |b.queues| && b.queues[fd] != [] && LineSound(l, b.queues[fd])
    ensures var q := b.queues[fd];
            var g := Wrote(l, q, answers);
            var (v, b') := Send(b, fd, ResultOf(g, q));
            && v == VerdictOf(g.fate) && |b'.queues| == |b.queues|
            && (v == Keep ==> Out(AfterWrite(l, g), b'.queues[fd]) == g.conn)
            && (v == Keep ==> LineSound(AfterWrite(l, g), b'.queues[fd]))
  {
    hide Give, Formed, FrameOf, IsLastHeader, IsLast, TooLong, Wire;
    var q := b.queues[fd];
    var g := Wrote(l, q, answers);
    GiveConserves(Out(l, q), answers);
    HeaderIs(q[0]);
    FormedUnlessTooLong(q[0]);
    DroppedHow(Out(l, q), answers);
    assert Frames(q)[1..] == Frames(q[1..]);
  }

  lemma DroppedHow(c: Outward, s: seq<Answer>)
    requires Orderly(c) && c.queue != []
    ensures Give(c, s).fate == Ended ==> !IsLastHeader(c.queue[0].head)
  {
    hide Transfer, LengthOf, Formed, IsLastHeader;
  }

  // ----- what has been written

  /** One call that keeps the client: what was begun, then what it writes, is the message that it
      finishes, if any, then what is begun; one that does not, writes at most the first message. */
  lemma WroteConserves(l: Line, queue: seq<Message>, answers: seq<Answer>)
    requires LineSound(l, queue) && queue != []
    ensures var g := Wrote(l, queue, answers);
            var done := if ResultOf(g, queue) == SendWhole then [queue[0]] else [];
            && (g.fate == Kept ==>
                  && Orderly(g.conn) && Begun(Out(l, queue)) + g.bytes == Wire(Frames(done)) + Begun(g.conn)
                  && (forall f :: f in Frames(done) ==> Formed(f)))
            && Begun(Out(l, queue)) + g.bytes <= Wire(Frames(queue))
  {
    hide Give, Formed, FrameOf, Wire, IsLastHeader, IsLast;
    var c := Out(l, queue);
    GiveConserves(c, answers);
    var g := Give(c, answers);
    if g.fate == Kept {
      var done := if ResultOf(g, queue) == SendWhole then [queue[0]] else [];
      assert Frames(done) == Finished(c.queue, g.conn.queue);
      BegunIsBeginning(g.conn);
      WireConcat(Frames(done), g.conn.queue);
    } else {
      WireFirst(c.queue);
    }
  }

  lemma FramesConcat(a: seq<Message>, b: seq<Message>)
    ensures Frames(a + b) == Frames(a) + Frames(b)
  {}
}
