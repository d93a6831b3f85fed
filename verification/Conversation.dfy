/** From the bytes of all clients to what each of them hears: the server between clients that read as
    chat_client/TcpClient.cpp does. */
module Conversation {
  import PartialIo
  import opened Framing
  import opened Messages
  import opened Requests
  import opened Descriptors
  import opened Sessions
  import opened Lines
  import opened Client
  import opened Protocol
  import opened Server

  /** What a client hears in the bytes that it is written. */
  function HeardIn(bytes: seq<PartialIo.byte>): seq<Signal> {
    HeardFrames(Cut(bytes).0)
  }

  function HeardFrames(frames: seq<Frame>): seq<Signal> {
    if frames == [] then []
    else (if |frames[0].head| == HEADER then [Hear(frames[0])] else []) + HeardFrames(frames[1..])
  }

  lemma {:induction false} FramesHeard(ms: seq<Message>)
    ensures HeardFrames(Frames(ms)) == AllHeard(ms)
  {
    hide Hear, FrameOf;
    if ms != [] {
      FramesHeard(ms[1..]);
      assert Frames(ms)[1..] == Frames(ms[1..]);
      assert AllHeard(ms) == [Heard(ms[0])] + AllHeard(ms[1..]);
    }
  }

  /** What the client at f hears when the one at fd is closed. */
  function HeardOfClosing(b: Book, fd: nat, f: nat): seq<Signal> {
    if fd in b.uidOf && f in b.uidOf && f != fd then [WentOffline([b.uidOf[fd] % LONGS])] else []
  }

  /** What the client at f is to hear of a step, from the bytes that the step reads. */
  function Tells(s: State, e: Event, f: nat): seq<Signal>
    requires Sound(s) && Enabled(s, e)
  {
    match e
    case Admit => []
    case Other(_) => []
    case Write(fd, _) => if Ruling(s, e) == Drop then HeardOfClosing(s.book, fd, f) else []
    case Recv(fd, feed, db) =>
      Sized(s);
      SaneLine(s, fd);
      FoundHeaded(s.lines[fd], feed);
      match Read(s.lines[fd], feed).found
      case Gone => HeardOfClosing(s.book, fd, f)
      case More => []
      case Unknown(kind) => if f == fd then [Refused(kind)] else []
      case Parsed(m) =>
        EnabledServes(s, e);
        Hears(s.book, fd, m.head[0], m.head[1], m.body, s.lines[fd].used, db, f)
  }

  /** A message in an enabled step neither ends the process nor overruns a list. */
  lemma EnabledServes(s: State, e: Event)
    requires Sound(s) && Enabled(s, e) && e.Recv?
    ensures |s.lines| == FD_SETSIZE > e.fd && Sane(s.lines[e.fd].inward)
    ensures var (found, used) := (Read(s.lines[e.fd], e.feed).found, s.lines[e.fd].used);
            found.Parsed? ==>
              var m := found.frame;
              && |m.head| == HEADER
              && !Ends(s.book, e.fd, m.head[0], m.head[1], m.body, used, e.db)
              && !ListsOverrun(s.book, e.fd, m.head[0], m.head[1], m.body, e.db)
              && !Fatal(s.book, e.fd, Asked(s, e.fd, e.feed, e.db))
              && Ruling(s, e) == Keep
  {
    hide Ends, ListsOverrun, Fatal, Overruns, Receive, Framing.Take, Accounted, LineSound, Parse, LengthOf;
    Sized(s);
    SaneLine(s, e.fd);
    FoundHeaded(s.lines[e.fd], e.feed);
    var found := Read(s.lines[e.fd], e.feed).found;
    if found.Parsed? {
      var m := found.frame;
      EndsIsFatal(s.book, e.fd, m.head, m.body, s.lines[e.fd].used, e.db);
      ReceiveAborts(s.book, s.table.clients, e.fd, Asked(s, e.fd, e.feed, e.db));
      NoHangup(m.head, m.body, s.lines[e.fd].used, e.db);
    }
  }

  lemma ClosingHeard(b: Book, fd: nat, f: nat)
    ensures AllHeard(ToldByClose(b, fd, f)) == HeardOfClosing(b, fd, f)
  {
    hide Heard;
    if fd in b.uidOf {
      PresenceHeard(b.uidOf[fd], false);
      OneHeard(Presence(b.uidOf[fd], false));
    }
  }

  /** The queue of f is told of a step exactly what the client is to hear. */
  lemma StepHeard(s: State, e: Event, f: nat)
    requires Sound(s) && Enabled(s, e)
    ensures AllHeard(Queued(s, e, f)) == Tells(s, e, f)
  {
    hide Sound, Ends, ListsOverrun, Fatal, Overruns, Receive, Send, Framing.Take, Parse, ToldByRequest, ToldByClose;
    hide Hears, Refused, AllHeard, Heard, HeardOfClosing, ResultOf, Wrote;
    NothingHeard();
    match e
    case Recv(fd, feed, db) => {
      EnabledServes(s, e);
      ClosingHeard(s.book, fd, f);
      RulingIs(s, e);
      match Read(s.lines[fd], feed).found
      case Parsed(m) => {
        EndsIsFatal(s.book, fd, m.head, m.body, s.lines[fd].used, db);
        ToldIsHeard(s.book, fd, m.head, m.body, s.lines[fd].used, db, f);
      }
      case Unknown(kind) => {
        RefusalHeard(kind);
        OneHeard(Refusal(kind));
        ToldRefusal(s.book, fd, kind, f);
      }
      case More => {
        ToldNothing(s.book, fd, f);
      }
      case Gone =>
    }
    case Write(fd, answers) => {
      ClosingHeard(s.book, fd, f);
    }
    case _ =>
  }

  lemma NothingHeard()
    ensures AllHeard([]) == []
  {}

  lemma ToldRefusal(b: Book, fd: nat, kind: PartialIo.byte, f: nat)
    ensures !Fatal(b, fd, Answered(Refusal(kind), false))
    ensures ToldByRequest(b, fd, Answered(Refusal(kind), false), f) == if f == fd then [Refusal(kind)] else []
  {}

  lemma ToldNothing(b: Book, fd: nat, f: nat)
    ensures !Fatal(b, fd, Incomplete) && ToldByRequest(b, fd, Incomplete, f) == []
  {}

  lemma RulingIs(s: State, e: Event)
    requires Sound(s) && Enabled(s, e) && e.Recv?
    ensures |s.lines| == FD_SETSIZE > e.fd && Sane(s.lines[e.fd].inward)
    ensures Ruling(s, e) == Drop <==> Read(s.lines[e.fd], e.feed).found == Gone
  {
    hide Fatal, Overruns, Receive, Framing.Take, Accounted, LineSound, RequestOf;
    Sized(s);
    SaneLine(s, e.fd);
    ReceiveAborts(s.book, s.table.clients, e.fd, Asked(s, e.fd, e.feed, e.db));
    HangupIsGone(s.lines[e.fd], e.feed, e.db);
  }

  /** Who is logged in, on which descriptor, after a step that reads a message; one that closes a client
      logs it out, and no other step changes it. */
  lemma StepUsers(s: State, e: Event)
    requires Sound(s) && Enabled(s, e)
    ensures var (users, users') := (s.book.uidOf, Next(s, e).book.uidOf);
            && (Serves(e) && Ruling(s, e) == Drop ==> users' == users - {e.fd})
            && (!Serves(e) || (e.Write? && Ruling(s, e) == Keep) ==> users' == users)
    ensures e.Recv? ==> |s.lines| > e.fd && Sane(s.lines[e.fd].inward)
    ensures e.Recv? && Ruling(s, e) == Keep ==>
              var (users, users') := (s.book.uidOf, Next(s, e).book.uidOf);
              match Read(s.lines[e.fd], e.feed).found
              case Parsed(m) =>
                |m.head| == HEADER && users' == UsersAfter(s.book, e.fd, m.head[0], m.head[1], m.body, e.db)
              case _ => users' == users
  {
    hide Accounted, LineSound, Consistent, CloseConn, Framing.Take, Parse, UsersAfter, Receive, Wrote, ResultOf;
    match e
    case Recv(fd, feed, db) => {
      EnabledServes(s, e);
      RulingIs(s, e);
      ReceiveConsistent(s.book, s.table.clients, fd, Asked(s, fd, feed, db));
      CloseTells(s.book, s.table.clients, fd);
      var found := Read(s.lines[fd], feed).found;
      if found.Parsed? {
        LoggedInThen(s.book, s.table.clients, fd, found.frame.head, found.frame.body, s.lines[fd].used, db);
      } else if Ruling(s, e) == Keep {
        UsersThen(s.book, s.table.clients, fd, Asked(s, fd, feed, db));
      }
    }
    case Write(fd, answers) => {
      SendConsistent(s.book, s.table.clients, fd, Result(s, fd, answers));
      CloseTells(s.book, s.table.clients, fd);
    }
    case _ =>
  }

  function TellsInRun(s: State, run: seq<Event>, f: nat): seq<Signal>
    requires Sound(s) && EnabledRun(s, run)
    decreases |run|
  {
    if run == [] then []
    else (NextSound(s, run[0]); Tells(s, run[0], f) + TellsInRun(Next(s, run[0]), run[1..], f))
  }

  lemma {:induction false} RunHeard(s: State, run: seq<Event>, f: nat)
    requires Sound(s) && EnabledRun(s, run)
    ensures AllHeard(QueuedInRun(s, run, f)) == TellsInRun(s, run, f)
    decreases |run|
  {
    hide Sound, Enabled, Next, Queued, Tells, AllHeard;
    if run == [] {
      NothingHeard();
    } else {
      NextSound(s, run[0]);
      StepHeard(s, run[0], f);
      RunHeard(Next(s, run[0]), run[1..], f);
      HeardConcat(Queued(s, run[0], f), QueuedInRun(Next(s, run[0]), run[1..], f));
    }
  }

  /** From the moment it is accepted and as long as it is kept, a client hears in its bytes what the bytes of
      all clients have told it, in order, up to what is still queued for it. */
  lemma ClientHears(s: State, run: seq<Event>, f: nat)
    requires Sound(s) && EnabledRun(s, run) && Lives(s, run, f) && IsNew(s, f)
    ensures Sound(After(s, run)) && f < |After(s, run).book.queues|
    ensures f in After(s, run).table.clients ==>
              HeardIn(WrittenInRun(s, run, f)) + AllHeard(After(s, run).book.queues[f]) == TellsInRun(s, run, f)
  {
    hide EnabledRun, After, Lives, SentInRun, QueuedInRun, WrittenInRun, Sound, AllHeard, Frames, Cut, HeardFrames;
    QueueIsFifo(s, run, f);
    SessionBytes(s, run, f);
    RunHeard(s, run, f);
    assert [] + QueuedInRun(s, run, f) == QueuedInRun(s, run, f);
    if f in After(s, run).table.clients {
      FramesHeard(SentInRun(s, run, f));
      HeardConcat(SentInRun(s, run, f), After(s, run).book.queues[f]);
    }
  }
}
